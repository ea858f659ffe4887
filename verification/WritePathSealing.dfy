/** When a queued record is written at once, when a file is sealed, and that a sealed file may still be written. */
module WritePathSealing {
  import opened Types
  import BufferRules
  import opened WritePath
  import opened WritePathRuns
  import opened WritePathRequests

  /** The active file is open and has room for size more bytes. */
  predicate Room(s: State, cfg: Config, size: nat, i: nat) {
    && FileAt(s.files, s.activeId) == Some(i) && i < |s.files| && s.files[i].isOpen
    && s.files[i].end + size <= cfg.fileSize
  }

  /** r has the files of s, of which only the active one may have been sealed, and that if and only if sealed says so;
      files that are added are not. */
  ghost predicate Sealed(s: State, r: State, sealing: bool) {
    && |s.files| <= |r.files|
    && (forall i :: 0 <= i < |s.files| ==>
          (r.files[i].isSealed <==> s.files[i].isSealed || (sealing && FileAt(s.files, s.activeId) == Some(i))))
    && (forall i :: |s.files| <= i < |r.files| ==> !r.files[i].isSealed)
  }

  lemma SealActiveSeals(s: State)
    requires WellFormed(s)
    ensures Sealed(s, SealActive(s), true)
  {
    hide FileAt, WellFormed;
  }

  /** A buffer that does not fit into the active file seals it, whether or not a new file can be had; an empty one
      does not. */
  lemma SubmitSealsIff(s: State, cfg: Config, b: nat, alloc: bool)
    requires WellFormed(s) && b < |s.m.buffers|
    ensures var used := s.m.buffers[b].used;
      Sealed(s, SubmitBuffer(s, cfg, b, alloc), used > 0 && forall i :: !Room(s, cfg, used, i))
  {
    var used := s.m.buffers[b].used;
    SealActiveSeals(s);
    SealFrame(s);
    RoomIff(s, cfg, used);
    hide FileAt, Room, NeedsFile, BufferRules.ReturnBuffer;
  }

  lemma RoomIff(s: State, cfg: Config, size: nat)
    ensures (forall i :: !Room(s, cfg, size, i)) <==> NeedsFile(s, cfg, size)
  {
    hide FileAt;
    if !NeedsFile(s, cfg, size) {
      assert Room(s, cfg, size, FileAt(s.files, s.activeId).value);
    }
  }

  /** A queued record that does not fit into the active file seals it, unless a file is already being allocated. */
  lemma DrainSealsIff(s: State, cfg: Config)
    requires WellFormed(s) && s.waitQ != []
    ensures Sealed(s, DrainOne(s, cfg), s.allocating == None && forall i :: !Room(s, cfg, s.waitQ[0].size, i))
  {
    var q, s1 := s.waitQ[0], s.(waitQ := s.waitQ[1..]);
    SealActiveSeals(s1.(pendQ := s1.pendQ + [q]));
    SealFrame(s1.(pendQ := s1.pendQ + [q]));
    RoomIff(s, cfg, q.size);
    hide FileAt, Room;
  }

  /** A queued record is written at once exactly if no file is being allocated and the active one has room for it;
      otherwise it waits behind those that wait for a file, which is then being allocated. */
  lemma DrainLaunchesIff(s: State, cfg: Config)
    requires WellFormed(s) && s.waitQ != []
    ensures var q, r := s.waitQ[0], DrainOne(s, cfg);
      if s.allocating == None && exists i :: Room(s, cfg, q.size, i)
      then r.pendQ == s.pendQ && r.allocating == None && |r.ios| == |s.ios| + 1 && r.ios[..|s.ios|] == s.ios
           && r.ios[|s.ios|].DirectIo? && r.ios[|s.ios|].id == q.id && r.ios[|s.ios|].data == q.data
      else r.pendQ == s.pendQ + [q] && r.allocating.Some? && r.ios == s.ios
           && (s.allocating.Some? ==> r.files == s.files && r.allocating == s.allocating)
  {
    var q, s1 := s.waitQ[0], s.(waitQ := s.waitQ[1..]);
    SealFrame(s1.(pendQ := s1.pendQ + [q]));
    RoomIff(s, cfg, q.size);
    hide FileAt, Room;
  }

  /**
   Sealed does not mean read-only: the file that a queued record has sealed stays active while another is being
   allocated, and a smaller append buffer is then written behind its end all the same.
   */
  lemma SealedFileIsWritten(s: State, cfg: Config, b: nat, alloc: bool, i: nat)
    requires WellFormed(s) && s.waitQ != [] && s.allocating == None && b < |s.m.buffers|
    requires var used := s.m.buffers[b].used;
      used > 0 && Room(s, cfg, used, i) && !Room(s, cfg, s.waitQ[0].size, i)
    ensures var s1 := DrainOne(s, cfg); var r := SubmitBuffer(s1, cfg, b, alloc);
      && s1.allocating.Some? && i < |s1.files| && s1.files[i].isSealed
      && i < |r.files| && r.files[i].isSealed && r.files[i].end == s.files[i].end + s.m.buffers[b].used
      && |r.ios| == |s.ios| + 1
  {
    var q, s1 := s.waitQ[0], DrainOne(s, cfg);
    FileAtKept(s.files, s1.files, s.activeId, i);
    hide FileAt;
  }

  lemma {:induction false} FileAtKept(files: seq<File>, files': seq<File>, id: nat, i: nat)
    requires FileAt(files, id) == Some(i) && |files| <= |files'|
    requires forall j :: 0 <= j < |files| ==> files'[j].id == files[j].id
    ensures FileAt(files', id) == Some(i)
    decreases |files'|
  {
    if |files| < |files'| {
      FileAtKept(files, files'[..|files'| - 1], id, i);
    } else {
      var n := |files| - 1;
      if FileAt(files[..n], id).Some? {
        FileAtKept(files[..n], files'[..n], id, i);
      } else {
        FileAtNone(files[..n], files'[..n], id);
      }
    }
  }

  lemma {:induction false} FileAtNone(files: seq<File>, files': seq<File>, id: nat)
    requires FileAt(files, id) == None && |files| == |files'|
    requires forall j :: 0 <= j < |files| ==> files'[j].id == files[j].id
    ensures FileAt(files', id) == None
  {
    if files != [] {
      FileAtNone(files[..|files| - 1], files'[..|files| - 1], id);
    }
  }
}
