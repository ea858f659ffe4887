/**
 Launching writes and failing buffers keep what the write path knows about its records. A write always starts at the
 end of an open file, and so apart from every record and every other write; a buffer that is returned is empty, and
 the others are as they were.
 */
module WritePathFlight {
  import opened Types
  import opened Bytes
  import opened EntryFormat
  import opened BufferRules
  import opened WritePath
  import opened WritePathInvariant
  import opened WritePathSafety
  import WritePathBuffers

  lemma SealKeeps(s: State, cfg: Config)
    requires WellFormed(s) && Addressed(s, cfg)
    ensures Addressed(SealActive(s), cfg)
  {
    hide BuffersOk, QueueOk, IosOk, HomesOk, Undisturbed;
    match FileAt(s.files, s.activeId)
    case None =>
    case Some(i) =>
      var f := s.files[i].(isSealed := true);
      UpdateGrows(s.files, i, f);
      FilesGrowKeep(s, cfg, s.files[i := f]);
  }

  lemma AddFileKeeps(s: State, cfg: Config, isOpen: bool)
    requires WellFormed(s) && Addressed(s, cfg)
    ensures Addressed(AddFile(s, isOpen), cfg)
  {
    hide BuffersOk, QueueOk, IosOk, HomesOk, Undisturbed;
    var f := File(s.nextFileId, s.nextBlob, false, FILE_HEADER, isOpen);
    AppendGrows(s.files, f);
    FilesGrowKeep(s, cfg, s.files + [f]);
  }

  lemma ExtendedFiles(s: State, i: nat, size: nat)
    requires i < |s.files| && size % PAGE_SIZE == 0 && FilesOk(s.files, s.nextFileId, s.nextBlob) && s.files[i].isOpen
    ensures var files' := s.files[i := s.files[i].(end := s.files[i].end + size)];
      && FilesOk(files', s.nextFileId, s.nextBlob) && FilesGrow(s.files, files')
      && InFile(files', s.files[i].id, SpanAtEnd(s, i, size))
  {
    var f := s.files[i].(end := s.files[i].end + size);
    UpdateGrows(s.files, i, f);
    FileAtPlace(s.files, i);
    FileAtUpdate(s.files, i, f, f.id);
    assert s.files[i].end / PAGE_SIZE * PAGE_SIZE == s.files[i].end;
    assert size / PAGE_SIZE * PAGE_SIZE == size;
  }

  /** A write that starts at the end of an open file is apart from every record and every other write. */
  lemma LaunchKeeps(s: State, cfg: Config, i: nat, size: nat, io: Io, foreground: int)
    requires WellFormed(s) && Addressed(s, cfg) && i < |s.files| && s.files[i].isOpen && size % PAGE_SIZE == 0
    requires io.span == SpanAtEnd(s, i, size) && io.fileId == s.files[i].id
    requires InFile(Extend(s, i, size).files, io.fileId, io.span) ==>
               IoOk(io, Extend(s, i, size).files, s.m.buffers, s.requests, cfg)
    requires io.BufferIo? ==> io.buffer < |s.m.buffers|
    ensures Addressed(Extend(s, i, size).(ios := s.ios + [io], foreground := foreground), cfg)
  {
    hide BuffersOk, QueueOk, HomeOk;
    var r := Extend(s, i, size).(ios := s.ios + [io], foreground := foreground);
    ExtendedFiles(s, i, size);
    FilesGrowKeep(s, cfg, r.files);
    forall j | 0 <= j < |s.ios|
      ensures SpansApart(s.ios[j].span, io.span)
    {
      assert IoOk(s.ios[j], s.files, s.m.buffers, s.requests, cfg);
      EndIsFresh(s.files, i, size / PAGE_SIZE, s.ios[j].fileId, s.ios[j].span);
    }
    forall key | key in s.homes
      ensures SpansApart(s.homes[key].span, io.span)
    {
      HomeInFile(s, cfg, key);
      EndIsFresh(s.files, i, size / PAGE_SIZE, s.homes[key].fileId, s.homes[key].span);
    }
    LaunchedIos(s.ios, io, r.files, s.m.buffers, s.requests, cfg);
  }

  lemma HomeInFile(s: State, cfg: Config, key: Key)
    requires Addressed(s, cfg) && key in s.homes
    ensures InFile(s.files, s.homes[key].fileId, s.homes[key].span)
  {
    assert HomeOk(key, s.homes[key], s.index[key], s.files, s.disk, s.requests, cfg);
  }

  lemma LaunchedIos(ios: seq<Io>, io: Io, files: seq<File>, buffers: seq<Buffer>, requests: seq<Rec>, cfg: Config)
    requires IosOk(ios, files, buffers, requests, cfg) && IoOk(io, files, buffers, requests, cfg)
    requires forall j :: 0 <= j < |ios| ==> SpansApart(ios[j].span, io.span)
    ensures IosOk(ios + [io], files, buffers, requests, cfg)
  {
    hide IoOk;
    var all := ios + [io];
    forall j | 0 <= j < |all|
      ensures IoOk(all[j], files, buffers, requests, cfg)
    {
      if j < |ios| {
        assert all[j] == ios[j];
      }
    }
  }

  lemma {:induction false} EndsAligned(used: nat, content: seq<Byte>, pws: seq<PendingWrite>, requests: seq<Rec>,
                                       cfg: Config, n: nat)
    requires Tiled(used, content, pws, requests, cfg) && n <= |pws|
    ensures EndOf(pws, n) % PAGE_SIZE == 0
    decreases n
  {
    hide PendingOk, Tiled;
    if n > 0 {
      TiledAt(used, content, pws, requests, cfg, n - 1);
      EndsAligned(used, content, pws, requests, cfg, n - 1);
      AlignedStep(pws[n - 1].offset, pws[n - 1].pages);
    }
  }

  lemma TiledAt(used: nat, content: seq<Byte>, pws: seq<PendingWrite>, requests: seq<Rec>, cfg: Config, i: nat)
    requires Tiled(used, content, pws, requests, cfg) && i < |pws|
    ensures pws[i].offset == EndOf(pws, i) && PendingOk(pws[i], content, requests, cfg)
  {
  }

  lemma AlignedStep(offset: nat, pages: nat)
    requires offset % PAGE_SIZE == 0
    ensures (offset + pages * PAGE_SIZE) % PAGE_SIZE == 0
  {
  }

  lemma LaunchBufferKeeps(s: State, cfg: Config, b: nat, i: nat)
    requires WellFormed(s) && Addressed(s, cfg) && b < |s.m.buffers| && i < |s.files| && s.files[i].isOpen
    requires s.m.buffers[b].used > 0
    ensures Addressed(LaunchBuffer(s, b, i), cfg)
  {
    var used := s.m.buffers[b].used;
    assert Tiled(used, s.contents[b], s.pend[b], s.requests, cfg);
    EndsAligned(used, s.contents[b], s.pend[b], s.requests, cfg, |s.pend[b]|);
    hide Addressed, Tiled, WellFormed;
    var span := SpanAtEnd(s, i, used);
    var io := BufferIo(b, s.files[i].id, span.first % TWO32, span);
    assert used / PAGE_SIZE * PAGE_SIZE == used;
    LaunchKeeps(s, cfg, i, used, io, s.foreground + 1);
  }

  lemma LaunchDirectKeeps(s: State, cfg: Config, q: Queued, i: nat)
    requires WellFormed(s) && Addressed(s, cfg) && i < |s.files| && s.files[i].isOpen && QueuedOk(q, s.requests, cfg)
    ensures Addressed(LaunchDirect(s, q, i), cfg)
  {
    hide Addressed, WellFormed, Build;
    var rec := s.requests[q.id];
    assert Size(rec) % PAGE_SIZE == 0;
    assert q.size % PAGE_SIZE == 0 && q.size / PAGE_SIZE * PAGE_SIZE == q.size;
    var span := SpanAtEnd(s, i, q.size);
    var entry := IndexEntry(q.key, s.files[i].id % FILE_IDS, span.first % PAGE_OFFSETS, false, q.sequence, q.pages,
        q.tag);
    assert EntryOk(entry, q.id, s.files[i].id, span, s.requests, cfg);
    LaunchKeeps(s, cfg, i, q.size, DirectIo(q.id, s.files[i].id, entry, span, q.data), s.foreground + 1);
  }

  /** The buffer that is returned is empty, the others are as they were. */
  lemma ReturnedBuffers(s: State, cfg: Config, b: nat, pend': seq<seq<PendingWrite>>)
    requires WellFormed(s) && BuffersOk(s.m.buffers, s.contents, s.pend, s.requests, cfg)
    requires b < |s.m.buffers| && s.m.buffers[b].CanReset() && pend' == s.pend[b := []]
    ensures var m' := ReturnBuffer(s.m, b);
      && BuffersOk(m'.buffers, s.contents, pend', s.requests, cfg)
      && |m'.buffers| == |s.m.buffers| && forall x :: 0 <= x < |m'.buffers| && x != b ==>
          m'.buffers[x] == s.m.buffers[x]
  {
    hide Tiled;
    EmptyTiled(s.contents[b], s.requests, cfg);
  }

  lemma FailBufferKeeps(s: State, cfg: Config, batch: seq<nat>)
    requires WellFormed(s) && Addressed(s, cfg) && ManagerInv(s, batch) && batch != []
    ensures Addressed(FailBuffer(s, batch[0]), cfg)
  {
    hide FilesOk, QueueOk, HomesOk, Undisturbed, IosOk, BuffersOk;
    var b := batch[0];
    var r := FailBuffer(s, b);
    ReturnedBuffers(s, cfg, b, s.pend[b := []]);
    WritePathBuffers.BatchElsewhere(s, batch);
    BuffersKeepIos(s.ios, s.files, s.m.buffers, r.m.buffers, s.requests, cfg);
  }

  // ---------------------------------------------------------------------------------------------
  // Submitting
  // ---------------------------------------------------------------------------------------------

  ghost predicate InvWith(s: State, cfg: Config, batch: seq<nat>) {
    WellFormed(s) && ManagerInv(s, batch) && Addressed(s, cfg)
  }

  lemma NewFileKeeps(s: State, cfg: Config, batch: seq<nat>)
    requires InvWith(s, cfg, batch)
    ensures InvWith(SealActive(s), cfg, batch)
    ensures InvWith(AddFile(SealActive(s), true).(activeId := s.nextFileId), cfg, batch)
    ensures var r := AddFile(SealActive(s), true); |r.files| == |s.files| + 1 && r.files[|s.files|].isOpen
  {
    hide Addressed, ManagerInv;
    var s0 := SealActive(s);
    var s1 := AddFile(s0, true);
    SealKeeps(s, cfg);
    AddFileKeeps(s0, cfg, true);
    AddressedQueues(s1, cfg);
    SameAddressed(s1, s1.(activeId := s.nextFileId), cfg);
    WritePathBuffers.SameManager(s, s0, batch);
    WritePathBuffers.SameManager(s, s1.(activeId := s.nextFileId), batch);
  }

  /** Only these fields matter to where records are. */
  lemma SameAddressed(s: State, r: State, cfg: Config)
    requires Addressed(s, cfg)
    requires r.files == s.files && r.nextFileId == s.nextFileId && r.nextBlob == s.nextBlob &&
        r.m.buffers == s.m.buffers
    requires r.contents == s.contents && r.pend == s.pend && r.ios == s.ios && r.index == s.index && r.disk == s.disk
    requires r.requests == s.requests && r.homes == s.homes
    requires QueueOk(r.waitQ, s.requests, cfg) && QueueOk(r.pendQ, s.requests, cfg)
    requires r.allocating.Some? ==> r.allocating == s.allocating
    ensures Addressed(r, cfg)
  {
  }

  lemma LaunchKeepsInv(s: State, cfg: Config, batch: seq<nat>, i: nat)
    requires InvWith(s, cfg, batch) && batch != [] && i < |s.files| && s.files[i].isOpen
    requires batch[0] < |s.m.buffers|
    ensures InvWith(LaunchBuffer(s, batch[0], i), cfg, batch[1..])
  {
    BatchUsed(s, batch);
    hide Addressed, ManagerInv, LaunchBuffer, IdsOk;
    LaunchBufferKeeps(s, cfg, batch[0], i);
    WritePathBuffers.LaunchKeepsManager(s, batch, i);
  }

  lemma FailKeepsInv(s: State, cfg: Config, batch: seq<nat>)
    requires InvWith(s, cfg, batch) && batch != []
    requires batch[0] < |s.m.buffers|
    ensures InvWith(FailBuffer(s, batch[0]), cfg, batch[1..])
  {
    hide Addressed, ManagerInv, FailBuffer, IdsOk;
    FailBufferKeeps(s, cfg, batch);
    WritePathBuffers.FailKeepsManager(s, batch);
  }

  lemma SubmitBufferUnfolds(s: State, cfg: Config, b: nat, alloc: bool)
    requires WellFormed(s) && b < |s.m.buffers| && s.m.buffers[b].used > 0
    ensures SubmitBuffer(s, cfg, b, alloc) ==
      if !NeedsFile(s, cfg, s.m.buffers[b].used) then LaunchBuffer(s, b, FileAt(s.files, s.activeId).value)
      else if !alloc then FailBuffer(SealActive(s), b)
      else LaunchBuffer(AddFile(SealActive(s), true).(activeId := s.nextFileId), b, |s.files|)
  {
  }

  lemma SubmitBufferKeeps(s: State, cfg: Config, batch: seq<nat>, alloc: bool)
    requires InvWith(s, cfg, batch) && batch != [] && batch[0] < |s.m.buffers|
    ensures InvWith(SubmitBuffer(s, cfg, batch[0], alloc), cfg, batch[1..])
  {
    var b := batch[0];
    BatchUsed(s, batch);
    FileReady(s, cfg, s.m.buffers[b].used);
    SealAddBuffers(s);
    SubmitBufferUnfolds(s, cfg, b, alloc);
    hide *;
    NewFileKeeps(s, cfg, batch);
    if !NeedsFile(s, cfg, s.m.buffers[b].used) {
      LaunchKeepsInv(s, cfg, batch, FileAt(s.files, s.activeId).value);
    } else if !alloc {
      FailKeepsInv(SealActive(s), cfg, batch);
    } else {
      LaunchKeepsInv(AddFile(SealActive(s), true).(activeId := s.nextFileId), cfg, batch, |s.files|);
    }
  }

  lemma FileReady(s: State, cfg: Config, size: nat)
    ensures !NeedsFile(s, cfg, size) ==>
      FileAt(s.files, s.activeId).Some? && s.files[FileAt(s.files, s.activeId).value].isOpen
  {
  }

  lemma BatchUsed(s: State, batch: seq<nat>)
    requires ManagerInv(s, batch) && batch != []
    ensures batch[0] < |s.m.buffers| && s.m.buffers[batch[0]].used > 0
  {
  }

  lemma SealAddBuffers(s: State)
    requires WellFormed(s)
    ensures AddFile(SealActive(s), true).m == s.m && SealActive(s).m == s.m
  {
  }

  lemma {:induction false} SubmitToKeeps(s: State, cfg: Config, batch: seq<nat>, allocs: seq<bool>, n: nat)
    requires InvWith(s, cfg, batch) && n <= |batch| && forall i :: 0 <= i < |batch| ==> batch[i] < |s.m.buffers|
    ensures InvWith(SubmitTo(s, cfg, batch, allocs, n), cfg, batch[n..])
    decreases n
  {
    hide InvWith, SubmitBuffer, WellFormed;
    InvIsWellFormed(s, cfg, batch);
    if n > 0 {
      SubmitToKeeps(s, cfg, batch, allocs, n - 1);
      var t := SubmitTo(s, cfg, batch, allocs, n - 1);
      assert batch[n - 1..][0] == batch[n - 1] && batch[n - 1..][1..] == batch[n..];
      InvIsWellFormed(t, cfg, batch[n - 1..]);
      SubmitBufferKeeps(t, cfg, batch[n - 1..], n <= |allocs| && allocs[n - 1]);
    } else {
      assert batch[0..] == batch;
    }
  }

  lemma InvIsWellFormed(s: State, cfg: Config, batch: seq<nat>)
    requires InvWith(s, cfg, batch)
    ensures WellFormed(s)
  {
  }

  lemma SubmitPendingKeeps(s: State, cfg: Config, allocs: seq<bool>)
    requires Inv(s, cfg)
    ensures Inv(SubmitPending(s, cfg, allocs), cfg)
  {
    hide Addressed, ManagerInv, SubmitTo;
    var (m1, batch) := TakePending(s.m, MAX_BATCH);
    var s1 := s.(m := m1);
    WritePathBuffers.TakeKeepsManager(s);
    AddressedQueues(s, cfg);
    SameAddressed(s, s1, cfg);
    SubmitToKeeps(s1, cfg, batch, allocs, |batch|);
    assert batch[|batch|..] == [];
  }

  lemma AddressedQueues(s: State, cfg: Config)
    requires Addressed(s, cfg)
    ensures QueueOk(s.waitQ, s.requests, cfg) && QueueOk(s.pendQ, s.requests, cfg)
  {
  }
}
