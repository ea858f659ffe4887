/**
 What the parts of the invariant of the write path say when one of the things they look at changes: a file grows, a
 request is accepted, a buffer takes a record. A put writes its record behind what its buffer holds, and so leaves
 the earlier records of the buffer as they were.
 */
module WritePathSafety {
  import opened Types
  import opened Bytes
  import opened EntryFormat
  import opened BufferRules
  import opened WritePath
  import opened WritePathInvariant
  import BufferRuns
  import WritePathBuffers

  // ---------------------------------------------------------------------------------------------
  // Files
  // ---------------------------------------------------------------------------------------------

  lemma {:induction false} FileAtUpdate(files: seq<File>, i: nat, f: File, id: nat)
    requires i < |files| && f.id == files[i].id
    ensures FileAt(files[i := f], id) == FileAt(files, id)
    decreases |files|
  {
    var n := |files| - 1;
    if i < n {
      assert files[i := f][..n] == files[..n][i := f];
      FileAtUpdate(files[..n], i, f, id);
    } else {
      assert files[i := f][..n] == files[..n];
    }
  }

  lemma FileAtAppend(files: seq<File>, f: File, id: nat)
    ensures FileAt(files + [f], id)
         == if FileAt(files, id).Some? then FileAt(files, id) else if f.id == id then Some(|files|) else None
  {
    assert (files + [f])[..|files|] == files;
  }

  /** With rising ids a file is found at its place. */
  lemma {:induction false} FileAtPlace(files: seq<File>, i: nat)
    requires i < |files| && forall i, j :: 0 <= i < j < |files| ==> files[i].id < files[j].id
    ensures FileAt(files, files[i].id) == Some(i)
    decreases |files|
  {
    var n := |files| - 1;
    if i < n {
      FileAtPlace(files[..n], i);
    }
  }

  /** What lies in a file still does. */
  ghost predicate FilesGrow(files: seq<File>, files': seq<File>) {
    forall id, at {:trigger InFile(files, id, at)} {:trigger InFile(files', id, at)} ::
      InFile(files, id, at) ==> InFile(files', id, at)
  }

  lemma UpdateGrows(files: seq<File>, i: nat, f: File)
    requires i < |files| && f.id == files[i].id && f.blob == files[i].blob && f.end >= files[i].end
    requires files[i].isOpen ==> f.isOpen
    ensures FilesGrow(files, files[i := f])
  {
    forall id, at | InFile(files, id, at)
      ensures InFile(files[i := f], id, at)
    {
      FileAtUpdate(files, i, f, id);
    }
  }

  lemma AppendGrows(files: seq<File>, f: File)
    ensures FilesGrow(files, files + [f])
  {
    forall id, at | InFile(files, id, at)
      ensures InFile(files + [f], id, at)
    {
      FileAtAppend(files, f, id);
    }
  }

  /** A stretch at the end of a file is apart from everything in any file. */
  lemma EndIsFresh(files: seq<File>, i: nat, pages: nat, id: nat, at: Span)
    requires forall i, j :: 0 <= i < j < |files| ==> files[i].blob != files[j].blob
    requires i < |files| && InFile(files, id, at)
    ensures SpansApart(at, Span(files[i].blob, files[i].end / PAGE_SIZE, pages))
  {
    var j := FileAt(files, id).value;
    if j < i {
    } else if i < j {
    } else {
      assert at.first + at.pages <= files[i].end / PAGE_SIZE;
    }
  }

  // ---------------------------------------------------------------------------------------------
  // Parts of the invariant under changes of what they read
  // ---------------------------------------------------------------------------------------------

  lemma FilesGrowKeep(s: State, cfg: Config, files': seq<File>)
    requires Addressed(s, cfg) && FilesGrow(s.files, files')
    ensures IosOk(s.ios, files', s.m.buffers, s.requests, cfg)
    ensures HomesOk(s.homes, s.index, files', s.disk, s.requests, cfg)
  {
    hide InFile, EntryOk, OnDisk;
    forall i | 0 <= i < |s.ios|
      ensures IoOk(s.ios[i], files', s.m.buffers, s.requests, cfg)
    {
      assert IoOk(s.ios[i], s.files, s.m.buffers, s.requests, cfg);
    }
    forall key | key in s.homes
      ensures HomeOk(key, s.homes[key], s.index[key], files', s.disk, s.requests, cfg)
    {
      assert HomeOk(key, s.homes[key], s.index[key], s.files, s.disk, s.requests, cfg);
    }
  }

  lemma TiledGrow(used: nat, content: seq<Byte>, pws: seq<PendingWrite>, requests: seq<Rec>, more: seq<Rec>,
      cfg: Config)
    requires Tiled(used, content, pws, requests, cfg)
    ensures Tiled(used, content, pws, requests + more, cfg)
  {
    hide HoldsAt, Size, Build;
    forall i | 0 <= i < |pws|
      ensures PendingOk(pws[i], content, requests + more, cfg)
    {
      assert PendingOk(pws[i], content, requests, cfg);
    }
  }

  lemma EntryGrow(e: IndexEntry, id: nat, fileId: nat, at: Span, requests: seq<Rec>, more: seq<Rec>, cfg: Config)
    requires EntryOk(e, id, fileId, at, requests, cfg)
    ensures EntryOk(e, id, fileId, at, requests + more, cfg)
  {
    assert (requests + more)[id] == requests[id];
  }

  lemma QueueGrow(qs: seq<Queued>, requests: seq<Rec>, more: seq<Rec>, cfg: Config)
    requires QueueOk(qs, requests, cfg)
    ensures QueueOk(qs, requests + more, cfg)
  {
    hide Build, Size;
    forall i | 0 <= i < |qs|
      ensures QueuedOk(qs[i], requests + more, cfg)
    {
      assert QueuedOk(qs[i], requests, cfg);
      assert (requests + more)[qs[i].id] == requests[qs[i].id];
    }
  }

  lemma IosGrow(ios: seq<Io>, files: seq<File>, buffers: seq<Buffer>, requests: seq<Rec>, more: seq<Rec>, cfg: Config)
    requires IosOk(ios, files, buffers, requests, cfg)
    ensures IosOk(ios, files, buffers, requests + more, cfg)
  {
    hide InFile, EntryOk, Build;
    forall i | 0 <= i < |ios|
      ensures IoOk(ios[i], files, buffers, requests + more, cfg)
    {
      var io := ios[i];
      assert IoOk(io, files, buffers, requests, cfg);
      if io.DirectIo? {
        EntryGrow(io.entry, io.id, io.fileId, io.span, requests, more, cfg);
        EntryId(io.entry, io.id, io.fileId, io.span, requests, cfg);
      }
    }
  }

  lemma EntryId(e: IndexEntry, id: nat, fileId: nat, at: Span, requests: seq<Rec>, cfg: Config)
    requires EntryOk(e, id, fileId, at, requests, cfg)
    ensures id < |requests| && e.key == requests[id].key && e.sequence == requests[id].sequence &&
        Storable(requests[id])
  {
  }

  lemma HomesGrow(s: State, cfg: Config, more: seq<Rec>)
    requires HomesOk(s.homes, s.index, s.files, s.disk, s.requests, cfg)
    ensures HomesOk(s.homes, s.index, s.files, s.disk, s.requests + more, cfg)
  {
    hide InFile, EntryOk, HoldsPages, Build;
    forall key | key in s.homes
      ensures HomeOk(key, s.homes[key], s.index[key], s.files, s.disk, s.requests + more, cfg)
    {
      var h := s.homes[key];
      assert HomeOk(key, h, s.index[key], s.files, s.disk, s.requests, cfg);
      EntryGrow(s.index[key], h.id, h.fileId, h.span, s.requests, more, cfg);
    }
  }

  /** Accepting a request disturbs nothing. */
  lemma AcceptKeeps(s: State, cfg: Config, key: Key, value: seq<Byte>)
    requires WellFormed(s) && Addressed(s, cfg)
    ensures Addressed(Accept(s, key, value), cfg)
  {
    hide FilesOk, HomeOk, QueuedOk, Tiled;
    var r := Accept(s, key, value);
    var more := [r.requests[|s.requests|]];
    assert r.requests == s.requests + more;
    QueueGrow(s.waitQ, s.requests, more, cfg);
    QueueGrow(s.pendQ, s.requests, more, cfg);
    IosGrow(s.ios, s.files, s.m.buffers, s.requests, more, cfg);
    HomesGrow(s, cfg, more);
    forall b | 0 <= b < |s.pend|
      ensures Tiled(s.m.buffers[b].used, s.contents[b], s.pend[b], r.requests, cfg)
    {
      TiledGrow(s.m.buffers[b].used, s.contents[b], s.pend[b], s.requests, more, cfg);
    }
  }

  /** Writes in flight only look at how full their buffers are. */
  lemma BuffersKeepIos(ios: seq<Io>, files: seq<File>, buffers: seq<Buffer>, buffers': seq<Buffer>, requests: seq<Rec>,
                       cfg: Config)
    requires IosOk(ios, files, buffers, requests, cfg) && |buffers| <= |buffers'|
    requires forall i :: 0 <= i < |ios| && ios[i].BufferIo? && ios[i].buffer < |buffers| ==>
               buffers'[ios[i].buffer].used == buffers[ios[i].buffer].used
    ensures IosOk(ios, files, buffers', requests, cfg)
  {
    hide InFile, EntryOk, Build;
    forall i | 0 <= i < |ios|
      ensures IoOk(ios[i], files, buffers', requests, cfg)
    {
      assert IoOk(ios[i], files, buffers, requests, cfg);
    }
  }

  lemma EmptyTiled(content: seq<Byte>, requests: seq<Rec>, cfg: Config)
    ensures Tiled(0, content, [], requests, cfg)
  {
  }

  // ---------------------------------------------------------------------------------------------
  // A put
  // ---------------------------------------------------------------------------------------------

  function UsedBefore(m: Manager, b: nat): nat {
    if b < |m.buffers| then m.buffers[b].used else 0
  }

  /** A reservation takes its bytes behind the used part of the active buffer and changes no other. */
  lemma ReserveEffect(m: Manager, len: nat, memory: bool)
    requires IdsOk(m)
    ensures var (m', at) := BufferRuns.ReserveWithBackpressure(m, len, memory);
      && |m.buffers| <= |m'.buffers|
      && (at.Some? ==> m'.active.Some? && m'.active.value < |m'.buffers|
                       && at.value == UsedBefore(m, m'.active.value) && at.value + len <= FLUSH_THRESHOLD)
      && forall b :: 0 <= b < |m'.buffers| ==>
           m'.buffers[b].used == UsedBefore(m, b) + (if at.Some? && m'.active == Some(b) then len else 0)
  {
    BufferRuns.BackpressureKeepsIds(m, memory);
    CheckEffect(m, memory);
  }

  lemma CheckEffect(m: Manager, memory: bool)
    ensures var m' := CheckBackpressure(m, memory);
      && |m.buffers| <= |m'.buffers|
      && forall b :: 0 <= b < |m'.buffers| ==> m'.buffers[b].used == UsedBefore(m, b)
  {
  }

  lemma NextEnd(used: nat, content: seq<Byte>, pws: seq<PendingWrite>, requests: seq<Rec>, cfg: Config, j: nat)
    requires Tiled(used, content, pws, requests, cfg) && 0 < j <= |pws|
    ensures EndOf(pws, j - 1) <= EndOf(pws, j)
  {
    hide PendingOk;
    assert pws[j - 1].offset == EndOf(pws, j - 1);
  }

  lemma {:induction false} EndsRise(used: nat, content: seq<Byte>, pws: seq<PendingWrite>, requests: seq<Rec>,
                                    cfg: Config, i: nat, j: nat)
    requires Tiled(used, content, pws, requests, cfg) && i <= j <= |pws|
    ensures EndOf(pws, i) <= EndOf(pws, j)
    decreases j
  {
    hide *;
    if i < j {
      EndsRise(used, content, pws, requests, cfg, i, j - 1);
      NextEnd(used, content, pws, requests, cfg, j);
    }
  }

  /** Writing behind what a buffer holds leaves that alone. */
  lemma OverwriteKeeps(memory: seq<Byte>, at: nat, data: seq<Byte>, o: nat, held: seq<Byte>)
    requires HoldsAt(memory, o, held) && o + |held| <= at
    ensures HoldsAt(Overwrite(memory, at, data), o, held)
  {
    var r := Overwrite(memory, at, data);
    assert r[..at] == if at <= |memory| then memory[..at] else memory + Zeros(at - |memory|);
    assert r[o..o + |held|] == r[..at][o..o + |held|];
  }

  lemma OverwriteHolds(memory: seq<Byte>, at: nat, data: seq<Byte>)
    ensures HoldsAt(Overwrite(memory, at, data), at, data)
  {
  }

  /** The next record of a buffer continues the tiling. */
  lemma TiledAppend(used: nat, content: seq<Byte>, pws: seq<PendingWrite>, requests: seq<Rec>, cfg: Config,
                    pw: PendingWrite)
    requires Tiled(used, content, pws, requests, cfg) && pw.id < |requests| && pw.offset == used
    requires PendingOk(pw, Overwrite(content, used, Build(requests[pw.id], cfg.crc)), requests, cfg)
    ensures Tiled(used + Size(requests[pw.id]), Overwrite(content, used, Build(requests[pw.id], cfg.crc)), pws + [pw],
                  requests, cfg)
  {
    hide Build, Size, HoldsAt, Overwrite, PendingOk, EndOf;
    var data := Build(requests[pw.id], cfg.crc);
    var content', pws' := Overwrite(content, used, data), pws + [pw];
    forall i | 0 <= i < |pws'|
      ensures PendingOk(pws'[i], content', requests, cfg) && pws'[i].offset == EndOf(pws', i)
    {
      EndOfPrefix(pws, pw, i);
      if i < |pws| {
        EarlierPendingKept(used, content, pws, requests, cfg, data, i);
      }
    }
    LastEnd(pws, pw, content', requests, cfg);
  }

  lemma EndOfPrefix(pws: seq<PendingWrite>, pw: PendingWrite, i: nat)
    requires i <= |pws|
    ensures EndOf(pws + [pw], i) == EndOf(pws, i)
  {
  }

  lemma LastEnd(pws: seq<PendingWrite>, pw: PendingWrite, content: seq<Byte>, requests: seq<Rec>, cfg: Config)
    requires PendingOk(pw, content, requests, cfg)
    ensures EndOf(pws + [pw], |pws| + 1) == pw.offset + Size(requests[pw.id])
    ensures pw.offset + Size(requests[pw.id]) <= |content|
  {
    hide Build, Size;
  }

  lemma EarlierPendingKept(used: nat, content: seq<Byte>, pws: seq<PendingWrite>, requests: seq<Rec>, cfg: Config,
                           data: seq<Byte>, i: nat)
    requires Tiled(used, content, pws, requests, cfg) && i < |pws|
    ensures PendingOk(pws[i], Overwrite(content, used, data), requests, cfg)
  {
    hide Build, Size, HoldsAt, Overwrite;
    assert PendingOk(pws[i], content, requests, cfg);
    EndsRise(used, content, pws, requests, cfg, i + 1, |pws|);
    OverwriteKeeps(content, used, data, pws[i].offset, Build(requests[pws[i].id], cfg.crc));
  }

  lemma PutKeepsAddressed(s: State, cfg: Config, key: Key, value: seq<Byte>, memory: bool, dma: bool)
    requires Inv(s, cfg) && |value| < TWO32
    ensures Addressed(PutBuffered(s, cfg, key, value, memory, dma), cfg)
  {
    hide Addressed, ManagerInv, BufferRuns.ReserveWithBackpressure, Waiting, Buffered, WithManager;
    var len := SizeFor(|value|);
    if value != [] {
      ReserveShape(s.m, len, memory);
      var (m1, at) := BufferRuns.ReserveWithBackpressure(s.m, len, memory);
      var s1 := WithManager(s, m1);
      WritePathBuffers.ReserveKeepsManager(s, len, memory);
      if at == None {
        ReservedNothing(s, cfg, len, memory);
        if dma {
          AcceptKeeps(s1, cfg, key, value);
          WaitingKeeps(Accept(s1, key, value), cfg, key, value, s1);
        }
      } else {
        var s2 := Buffered(Accept(s1, key, value), cfg, at.value);
        BufferedKeeps(s, cfg, key, value, memory);
        FlushKeeps(s2, cfg);
      }
    }
  }

  lemma FlushKeeps(s: State, cfg: Config)
    requires WellFormed(s) && Addressed(s, cfg)
    ensures Addressed(Flush(s), cfg)
  {
    assert Flush(s).m.buffers == s.m.buffers;
  }

  lemma WaitingKeeps(s: State, cfg: Config, key: Key, value: seq<Byte>, before: State)
    requires WellFormed(before) && s == Accept(before, key, value) && |value| < TWO32
    requires Addressed(s, cfg)
    ensures Addressed(Waiting(s, cfg), cfg)
  {
    hide HomesOk, IosOk, BuffersOk, FilesOk, Build;
    var r := Waiting(s, cfg);
    forall i | 0 <= i < |r.waitQ|
      ensures QueuedOk(r.waitQ[i], s.requests, cfg)
    {
      if i < |s.waitQ| {
        assert r.waitQ[i] == s.waitQ[i];
      }
    }
  }

  lemma ReservedNothing(s: State, cfg: Config, len: nat, memory: bool)
    requires Inv(s, cfg) && BufferRuns.ReserveWithBackpressure(s.m, len, memory).1 == None
    requires IdsOk(BufferRuns.ReserveWithBackpressure(s.m, len, memory).0)
    requires |s.m.buffers| <= |BufferRuns.ReserveWithBackpressure(s.m, len, memory).0.buffers|
    ensures Addressed(WithManager(s, BufferRuns.ReserveWithBackpressure(s.m, len, memory).0), cfg)
  {
    hide FilesOk, HomesOk, QueueOk, BufferRuns.ReserveWithBackpressure, ManagerInv, IosOk, Tiled;
    var m1 := BufferRuns.ReserveWithBackpressure(s.m, len, memory).0;
    var r := WithManager(s, m1);
    ReserveEffect(s.m, len, memory);
    BuffersKeepIos(s.ios, s.files, s.m.buffers, m1.buffers, s.requests, cfg);
    forall b | 0 <= b < |r.pend|
      ensures Tiled(m1.buffers[b].used, r.contents[b], r.pend[b], s.requests, cfg)
    {
      GrownTiled(s, cfg, m1, b);
    }
  }

  /** The buffers of the grown lists are tiled as far as they were used. */
  lemma GrownTiled(s: State, cfg: Config, m: Manager, b: nat)
    requires WellFormed(s) && IdsOk(m) && |s.m.buffers| <= |m.buffers| && b < |m.buffers|
    requires BuffersOk(s.m.buffers, s.contents, s.pend, s.requests, cfg)
    ensures var r := WithManager(s, m); Tiled(UsedBefore(s.m, b), r.contents[b], r.pend[b], s.requests, cfg)
  {
    hide Tiled;
    if b >= |s.pend| {
      EmptyTiled([], s.requests, cfg);
    }
  }

  lemma BufferedKeeps(s: State, cfg: Config, key: Key, value: seq<Byte>, memory: bool)
    requires Inv(s, cfg) && 0 < |value| < TWO32
    requires IdsOk(BufferRuns.ReserveWithBackpressure(s.m, SizeFor(|value|), memory).0)
    requires |s.m.buffers| <= |BufferRuns.ReserveWithBackpressure(s.m, SizeFor(|value|), memory).0.buffers|
    requires BufferRuns.ReserveWithBackpressure(s.m, SizeFor(|value|), memory).1.Some?
    requires ManagerInv(WithManager(s, BufferRuns.ReserveWithBackpressure(s.m, SizeFor(|value|), memory).0), [])
    requires BufferRuns.ReserveWithBackpressure(s.m, SizeFor(|value|), memory).0.active.Some?
    ensures var (m1, at) := BufferRuns.ReserveWithBackpressure(s.m, SizeFor(|value|), memory);
      Addressed(Buffered(Accept(WithManager(s, m1), key, value), cfg, at.value), cfg)
  {
    hide FilesOk, HomeOk, QueuedOk, BufferRuns.ReserveWithBackpressure, ManagerInv, IoOk, Tiled, Build;
    var (m1, at) := BufferRuns.ReserveWithBackpressure(s.m, SizeFor(|value|), memory);
    var s1 := WithManager(s, m1);
    var a := m1.active.value;
    var s2 := Accept(s1, key, value);
    var rec := s2.requests[|s.requests|];
    var r := Buffered(s2, cfg, at.value);
    ReserveEffect(s.m, SizeFor(|value|), memory);
    QueueGrow(s.waitQ, s.requests, [rec], cfg);
    QueueGrow(s.pendQ, s.requests, [rec], cfg);
    HomesGrow(s, cfg, [rec]);
    WritePathBuffers.ActiveElsewhere(s1, []);
    BuffersKeepIos(s.ios, s.files, s.m.buffers, m1.buffers, s.requests, cfg);
    IosGrow(s.ios, s.files, m1.buffers, s.requests, [rec], cfg);
    forall b | 0 <= b < |r.pend|
      ensures Tiled(m1.buffers[b].used, r.contents[b], r.pend[b], r.requests, cfg)
    {
      GrownTiled(s, cfg, m1, b);
      TiledGrow(UsedBefore(s.m, b), s1.contents[b], s1.pend[b], s.requests, [rec], cfg);
      if b == a {
        var pw := r.pend[a][|s1.pend[a]|];
        NewPendingOk(pw, s1.contents[a], rec, r.requests, cfg);
        TiledAppend(at.value, s1.contents[a], s1.pend[a], r.requests, cfg, pw);
      }
    }
  }

  lemma NewPendingOk(pw: PendingWrite, content: seq<Byte>, rec: Rec, requests: seq<Rec>, cfg: Config)
    requires pw.id < |requests| && requests[pw.id] == rec && Storable(rec) && pw.offset + Size(rec) <= FLUSH_THRESHOLD
    requires pw == PendingWrite(pw.id, rec.key, rec.sequence, pw.offset, Size(rec) / PAGE_SIZE % PAGE_COUNTS,
                                cfg.tagOf(rec.key))
    ensures PendingOk(pw, Overwrite(content, pw.offset, Build(rec, cfg.crc)), requests, cfg)
  {
    OverwriteHolds(content, pw.offset, Build(rec, cfg.crc));
    assert Size(rec) % PAGE_SIZE == 0;
    assert Size(rec) / PAGE_SIZE < PAGE_COUNTS;
  }
}
