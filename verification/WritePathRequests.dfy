/** Every accepted request is in exactly one place, and is answered once. */
module WritePathRequests {
  import opened Types
  import opened BufferRules
  import BufferRuns
  import opened WritePath

  // ---------------------------------------------------------------------------------------------
  // Where requests are
  // ---------------------------------------------------------------------------------------------

  function PendingIds(pws: seq<PendingWrite>): (r: seq<nat>)
    ensures |r| == |pws|
  {
    seq(|pws|, i requires 0 <= i < |pws| => pws[i].id)
  }

  function BufferIds(pend: seq<seq<PendingWrite>>): seq<nat> {
    if pend == [] then [] else BufferIds(pend[..|pend| - 1]) + PendingIds(pend[|pend| - 1])
  }

  function QueueIds(qs: seq<Queued>): (r: seq<nat>)
    ensures |r| == |qs|
  {
    seq(|qs|, i requires 0 <= i < |qs| => qs[i].id)
  }

  /** The requests of the writes of single records in flight; those of an append buffer stay in its list. */
  function IoIds(ios: seq<Io>): seq<nat> {
    if ios == [] then [] else
      IoIds(ios[..|ios| - 1]) + (if ios[|ios| - 1].DirectIo? then [ios[|ios| - 1].id] else [])
  }

  function LandingIds(ls: seq<Landing>): (r: seq<nat>)
    ensures |r| == |ls|
  {
    seq(|ls|, i requires 0 <= i < |ls| => ls[i].id)
  }

  function AnswerIds(answers: seq<Answer>): (r: seq<nat>)
    ensures |r| == |answers|
  {
    seq(|answers|, i requires 0 <= i < |answers| => answers[i].id)
  }

  /** In how many places request x is: append buffers, the two queues, single writes in flight, answers. */
  function Places(s: State, x: nat): nat {
    Count(BufferIds(s.pend), x) + Count(QueueIds(s.waitQ), x) + Count(QueueIds(s.pendQ), x) + Count(IoIds(s.ios), x)
      + Count(AnswerIds(s.answers), x)
  }

  /** Each accepted request is in exactly one place, and foreground IOs are counted. */
  ghost predicate Conserved(s: State) {
    && (forall x: nat :: Places(s, x) == if x < |s.requests| then 1 else 0)
    && s.foreground == |s.ios|
  }

  // ---------------------------------------------------------------------------------------------
  // Counting
  // ---------------------------------------------------------------------------------------------

  lemma {:induction false} BufferIdsUpdate(pend: seq<seq<PendingWrite>>, b: nat, l: seq<PendingWrite>, x: nat)
    requires b < |pend|
    ensures Count(BufferIds(pend[b := l]), x) + Count(PendingIds(pend[b]), x)
         == Count(BufferIds(pend), x) + Count(PendingIds(l), x)
    decreases |pend|
  {
    var n := |pend| - 1;
    CountConcat(BufferIds(pend[..n]), PendingIds(pend[n]), x);
    if b == n {
      assert pend[b := l][..n] == pend[..n];
      CountConcat(BufferIds(pend[..n]), PendingIds(l), x);
    } else {
      assert pend[b := l][..n] == pend[..n][b := l];
      BufferIdsUpdate(pend[..n], b, l, x);
      CountConcat(BufferIds(pend[..n][b := l]), PendingIds(pend[n]), x);
    }
  }

  lemma {:induction false} BufferIdsGrow(pend: seq<seq<PendingWrite>>, more: nat)
    ensures BufferIds(pend + seq(more, _ => [])) == BufferIds(pend)
    decreases more
  {
    var grown := pend + seq(more, _ => []);
    if more == 0 {
      assert grown == pend;
    } else {
      BufferIdsGrow(pend, more - 1);
      assert grown[..|grown| - 1] == pend + seq(more - 1, _ => []);
    }
  }

  lemma QueueIdsAppend(a: seq<Queued>, b: seq<Queued>, x: nat)
    ensures Count(QueueIds(a + b), x) == Count(QueueIds(a), x) + Count(QueueIds(b), x)
  {
    assert QueueIds(a + b) == QueueIds(a) + QueueIds(b);
    CountConcat(QueueIds(a), QueueIds(b), x);
  }

  lemma QueueIdsOne(q: Queued, x: nat)
    ensures Count(QueueIds([q]), x) == if q.id == x then 1 else 0
  {
    assert QueueIds([q]) == [q.id];
    CountOne(q.id, x);
  }

  lemma QueueIdsFirst(qs: seq<Queued>, x: nat)
    requires qs != []
    ensures Count(QueueIds(qs), x) == Count(QueueIds(qs[1..]), x) + (if qs[0].id == x then 1 else 0)
  {
    QueueIdsAppend([qs[0]], qs[1..], x);
    QueueIdsOne(qs[0], x);
    assert [qs[0]] + qs[1..] == qs;
  }

  lemma AnswerIdsAppend(a: seq<Answer>, b: seq<Answer>, x: nat)
    ensures Count(AnswerIds(a + b), x) == Count(AnswerIds(a), x) + Count(AnswerIds(b), x)
  {
    assert AnswerIds(a + b) == AnswerIds(a) + AnswerIds(b);
    CountConcat(AnswerIds(a), AnswerIds(b), x);
  }

  lemma IoIdsLast(ios: seq<Io>, io: Io, x: nat)
    ensures Count(IoIds(ios + [io]), x) == Count(IoIds(ios), x) + (if io.DirectIo? && io.id == x then 1 else 0)
  {
    assert (ios + [io])[..|ios|] == ios;
    var last: seq<nat> := if io.DirectIo? then [io.id] else [];
    CountConcat(IoIds(ios), last, x);
    if io.DirectIo? {
      CountOne(io.id, x);
    }
  }

  lemma {:induction false} IoIdsWithout(ios: seq<Io>, i: nat, x: nat)
    requires i < |ios|
    ensures Count(IoIds(ios), x) ==
        Count(IoIds(WithoutIo(ios, i)), x) + (if ios[i].DirectIo? && ios[i].id == x then 1 else 0)
    decreases |ios|
  {
    var n := |ios| - 1;
    assert ios == ios[..n] + [ios[n]];
    IoIdsLast(ios[..n], ios[n], x);
    if i == n {
      assert WithoutIo(ios, i) == ios[..n];
    } else {
      IoIdsWithout(ios[..n], i, x);
      WithoutLast(ios, i);
      IoIdsLast(WithoutIo(ios[..n], i), ios[n], x);
    }
  }

  // ---------------------------------------------------------------------------------------------
  // Steps
  // ---------------------------------------------------------------------------------------------

  /** From s to r no request is gained, lost or copied, and every IO started or ended is counted. */
  ghost predicate Keeps(s: State, r: State) {
    && (forall x: nat :: Places(r, x) == Places(s, x))
    && |r.requests| == |s.requests| && r.foreground - |r.ios| == s.foreground - |s.ios|
  }

  /** From s to r one request is added. */
  ghost predicate Adds(s: State, r: State) {
    && (forall x: nat :: Places(r, x) == Places(s, x) + (if x == |s.requests| then 1 else 0))
    && |r.requests| == |s.requests| + 1 && r.foreground - |r.ios| == s.foreground - |s.ios|
  }

  /** Places that differ in nothing that holds requests. */
  lemma SamePlaces(s: State, r: State)
    requires r.pend == s.pend && r.waitQ == s.waitQ && r.pendQ == s.pendQ && r.ios == s.ios && r.answers == s.answers
    requires r.requests == s.requests && r.foreground == s.foreground
    ensures Keeps(s, r)
  {
  }

  lemma ManagerKeeps(s: State, m: Manager)
    requires WellFormed(s) && IdsOk(m) && |s.m.buffers| <= |m.buffers|
    ensures Keeps(s, WithManager(s, m))
  {
    BufferIdsGrow(s.pend, |m.buffers| - |s.m.buffers|);
  }

  lemma BufferedAdds(s: State, cfg: Config, key: Key, value: seq<u8>, at: nat)
    requires WellFormed(s) && s.m.active.Some?
    ensures Adds(s, Buffered(Accept(s, key, value), cfg, at))
  {
    var s1 := Accept(s, key, value);
    var r := Buffered(s1, cfg, at);
    var b := s.m.active.value;
    forall x: nat
      ensures Places(r, x) == Places(s, x) + (if x == |s.requests| then 1 else 0)
    {
      BufferIdsUpdate(s.pend, b, r.pend[b], x);
      assert PendingIds(r.pend[b]) == PendingIds(s.pend[b]) + [|s.requests|];
      CountConcat(PendingIds(s.pend[b]), [|s.requests|], x);
      CountOne(|s.requests|, x);
    }
  }

  lemma WaitingAdds(s: State, cfg: Config, key: Key, value: seq<u8>)
    requires WellFormed(s)
    ensures Adds(s, Waiting(Accept(s, key, value), cfg))
  {
    var r := Waiting(Accept(s, key, value), cfg);
    forall x: nat
      ensures Places(r, x) == Places(s, x) + (if x == |s.requests| then 1 else 0)
    {
      QueueIdsAppend(s.waitQ, [r.waitQ[|s.waitQ|]], x);
      QueueIdsOne(r.waitQ[|s.waitQ|], x);
    }
  }

  lemma FlushedKeeps(s: State)
    requires WellFormed(s)
    ensures Keeps(s, Flush(s))
  {
    SamePlaces(s, Flush(s));
  }

  lemma KeepsAdds(s: State, t: State, r: State)
    requires Keeps(s, t) && Adds(t, r)
    ensures Adds(s, r)
  {
  }

  lemma AddsKeeps(s: State, t: State, r: State)
    requires Adds(s, t) && Keeps(t, r)
    ensures Adds(s, r)
  {
  }

  lemma PutKeepsOrAdds(s: State, cfg: Config, key: Key, value: seq<u8>, memory: bool, dma: bool)
    requires WellFormed(s)
    ensures Keeps(s, PutBuffered(s, cfg, key, value, memory, dma))
         || Adds(s, PutBuffered(s, cfg, key, value, memory, dma))
  {
    hide Keeps, Adds, BufferRuns.ReserveWithBackpressure, WithManager, Waiting, Buffered, Flush;
    var size := EntryFormat.SizeFor(|value|);
    if value != [] {
      ReserveShape(s.m, size, memory);
      var (m1, at) := BufferRuns.ReserveWithBackpressure(s.m, size, memory);
      var s1 := WithManager(s, m1);
      ManagerKeeps(s, m1);
      if at == None {
        WaitingAdds(s1, cfg, key, value);
        KeepsAdds(s, s1, Waiting(Accept(s1, key, value), cfg));
      } else {
        BufferedAdds(s1, cfg, key, value, at.value);
        var s2 := Buffered(Accept(s1, key, value), cfg, at.value);
        FlushedKeeps(s2);
        KeepsAdds(s, s1, s2);
        AddsKeeps(s, s2, Flush(s2));
      }
    } else {
      SamePlaces(s, s);
    }
  }

  lemma FailBufferKeeps(s: State, b: nat)
    requires WellFormed(s) && b < |s.m.buffers|
    ensures Keeps(s, FailBuffer(s, b))
  {
    var r := FailBuffer(s, b);
    forall x: nat
      ensures Places(r, x) == Places(s, x)
    {
      BufferIdsUpdate(s.pend, b, [], x);
      AnswerIdsAppend(s.answers, Answers(s.pend[b], NoSpace), x);
      assert AnswerIds(Answers(s.pend[b], NoSpace)) == PendingIds(s.pend[b]);
    }
  }

  lemma LaunchBufferKeeps(s: State, b: nat, i: nat)
    requires WellFormed(s) && b < |s.m.buffers| && i < |s.files|
    ensures Keeps(s, LaunchBuffer(s, b, i))
  {
    var r := LaunchBuffer(s, b, i);
    forall x: nat
      ensures Places(r, x) == Places(s, x)
    {
      IoIdsLast(s.ios, r.ios[|s.ios|], x);
    }
  }

  lemma SubmitBufferKeeps(s: State, cfg: Config, b: nat, alloc: bool)
    requires WellFormed(s) && b < |s.m.buffers|
    ensures Keeps(s, SubmitBuffer(s, cfg, b, alloc))
  {
    hide Places;
    SamePlaces(s, s);
    if s.m.buffers[b].used != 0 {
      var s0 := SealActive(s);
      SamePlaces(s, s0);
      if !NeedsFile(s, cfg, s.m.buffers[b].used) {
        LaunchBufferKeeps(s, b, FileAt(s.files, s.activeId).value);
      } else if !alloc {
        FailBufferKeeps(s0, b);
      } else {
        var s1 := AddFile(s0, true).(activeId := s.nextFileId);
        SamePlaces(s, s1);
        LaunchBufferKeeps(s1, b, |s.files|);
      }
    }
  }

  lemma {:induction false} SubmitToKeeps(s: State, cfg: Config, batch: seq<nat>, allocs: seq<bool>, n: nat)
    requires WellFormed(s) && n <= |batch| && forall i :: 0 <= i < |batch| ==> batch[i] < |s.m.buffers|
    ensures Keeps(s, SubmitTo(s, cfg, batch, allocs, n))
    decreases n
  {
    hide Places, SubmitBuffer, WellFormed;
    if n == 0 {
      SamePlaces(s, s);
    } else {
      SubmitToKeeps(s, cfg, batch, allocs, n - 1);
      SubmitBufferKeeps(SubmitTo(s, cfg, batch, allocs, n - 1), cfg, batch[n - 1], n <= |allocs| && allocs[n - 1]);
    }
  }

  /** Landing answers the requests landed. */
  lemma {:induction false} LandToAnswers(s: State, ls: seq<Landing>, ok: bool, n: nat, x: nat)
    requires WellFormed(s) && n <= |ls|
    ensures var r := LandTo(s, ls, ok, n);
      && Count(AnswerIds(r.answers), x) == Count(AnswerIds(s.answers), x) + Count(LandingIds(ls[..n]), x)
      && r.pend == s.pend && r.waitQ == s.waitQ && r.pendQ == s.pendQ && r.ios == s.ios
      && r.requests == s.requests && r.foreground == s.foreground
    decreases n
  {
    hide WellFormed, Count;
    if n == 0 {
      assert ls[..0] == [] && LandingIds([]) == [];
      CountNone(x);
    } else {
      LandToAnswers(s, ls, ok, n - 1, x);
      LandingIdsOneMore(ls, n, x);
      AnswerIdsOneMore(LandTo(s, ls, ok, n - 1).answers, ls[n - 1].id, if ok then Success else IoError, x);
      hide AnswerIds, LandingIds;
    }
  }

  lemma LandingIdsOneMore(ls: seq<Landing>, n: nat, x: nat)
    requires 0 < n <= |ls|
    ensures Count(LandingIds(ls[..n]), x) == Count(LandingIds(ls[..n - 1]), x) + Count([ls[n - 1].id], x)
  {
    assert LandingIds(ls[..n]) == LandingIds(ls[..n - 1]) + [ls[n - 1].id];
    CountConcat(LandingIds(ls[..n - 1]), [ls[n - 1].id], x);
  }

  lemma AnswerIdsOneMore(answers: seq<Answer>, id: nat, status: Status, x: nat)
    ensures Count(AnswerIds(answers + [Answer(id, status)]), x) == Count(AnswerIds(answers), x) + Count([id], x)
  {
    AnswerIdsAppend(answers, [Answer(id, status)], x);
    assert AnswerIds([Answer(id, status)]) == [id];
  }

  lemma CompleteKeeps(s: State, cfg: Config, i: nat, ok: bool, junk: Disk)
    requires WellFormed(s) && i < |s.ios| && (ok ==> CanSucceed(s, cfg, i))
    ensures Keeps(s, Complete(s, cfg, i, ok, junk))
  {
    hide WriteTo, Scribble, LandTo, LandingIds;
    var ls, s1 := LandingsOf(s, s.ios[i]), Detach(s, cfg, i, ok, junk);
    var r := Complete(s, cfg, i, ok, junk);
    assert ls[..|ls|] == ls;
    forall x: nat
      ensures Places(r, x) == Places(s, x)
    {
      DetachedPlaces(s, cfg, i, ok, junk, x);
      LandToAnswers(s1, ls, ok, |ls|, x);
    }
    LandToAnswers(s1, ls, ok, |ls|, 0);
  }

  /** The requests of a write that leaves the flight are those to be landed. */
  lemma DetachedPlaces(s: State, cfg: Config, i: nat, ok: bool, junk: Disk, x: nat)
    requires WellFormed(s) && i < |s.ios| && (ok ==> CanSucceed(s, cfg, i))
    ensures Places(Detach(s, cfg, i, ok, junk), x) + Count(LandingIds(LandingsOf(s, s.ios[i])), x) == Places(s, x)
  {
    hide WriteTo, Scribble, Count;
    var io, ls := s.ios[i], LandingsOf(s, s.ios[i]);
    IoIdsWithout(s.ios, i, x);
    if io.BufferIo? {
      BufferIdsUpdate(s.pend, io.buffer, [], x);
      CountNone(x);
      assert LandingIds(ls) == PendingIds(s.pend[io.buffer]);
    } else {
      assert LandingIds(ls) == [io.id];
      CountOne(io.id, x);
    }
  }

  lemma CountNone(x: nat)
    ensures Count([], x) == 0 && PendingIds([]) == []
  {
  }

  lemma LaunchDirectMoves(s: State, q: Queued, i: nat, x: nat)
    requires WellFormed(s) && i < |s.files|
    ensures Places(LaunchDirect(s, q, i), x) == Places(s, x) + (if q.id == x then 1 else 0)
  {
    IoIdsLast(s.ios, LaunchDirect(s, q, i).ios[|s.ios|], x);
  }

  lemma AwaitFileMoves(s: State, q: Queued, x: nat)
    requires WellFormed(s)
    ensures Places(AwaitFile(s, q), x) == Places(s, x) + (if q.id == x then 1 else 0)
    ensures AwaitFile(s, q).ios == s.ios && AwaitFile(s, q).foreground == s.foreground
    ensures AwaitFile(s, q).requests == s.requests && AwaitFile(s, q).waitQ == s.waitQ
  {
    QueueIdsAppend(s.pendQ, [q], x);
    QueueIdsOne(q, x);
  }

  /** The first of the wait queue goes on. */
  function DrainOne(s: State, cfg: Config): (r: State)
    requires WellFormed(s) && s.waitQ != []
    ensures WellFormed(r) && r.waitQ == s.waitQ[1..]
  {
    var q, s1 := s.waitQ[0], s.(waitQ := s.waitQ[1..]);
    if NeedsFile(s1, cfg, q.size) || s1.allocating.Some? then AwaitFile(s1, q)
    else LaunchDirect(s1, q, FileAt(s1.files, s1.activeId).value)
  }

  lemma DrainUnfolds(s: State, cfg: Config)
    requires WellFormed(s)
    ensures Drain(s, cfg) == if s.waitQ == [] then s else Drain(DrainOne(s, cfg), cfg)
  {
  }

  lemma DrainOneKeeps(s: State, cfg: Config)
    requires WellFormed(s) && s.waitQ != []
    ensures Keeps(s, DrainOne(s, cfg))
  {
    hide Count, FileAt, AwaitFile, LaunchDirect, IoIds, QueueIds, BufferIds, AnswerIds;
    var q, s1 := s.waitQ[0], s.(waitQ := s.waitQ[1..]);
    forall x: nat
      ensures Places(DrainOne(s, cfg), x) == Places(s, x)
    {
      QueueIdsFirst(s.waitQ, x);
      if NeedsFile(s1, cfg, q.size) || s1.allocating.Some? {
        AwaitFileMoves(s1, q, x);
      } else {
        LaunchDirectMoves(s1, q, FileAt(s1.files, s1.activeId).value, x);
      }
    }
    DrainOneCounts(s, cfg);
  }

  lemma DrainOneCounts(s: State, cfg: Config)
    requires WellFormed(s) && s.waitQ != []
    ensures var r := DrainOne(s, cfg);
      |r.requests| == |s.requests| && r.foreground - |r.ios| == s.foreground - |s.ios|
  {
    hide FileAt, AwaitFile;
    AwaitFileMoves(s.(waitQ := s.waitQ[1..]), s.waitQ[0], 0);
  }

  lemma {:induction false} DrainKeeps(s: State, cfg: Config)
    requires WellFormed(s)
    ensures Keeps(s, Drain(s, cfg))
    decreases |s.waitQ|
  {
    hide Places, Drain, WellFormed;
    DrainUnfolds(s, cfg);
    if s.waitQ == [] {
      SamePlaces(s, s);
    } else {
      DrainOneKeeps(s, cfg);
      DrainKeeps(DrainOne(s, cfg), cfg);
    }
  }

  lemma {:induction false} LaunchToMoves(s: State, qs: seq<Queued>, i: nat, n: nat, x: nat)
    requires WellFormed(s) && i < |s.files| && n <= |qs|
    ensures var r := LaunchTo(s, qs, i, n);
      && Places(r, x) == Places(s, x) + Count(QueueIds(qs[..n]), x)
      && r.requests == s.requests && r.foreground - |r.ios| == s.foreground - |s.ios|
    decreases n
  {
    hide Places, WellFormed;
    if n == 0 {
      assert QueueIds(qs[..0]) == [];
    } else {
      LaunchToMoves(s, qs, i, n - 1, x);
      LaunchDirectMoves(LaunchTo(s, qs, i, n - 1), qs[n - 1], i, x);
      assert qs[..n] == qs[..n - 1] + [qs[n - 1]];
      QueueIdsAppend(qs[..n - 1], [qs[n - 1]], x);
      QueueIdsOne(qs[n - 1], x);
    }
  }

  lemma QueueAnswered(s: State, status: Status)
    requires WellFormed(s)
    ensures Keeps(s, s.(answers := s.answers + QueueAnswers(s.pendQ, status), pendQ := []))
  {
    forall x: nat
      ensures Places(s.(answers := s.answers + QueueAnswers(s.pendQ, status), pendQ := []), x) == Places(s, x)
    {
      AnswerIdsAppend(s.answers, QueueAnswers(s.pendQ, status), x);
      assert AnswerIds(QueueAnswers(s.pendQ, status)) == QueueIds(s.pendQ);
    }
  }

  lemma FlushQueueKeeps(s: State)
    requires WellFormed(s)
    ensures Keeps(s, FlushQueue(s))
  {
    QueueAnswered(s, InternalError);
    var at := FileAt(s.files, s.activeId);
    if at.Some? && s.files[at.value].isOpen {
      var s1 := s.(pendQ := []);
      assert s.pendQ[..|s.pendQ|] == s.pendQ;
      forall x: nat
        ensures Places(FlushQueue(s), x) == Places(s, x)
      {
        LaunchToMoves(s1, s.pendQ, at.value, |s.pendQ|, x);
      }
      LaunchToMoves(s1, s.pendQ, at.value, |s.pendQ|, 0);
    }
  }

  lemma AllocatedKeeps(s: State, ok: bool)
    requires WellFormed(s) && s.allocating.Some? && s.nextFileId > 0
    ensures Keeps(s, if ok then AllocationDone(s) else AllocationFailed(s))
  {
    hide Places;
    var at := s.allocating.value;
    if ok {
      var s1 := s.(allocating := None, files := s.files[at := s.files[at].(isOpen := true)],
                   activeId := s.files[|s.files| - 1].id);
      SamePlaces(s, s1);
      FlushQueueKeeps(s1);
    } else {
      var s1 := s.(allocating := None, files := s.files[..|s.files| - 1], nextFileId := s.nextFileId - 1);
      SamePlaces(s, s1);
      QueueAnswered(s1, NoSpace);
    }
  }

  /** Every event keeps every accepted request in exactly one place and the foreground IOs counted. */
  lemma StepKeepsConserved(s: State, cfg: Config, e: Event)
    requires WellFormed(s) && Enabled(s, cfg, e) && Conserved(s)
    ensures Conserved(Step(s, cfg, e))
  {
    hide Places, WellFormed;
    match e
    case Putting(key, value, memory, dma) => PutKeepsOrAdds(s, cfg, key, value, memory, dma);
    case Flushing => SamePlaces(s, Flush(s));
    case SubmittingPending(allocs) => SubmitPendingKeeps(s, cfg, allocs);
    case Completing(i, ok, junk) => CompleteKeeps(s, cfg, i, ok, junk);
    case ProcessingWaitQueue => WaitQueueKeeps(s, cfg);
    case Allocated(ok) => AllocatedKeeps(s, ok);
  }

  lemma SubmitPendingKeeps(s: State, cfg: Config, allocs: seq<bool>)
    requires WellFormed(s)
    ensures Keeps(s, SubmitPending(s, cfg, allocs))
  {
    hide Places;
    var (m1, batch) := TakePending(s.m, MAX_BATCH);
    SamePlaces(s, s.(m := m1));
    SubmitToKeeps(s.(m := m1), cfg, batch, allocs, |batch|);
  }

  lemma WaitQueueKeeps(s: State, cfg: Config)
    requires WellFormed(s)
    ensures Keeps(s, ProcessWaitQueue(s, cfg))
  {
    hide Places;
    SamePlaces(s, s);
    DrainKeeps(s, cfg);
  }
}
