/** No request is stuck: from every state that is reached there are events after which all requests are answered. */
module WritePathProgress {
  import opened Types
  import opened Bytes
  import EntryFormat
  import opened BufferRules
  import BufferRuns
  import opened WritePath
  import opened WritePathInvariant
  import opened WritePathRuns
  import opened WritePathRequests
  import opened WritePathResults
  import opened WritePathLoss
  import opened WritePathAnswers
  import opened WritePathLimits
  import opened WritePathBackpressure

  // ---------------------------------------------------------------------------------------------
  // Free buffers are empty
  // ---------------------------------------------------------------------------------------------

  ghost predicate FreeEmpty(m: Manager) {
    && m.resetQueue == []
    && (forall b :: 0 <= b < |m.buffers| ==> m.buffers[b].CanReset())
    && (forall i :: 0 <= i < |m.completeRing| ==>
          m.completeRing[i] < |m.buffers| && m.buffers[m.completeRing[i]].used == 0)
  }

  /** Nothing is in the buffer being filled, if there is one. */
  predicate ActiveEmpty(m: Manager) {
    m.active.Some? ==> m.active.value < |m.buffers| && m.buffers[m.active.value].used == 0
  }

  lemma ActivateKeepsFree(m: Manager)
    requires FreeEmpty(m)
    ensures FreeEmpty(Activate(m)) && (ActiveEmpty(m) ==> ActiveEmpty(Activate(m)))
    ensures Activate(m).submitRing == m.submitRing && |Activate(m).buffers| == |m.buffers|
  {
  }

  lemma SubmitEmptiesActive(m: Manager)
    requires IdsOk(m) && FreeEmpty(m)
    ensures FreeEmpty(SubmitCurrent(m)) && ActiveEmpty(SubmitCurrent(m))
  {
    if m.active.Some? && m.buffers[m.active.value].used > 0 {
      ActivateKeepsFree(m.(active := None, submitRing := Put(m.submitRing, m.active.value)));
    }
  }

  lemma ReturnKeepsFree(m: Manager, b: nat)
    requires FreeEmpty(m) && b < |m.buffers|
    ensures FreeEmpty(ReturnBuffer(m, b)) && (ActiveEmpty(m) ==> ActiveEmpty(ReturnBuffer(m, b)))
    ensures ReturnBuffer(m, b).submitRing == m.submitRing
  {
    var m' := Freed(m, b);
    assert FreeEmpty(m') && (ActiveEmpty(m) ==> ActiveEmpty(m'));
    ActivateKeepsFree(m');
  }

  lemma CheckKeepsFree(m: Manager, memory: bool)
    requires FreeEmpty(m)
    ensures FreeEmpty(CheckBackpressure(m, memory))
    ensures CheckBackpressure(m, memory).active == m.active || CheckBackpressure(m, memory) == TryExpand(m, memory).0
      .(backpressure := false)
  {
    if |m.buffers| < MAX_BUFFERS && memory {
      var more := m.(buffers := m.buffers + [NewBuffer(m.bufferSize)],
                     completeRing := Put(m.completeRing, |m.buffers|));
      assert FreeEmpty(more);
      ActivateKeepsFree(more);
    }
  }

  /** The buffer being filled is not among the free ones. */
  lemma ActiveIsNotFree(m: Manager, out: seq<nat>)
    requires Partition(m, out) && m.active.Some?
    ensures forall i :: 0 <= i < |m.completeRing| ==> m.completeRing[i] != m.active.value
  {
    var a := m.active.value;
    assert PlaceCount(m, out, a) <= 1;
    assert Count(m.completeRing, a) == 0;
    forall i | 0 <= i < |m.completeRing|
      ensures m.completeRing[i] != a
    {
      if m.completeRing[i] == a {
        CountMember(m.completeRing, i);
      }
    }
  }

  lemma ReserveKeepsFree(m: Manager, out: seq<nat>, len: nat)
    requires IdsOk(m) && FreeEmpty(m) && Partition(m, out)
    ensures FreeEmpty(Reserve(m, len).0)
  {
    if m.active.Some? {
      ActiveIsNotFree(m, out);
    }
  }

  lemma PutReservesFree(m: Manager, out: seq<nat>, len: nat, memory: bool)
    requires IdsOk(m) && FreeEmpty(m) && BufferRuns.ManagerOk(m, out)
    ensures FreeEmpty(BufferRuns.ReserveWithBackpressure(m, len, memory).0)
  {
    CheckKeepsFree(m, memory);
    BufferRuns.BackpressureKeepsOk(m, out, memory);
    var m1 := CheckBackpressure(m, memory);
    hide CheckBackpressure, FreeEmpty;
    if !m1.backpressure {
      ReserveKeepsFree(m1, out, len);
    }
  }

  // ---------------------------------------------------------------------------------------------
  // Every event keeps this
  // ---------------------------------------------------------------------------------------------

  /** Free buffers are empty, and requests wait for a file only while one is being allocated. */
  ghost predicate Lively(s: State) {
    FreeEmpty(s.m) && (s.pendQ != [] ==> s.allocating.Some?)
  }

  lemma InBufferKeepsLively(s: State, cfg: Config, key: Key, value: seq<Byte>, at: nat)
    requires WellFormed(s) && s.m.active.Some? && Lively(s)
    ensures Lively(PutInBuffer(s, cfg, key, value, at))
  {
    hide EntryFormat.Build, EntryFormat.Size, Overwrite, SubmitCurrent, FreeEmpty;
    SubmitEmptiesActive(s.m);
    assert Buffered(Accept(s, key, value), cfg, at).m == s.m;
  }

  lemma AsideKeepsLively(s: State, cfg: Config, key: Key, value: seq<Byte>, dma: bool)
    requires WellFormed(s) && Lively(s)
    ensures Lively(PutAside(s, cfg, key, value, dma))
  {
    hide EntryFormat.Build, EntryFormat.Size, FreeEmpty;
  }

  lemma PutKeepsLively(s: State, cfg: Config, key: Key, value: seq<Byte>, memory: bool, dma: bool)
    requires Inv(s, cfg) && Lively(s)
    ensures Lively(PutBuffered(s, cfg, key, value, memory, dma))
  {
    if value != [] {
      var size := EntryFormat.SizeFor(|value|);
      ReserveShape(s.m, size, memory);
      PutReservesFree(s.m, InFlight(s.ios) + [], size, memory);
      var (m1, at) := BufferRuns.ReserveWithBackpressure(s.m, size, memory);
      var s1 := WithManager(s, m1);
      if at == None {
        AsideKeepsLively(s1, cfg, key, value, dma);
      } else {
        InBufferKeepsLively(s1, cfg, key, value, at.value);
      }
      hide BufferRuns.ReserveWithBackpressure, FreeEmpty, EntryFormat.SizeFor, PutAside, PutInBuffer, ManagerInv,
        Addressed;
    }
  }

  lemma SubmitBufferKeepsLively(s: State, cfg: Config, b: nat, alloc: bool)
    requires WellFormed(s) && b < |s.m.buffers| && Lively(s)
    ensures var r := SubmitBuffer(s, cfg, b, alloc);
      && Lively(r) && (ActiveEmpty(s.m) ==> ActiveEmpty(r.m)) && r.m.submitRing == s.m.submitRing
      && r.waitQ == s.waitQ
  {
    ReturnKeepsFree(s.m, b);
    SealFrame(s);
    hide NeedsFile, FileAt, ReturnBuffer, FreeEmpty, ActiveEmpty;
  }

  lemma {:induction false} SubmitToKeepsLively(s: State, cfg: Config, batch: seq<nat>, allocs: seq<bool>, n: nat)
    requires WellFormed(s) && n <= |batch| && Lively(s)
    requires forall i :: 0 <= i < |batch| ==> batch[i] < |s.m.buffers|
    ensures var r := SubmitTo(s, cfg, batch, allocs, n);
      && Lively(r) && (ActiveEmpty(s.m) ==> ActiveEmpty(r.m)) && r.m.submitRing == s.m.submitRing
      && r.waitQ == s.waitQ
    decreases n
  {
    hide SubmitBuffer, WellFormed, Lively, ActiveEmpty;
    if n > 0 {
      SubmitToKeepsLively(s, cfg, batch, allocs, n - 1);
      SubmitBufferKeepsLively(SubmitTo(s, cfg, batch, allocs, n - 1), cfg, batch[n - 1],
                              n <= |allocs| && allocs[n - 1]);
    }
  }

  lemma SubmitPendingKeepsLively(s: State, cfg: Config, allocs: seq<bool>)
    requires WellFormed(s) && Lively(s)
    ensures var r := SubmitPending(s, cfg, allocs);
      && Lively(r) && (ActiveEmpty(s.m) ==> ActiveEmpty(r.m)) && r.waitQ == s.waitQ
      && (|s.m.submitRing| <= 16 ==> r.m.submitRing == [])
  {
    var (m1, batch) := TakePending(s.m, MAX_BATCH);
    SubmitToKeepsLively(s.(m := m1), cfg, batch, allocs, |batch|);
    hide SubmitTo;
  }

  lemma {:induction false} LandToFrame(s: State, ls: seq<Landing>, ok: bool, n: nat)
    requires WellFormed(s) && n <= |ls|
    ensures var r := LandTo(s, ls, ok, n); r == s.(index := r.index, homes := r.homes, answers := r.answers)
    decreases n
  {
    hide WellFormed;
    if n > 0 {
      LandToFrame(s, ls, ok, n - 1);
    }
  }

  /** A completion shortens the list of writes in flight, and fills nothing. */
  lemma CompleteKeepsLively(s: State, cfg: Config, i: nat, ok: bool, junk: Disk)
    requires WellFormed(s) && i < |s.ios| && (ok ==> CanSucceed(s, cfg, i)) && Lively(s)
    ensures var r := Complete(s, cfg, i, ok, junk);
      && Lively(r) && (ActiveEmpty(s.m) ==> ActiveEmpty(r.m)) && r.m.submitRing == s.m.submitRing
      && |r.ios| == |s.ios| - 1 && r.waitQ == s.waitQ && r.pendQ == s.pendQ && r.requests == s.requests
  {
    var ls := LandingsOf(s, s.ios[i]);
    LandToFrame(Detach(s, cfg, i, ok, junk), ls, ok, |ls|);
    if s.ios[i].BufferIo? {
      ReturnKeepsFree(s.m, s.ios[i].buffer);
    }
    hide LandTo, LandingsOf, WriteTo, Scribble, CanSucceed, ReturnBuffer, FreeEmpty, ActiveEmpty;
  }

  lemma {:induction false} DrainKeepsLively(s: State, cfg: Config)
    requires WellFormed(s) && Lively(s)
    ensures Lively(Drain(s, cfg))
    decreases |s.waitQ|
  {
    DrainUnfolds(s, cfg);
    hide Drain, FileAt, FreeEmpty, NeedsFile;
    if s.waitQ != [] {
      SealFrame(s.(waitQ := s.waitQ[1..], pendQ := s.pendQ + [s.waitQ[0]]));
      DrainKeepsLively(DrainOne(s, cfg), cfg);
    }
  }

  lemma AllocatedKeepsLively(s: State, cfg: Config, ok: bool)
    requires WellFormed(s) && Enabled(s, cfg, Allocated(ok)) && Lively(s)
    ensures var r := Step(s, cfg, Allocated(ok));
      Lively(r) && r.m == s.m && r.waitQ == s.waitQ && r.pendQ == [] && r.requests == s.requests
  {
    AllocationAnswers(s, cfg, ok);
    AllocatedFrame(s, cfg, ok);
    hide FileAt, LaunchTo, Step, FreeEmpty;
  }

  lemma AllocatedFrame(s: State, cfg: Config, ok: bool)
    requires WellFormed(s) && Enabled(s, cfg, Allocated(ok))
    ensures var r := Step(s, cfg, Allocated(ok)); r.m == s.m && r.waitQ == s.waitQ && r.requests == s.requests
  {
    hide FileAt, LaunchTo;
    if ok {
      var at := s.allocating.value;
      var s1 := s.(allocating := None, files := s.files[at := s.files[at].(isOpen := true)],
                   activeId := s.files[|s.files| - 1].id);
      var a := FileAt(s1.files, s1.activeId);
      if a.Some? && s1.files[a.value].isOpen {
        LaunchToHolds(s1.(pendQ := []), s1.pendQ, a.value, |s1.pendQ|);
        LaunchToKeepsRequests(s1.(pendQ := []), s1.pendQ, a.value, |s1.pendQ|);
      }
    }
  }

  lemma {:induction false} LaunchToKeepsRequests(s: State, qs: seq<Queued>, i: nat, n: nat)
    requires WellFormed(s) && i < |s.files| && n <= |qs|
    ensures LaunchTo(s, qs, i, n).requests == s.requests
    decreases n
  {
    hide WellFormed;
    if n > 0 {
      LaunchToKeepsRequests(s, qs, i, n - 1);
    }
  }

  lemma StepKeepsLively(s: State, cfg: Config, e: Event)
    requires Inv(s, cfg) && Enabled(s, cfg, e) && Lively(s)
    ensures Lively(Step(s, cfg, e))
  {
    hide ManagerInv, Addressed, PutBuffered, SubmitPending, Complete, Drain, AllocationDone, AllocationFailed,
      FreeEmpty;
    match e
    case Putting(key, value, memory, dma) => PutKeepsLively(s, cfg, key, value, memory, dma);
    case Flushing => SubmitEmptiesActive(s.m);
    case SubmittingPending(allocs) => SubmitPendingKeepsLively(s, cfg, allocs);
    case Completing(i, ok, junk) => CompleteKeepsLively(s, cfg, i, ok, junk);
    case ProcessingWaitQueue => DrainKeepsLively(s, cfg);
    case Allocated(ok) => AllocatedKeepsLively(s, cfg, ok);
  }

  lemma {:induction false} RunKeepsLively(s: State, cfg: Config, es: seq<Event>)
    requires Inv(s, cfg) && Lively(s) && Runs(s, cfg, es) && SafeRun(s, cfg, es)
    ensures Lively(After(s, cfg, es)) && Inv(After(s, cfg, es), cfg)
    decreases |es|
  {
    hide ManagerInv, Addressed, WellFormed, Step, Enabled, Safe, Lively;
    if es != [] {
      StepKeepsInv(s, cfg, es[0]);
      StepKeepsLively(s, cfg, es[0]);
      RunKeepsLively(Step(s, cfg, es[0]), cfg, es[1..]);
    }
  }

  // ---------------------------------------------------------------------------------------------
  // A state in which everything is answered
  // ---------------------------------------------------------------------------------------------

  /** Nothing waits, or lies in a buffer that is not being written. */
  predicate Settling(s: State) {
    s.waitQ == [] && s.pendQ == [] && s.m.submitRing == [] && ActiveEmpty(s.m)
  }

  /** Nothing is in flight either. */
  predicate Quiet(s: State) {
    s.ios == [] && Settling(s)
  }

  predicate HasAnswer(s: State, id: nat) {
    exists a :: 0 <= a < |s.answers| && s.answers[a].id == id
  }

  /** Every accepted request has its answer. */
  ghost predicate AllAnswered(s: State) {
    forall id: nat :: id < |s.requests| ==> HasAnswer(s, id)
  }

  lemma {:induction false} CountFinds(q: seq<nat>, x: nat)
    requires Count(q, x) > 0
    ensures exists i :: 0 <= i < |q| && q[i] == x
  {
    if q[|q| - 1] != x {
      CountFinds(q[..|q| - 1], x);
      var i :| 0 <= i < |q| - 1 && q[..|q| - 1][i] == x;
      assert q[i] == x;
    }
  }

  lemma QuietBuffersEmpty(s: State, b: nat)
    requires WellFormed(s) && ManagerInv(s, []) && FreeEmpty(s.m) && Quiet(s) && b < |s.m.buffers|
    ensures s.m.buffers[b].used == 0
  {
    var out := InFlight(s.ios) + [];
    assert out == [];
    assert PlaceCount(s.m, out, b) == 1;
    if s.m.active != Some(b) {
      CountFinds(s.m.completeRing, b);
    }
  }

  lemma EmptyBufferHasNoList(s: State, cfg: Config, b: nat)
    requires Inv(s, cfg) && b < |s.m.buffers| && s.m.buffers[b].used == 0
    ensures b < |s.pend| && s.pend[b] == []
  {
    hide ManagerInv, FilesOk, QueueOk, IosOk, HomesOk, Undisturbed, PendingOk;
    var pws := s.pend[b];
    assert Tiled(s.m.buffers[b].used, s.contents[b], pws, s.requests, cfg);
    if pws != [] {
      PagesPositive(pws[|pws| - 1], s.contents[b], s.requests, cfg);
    }
  }

  lemma PagesPositive(pw: PendingWrite, content: seq<Byte>, requests: seq<EntryFormat.Rec>, cfg: Config)
    requires PendingOk(pw, content, requests, cfg)
    ensures pw.pages > 0
  {
    hide EntryFormat.Build, EntryFormat.HoldsAt;
  }

  lemma {:induction false} NoLists(pend: seq<seq<PendingWrite>>)
    requires forall b :: 0 <= b < |pend| ==> pend[b] == []
    ensures BufferIds(pend) == []
  {
    if pend != [] {
      NoLists(pend[..|pend| - 1]);
    }
  }

  lemma QuietHasAnswer(s: State, cfg: Config, id: nat)
    requires Inv(s, cfg) && Conserved(s) && Lively(s) && Quiet(s) && id < |s.requests|
    ensures HasAnswer(s, id)
  {
    forall b | 0 <= b < |s.pend|
      ensures s.pend[b] == []
    {
      QuietBuffersEmpty(s, b);
      EmptyBufferHasNoList(s, cfg, b);
    }
    NoLists(s.pend);
    hide ManagerInv, Addressed, Lively;
    assert Places(s, id) == 1;
    CountFinds(AnswerIds(s.answers), id);
  }

  /** In a quiet state nobody waits for an answer. */
  lemma QuietIsAnswered(s: State, cfg: Config)
    requires Inv(s, cfg) && Conserved(s) && Lively(s) && Quiet(s)
    ensures AllAnswered(s)
  {
    hide Inv, Conserved, Lively, Quiet, HasAnswer;
    forall id: nat | id < |s.requests|
      ensures HasAnswer(s, id)
    {
      QuietHasAnswer(s, cfg, id);
    }
  }

  // ---------------------------------------------------------------------------------------------
  // Getting there
  // ---------------------------------------------------------------------------------------------

  /** What the states on the way have in common. */
  ghost predicate OnTheWay(s: State, cfg: Config) {
    Inv(s, cfg) && Conserved(s) && Lively(s)
  }

  lemma WayParts(s: State, cfg: Config)
    requires OnTheWay(s, cfg)
    ensures WellFormed(s) && Inv(s, cfg) && Conserved(s) && Lively(s)
  {
  }

  lemma StepStays(s: State, cfg: Config, e: Event)
    requires OnTheWay(s, cfg) && WellFormed(s) && Enabled(s, cfg, e) && (e.Allocated? ==> e.ok)
    ensures OnTheWay(Step(s, cfg, e), cfg)
  {
    hide ManagerInv, Addressed, WellFormed, Step, Enabled, Conserved, Lively;
    StepKeepsInv(s, cfg, e);
    StepKeepsConserved(s, cfg, e);
    StepKeepsLively(s, cfg, e);
  }

  predicate NoPut(es: seq<Event>) {
    forall i :: 0 <= i < |es| ==> !es[i].Putting?
  }

  lemma FailureIs(s: State, cfg: Config)
    requires WellFormed(s) && s.ios != []
    ensures Enabled(s, cfg, Completing(0, false, map[]))
    ensures Step(s, cfg, Completing(0, false, map[])) == Complete(s, cfg, 0, false, map[])
  {
    hide Complete, WellFormed;
  }

  lemma FailureSettles(s: State, cfg: Config)
    requires WellFormed(s) && s.ios != [] && Lively(s) && Settling(s)
    ensures var r := Complete(s, cfg, 0, false, map[]);
      Settling(r) && |r.ios| == |s.ios| - 1 && r.requests == s.requests
  {
    CompleteKeepsLively(s, cfg, 0, false, map[]);
    hide Complete, WellFormed, ActiveEmpty, Lively;
  }

  lemma SettleStep(s: State, cfg: Config)
    requires OnTheWay(s, cfg) && Settling(s) && s.ios != []
    ensures WellFormed(s) && Enabled(s, cfg, Completing(0, false, map[]))
    ensures var r := Step(s, cfg, Completing(0, false, map[]));
      OnTheWay(r, cfg) && Settling(r) && |r.ios| == |s.ios| - 1 && r.requests == s.requests
  {
    hide *;
    WayParts(s, cfg);
    FailureIs(s, cfg);
    StepStays(s, cfg, Completing(0, false, map[]));
    FailureSettles(s, cfg);
  }

  lemma NoneInFlight(s: State, cfg: Config)
    requires OnTheWay(s, cfg) && Settling(s) && s.ios == []
    ensures WellFormed(s) && Quiet(s)
  {
  }

  /** All writes in flight come back, here with an error. */
  lemma {:induction false} Settle(s: State, cfg: Config) returns (es: seq<Event>)
    requires OnTheWay(s, cfg) && Settling(s)
    ensures WellFormed(s) && Runs(s, cfg, es) && NoPut(es)
    ensures var r := After(s, cfg, es); OnTheWay(r, cfg) && Quiet(r) && r.requests == s.requests
    decreases |s.ios|
  {
    hide *;
    if s.ios == [] {
      NoneInFlight(s, cfg);
      NoEvents(s, cfg);
      es := Nothing();
    } else {
      SettleStep(s, cfg);
      var rest := Settle(Step(s, cfg, Completing(0, false, map[])), cfg);
      RunsOn(s, cfg, Completing(0, false, map[]), rest);
      es := Before(Completing(0, false, map[]), rest);
    }
  }

  lemma Nothing() returns (es: seq<Event>)
    ensures es == [] && NoPut(es)
  {
    es := [];
  }

  lemma Before(e: Event, rest: seq<Event>) returns (es: seq<Event>)
    requires !e.Putting? && NoPut(rest)
    ensures es == [e] + rest && NoPut(es)
  {
    es := [e] + rest;
  }

  lemma FileArrives(s: State, cfg: Config)
    requires OnTheWay(s, cfg) && s.waitQ == [] && s.m.submitRing == [] && ActiveEmpty(s.m) && s.pendQ != []
    ensures WellFormed(s) && Enabled(s, cfg, Allocated(true))
    ensures var r := Step(s, cfg, Allocated(true)); OnTheWay(r, cfg) && Settling(r) && r.requests == s.requests
  {
    CanFinish(s, cfg);
    StepStays(s, cfg, Allocated(true));
    AllocatedKeepsLively(s, cfg, true);
    hide Step, Enabled, WellFormed, ActiveEmpty;
  }

  lemma CanFinish(s: State, cfg: Config)
    requires OnTheWay(s, cfg) && s.pendQ != []
    ensures Enabled(s, cfg, Allocated(true))
  {
    hide ManagerInv, BuffersOk, QueueOk, IosOk, HomesOk, Undisturbed, Conserved, FreeEmpty;
    assert s.files[s.allocating.value].id < s.nextFileId;
  }

  lemma NoneQueued(s: State, cfg: Config)
    requires OnTheWay(s, cfg) && s.waitQ == [] && s.m.submitRing == [] && ActiveEmpty(s.m) && s.pendQ == []
    ensures Settling(s)
  {
  }

  /** Requests that wait for a file get one first. */
  lemma SettleQueue(s: State, cfg: Config) returns (es: seq<Event>)
    requires OnTheWay(s, cfg) && s.waitQ == [] && s.m.submitRing == [] && ActiveEmpty(s.m)
    ensures WellFormed(s) && Runs(s, cfg, es) && NoPut(es)
    ensures var r := After(s, cfg, es); OnTheWay(r, cfg) && Quiet(r) && r.requests == s.requests
  {
    hide *;
    if s.pendQ == [] {
      NoneQueued(s, cfg);
      es := Settle(s, cfg);
    } else {
      FileArrives(s, cfg);
      var rest := Settle(Step(s, cfg, Allocated(true)), cfg);
      RunsOn(s, cfg, Allocated(true), rest);
      es := Before(Allocated(true), rest);
    }
  }

  lemma FlushSettles(s: State, cfg: Config)
    requires OnTheWay(s, cfg)
    ensures WellFormed(s) && Enabled(s, cfg, Flushing)
    ensures var r := Step(s, cfg, Flushing);
      OnTheWay(r, cfg) && ActiveEmpty(r.m) && r.waitQ == s.waitQ && r.requests == s.requests
  {
    StepStays(s, cfg, Flushing);
    SubmitEmptiesActive(s.m);
    assert Step(s, cfg, Flushing) == Flush(s);
    hide ManagerInv, Addressed, Conserved, SubmitCurrent, Step;
  }

  lemma BatchSettles(s: State, cfg: Config)
    requires OnTheWay(s, cfg) && ActiveEmpty(s.m)
    ensures WellFormed(s) && Enabled(s, cfg, SubmittingPending([]))
    ensures var r := Step(s, cfg, SubmittingPending([]));
      && OnTheWay(r, cfg) && ActiveEmpty(r.m) && r.waitQ == s.waitQ && r.m.submitRing == []
      && r.requests == s.requests
  {
    StepStays(s, cfg, SubmittingPending([]));
    RingBelow(s.m, InFlight(s.ios) + []);
    SubmitPendingKeepsLively(s, cfg, []);
    SubmitKeepsRequests(s, cfg, []);
    assert Step(s, cfg, SubmittingPending([])) == SubmitPending(s, cfg, []);
    hide ManagerInv, Addressed, Conserved, SubmitPending, Lively, Step, ActiveEmpty;
  }

  /** The buffer being filled is written first. */
  lemma SettleBuffers(s: State, cfg: Config) returns (es: seq<Event>)
    requires OnTheWay(s, cfg) && s.waitQ == []
    ensures WellFormed(s) && Runs(s, cfg, es) && NoPut(es)
    ensures var r := After(s, cfg, es); OnTheWay(r, cfg) && Quiet(r) && r.requests == s.requests
  {
    hide *;
    FlushSettles(s, cfg);
    var s1 := Step(s, cfg, Flushing);
    BatchSettles(s1, cfg);
    var rest := SettleQueue(Step(s1, cfg, SubmittingPending([])), cfg);
    RunsOn(s1, cfg, SubmittingPending([]), rest);
    rest := Before(SubmittingPending([]), rest);
    RunsOn(s, cfg, Flushing, rest);
    es := Before(Flushing, rest);
  }

  lemma SubmitBufferKeepsRequests(s: State, cfg: Config, b: nat, alloc: bool)
    requires WellFormed(s) && b < |s.m.buffers|
    ensures SubmitBuffer(s, cfg, b, alloc).requests == s.requests
  {
    hide NeedsFile, FileAt, ReturnBuffer;
    SealFrame(s);
  }

  lemma {:induction false} SubmitToKeepsRequests(s: State, cfg: Config, batch: seq<nat>, allocs: seq<bool>, n: nat)
    requires WellFormed(s) && n <= |batch|
    requires forall i :: 0 <= i < |batch| ==> batch[i] < |s.m.buffers|
    ensures SubmitTo(s, cfg, batch, allocs, n).requests == s.requests
    decreases n
  {
    hide SubmitBuffer, WellFormed;
    if n > 0 {
      SubmitToKeepsRequests(s, cfg, batch, allocs, n - 1);
      SubmitBufferKeepsRequests(SubmitTo(s, cfg, batch, allocs, n - 1), cfg, batch[n - 1],
                                n <= |allocs| && allocs[n - 1]);
    }
  }

  lemma SubmitKeepsRequests(s: State, cfg: Config, allocs: seq<bool>)
    requires WellFormed(s)
    ensures SubmitPending(s, cfg, allocs).requests == s.requests
  {
    var (m1, batch) := TakePending(s.m, MAX_BATCH);
    SubmitToKeepsRequests(s.(m := m1), cfg, batch, allocs, |batch|);
    hide SubmitTo;
  }

  /**
   From every state that is reached, one more put is enough: after it there are events, without another put, after
   which every request accepted so far has been answered.
   */
  lemma AllCanBeAnswered(s: State, cfg: Config, key: Key, value: seq<Byte>) returns (es: seq<Event>)
    requires Inv(s, cfg) && Conserved(s) && Lively(s) && value != [] && |value| < TWO32
    ensures Runs(s, cfg, Relief(key, value, [], false, true) + es)
    ensures NoPut(es)
    ensures AllAnswered(After(s, cfg, Relief(key, value, [], false, true) + es))
  {
    var relief := Relief(key, value, [], false, true);
    ReliefEmptiesQueue(s, cfg, key, value, [], false, true);
    ReliefStays(s, cfg, key, value);
    var r := After(s, cfg, relief);
    hide *;
    es := SettleBuffers(r, cfg);
    RunsBoth(s, cfg, relief, es);
    var r' := After(r, cfg, es);
    WayParts(r', cfg);
    QuietIsAnswered(r', cfg);
  }

  lemma ReliefStays(s: State, cfg: Config, key: Key, value: seq<Byte>)
    requires Inv(s, cfg) && Conserved(s) && Lively(s) && value != [] && |value| < TWO32
    ensures Runs(s, cfg, Relief(key, value, [], false, true))
    ensures OnTheWay(After(s, cfg, Relief(key, value, [], false, true)), cfg)
  {
    var e1, e2, e3 := SubmittingPending([]), Putting(key, value, false, true), ProcessingWaitQueue;
    assert OnTheWay(s, cfg) && WellFormed(s) && Enabled(s, cfg, e1);
    var s1 := Step(s, cfg, e1);
    assert Enabled(s1, cfg, e2);
    var s2 := Step(s1, cfg, e2);
    assert Enabled(s2, cfg, e3);
    hide *;
    ReliefRuns(s, cfg, key, value, [], false, true);
    StepStays(s, cfg, e1);
    StepStays(s1, cfg, e2);
    StepStays(s2, cfg, e3);
  }

  // ---------------------------------------------------------------------------------------------
  // From the start
  // ---------------------------------------------------------------------------------------------

  lemma StartIsLively(bufferSize: nat, count: nat, sequence: u32)
    requires 0 < count <= MAX_BUFFERS
    ensures Lively(Start(bufferSize, count, sequence))
  {
    WithBuffersIs(bufferSize, count);
    hide WithBuffers, WellFormed;
    ActivateKeepsFree(WithBuffers(bufferSize, count));
  }

  /** After any safe run of an engine that has just been set up, one more put is enough. */
  lemma NoRequestIsStuck(cfg: Config, bufferSize: nat, count: nat, sequence: u32, es: seq<Event>, key: Key,
      value: seq<Byte>) returns (more: seq<Event>)
    requires 0 < count <= MAX_BUFFERS && value != [] && |value| < TWO32
    requires var s := Start(bufferSize, count, sequence); Runs(s, cfg, es) && SafeRun(s, cfg, es)
    ensures var s := Start(bufferSize, count, sequence); var all := es + (Relief(key, value, [], false, true) + more);
      Runs(s, cfg, all) && NoPut(more) && AllAnswered(After(s, cfg, all))
  {
    var s := Start(bufferSize, count, sequence);
    StartOk(cfg, bufferSize, count, sequence);
    StartIsLively(bufferSize, count, sequence);
    hide *;
    RunKeepsConserved(s, cfg, es);
    RunKeepsLively(s, cfg, es);
    more := AllCanBeAnswered(After(s, cfg, es), cfg, key, value);
    RunsBoth(s, cfg, es, Relief(key, value, [], false, true) + more);
  }
}
