/** The write path from its start: what holds over whole runs, and two runs that go wrong. */
module WritePathResults {
  import opened Types
  import opened Sequence
  import opened BufferRules
  import BufferRuns
  import opened WritePath
  import opened WritePathInvariant
  import opened WritePathRuns
  import opened WritePathReads
  import opened WritePathRequests

  /** A fresh engine: one open file, and count buffers. */
  function Start(bufferSize: nat, count: nat, sequence: u32): (s: State)
    requires 0 < count <= MAX_BUFFERS
    ensures WellFormed(s)
  {
    BufferRuns.InitializeKeepsAllIff(bufferSize, count);
    PlacesAreIds(Initialize(bufferSize, count), []);
    BufferRuns.WithBuffersPlaces(bufferSize, count);
    State([File(0, 0, false, FILE_HEADER, true)], 1, 1, 0, None, Initialize(bufferSize, count),
          seq(count, _ => []), seq(count, _ => []), [], [], [], 0, map[], sequence, map[], [], [], map[])
  }

  lemma {:induction false} FreshBuffers(bufferSize: nat, count: nat, b: nat)
    requires b < |WithBuffers(bufferSize, count).buffers|
    ensures WithBuffers(bufferSize, count).buffers[b] == NewBuffer(bufferSize)
    decreases count
  {
    if count > 0 && b < count - 1 {
      BufferRuns.WithBuffersPlaces(bufferSize, count - 1);
      FreshBuffers(bufferSize, count - 1, b);
    } else {
      BufferRuns.WithBuffersPlaces(bufferSize, count - 1);
    }
  }

  lemma {:induction false} NoBufferIds(count: nat)
    ensures BufferIds(seq(count, _ => [])) == []
    decreases count
  {
    var pend: seq<seq<PendingWrite>> := seq(count, _ => []);
    if count > 0 {
      assert pend[..count - 1] == seq(count - 1, _ => []);
      NoBufferIds(count - 1);
    }
  }

  lemma StartBuffers(cfg: Config, bufferSize: nat, count: nat)
    requires 0 < count <= MAX_BUFFERS
    ensures var m := Initialize(bufferSize, count);
      && BufferRuns.ManagerOk(m, []) && m.submitRing == [] && |m.buffers| == count
      && forall b :: 0 <= b < count ==> m.buffers[b] == NewBuffer(bufferSize)
  {
    BufferRuns.InitializeKeepsAllIff(bufferSize, count);
    BufferRuns.WithBuffersPlaces(bufferSize, count);
    forall b | 0 <= b < count
      ensures Initialize(bufferSize, count).buffers[b] == NewBuffer(bufferSize)
    {
      FreshBuffers(bufferSize, count, b);
    }
  }

  lemma StartAddressed(cfg: Config, bufferSize: nat, count: nat, sequence: u32)
    requires 0 < count <= MAX_BUFFERS
    ensures Inv(Start(bufferSize, count, sequence), cfg)
  {
    var s := Start(bufferSize, count, sequence);
    StartBuffers(cfg, bufferSize, count);
    hide Initialize, BufferRuns.ManagerOk;
    assert InFlight(s.ios) + [] == [];
  }

  lemma StartConserved(bufferSize: nat, count: nat, sequence: u32)
    requires 0 < count <= MAX_BUFFERS
    ensures Conserved(Start(bufferSize, count, sequence))
  {
    hide Initialize, WellFormed;
    NoBufferIds(count);
  }

  lemma StartOk(cfg: Config, bufferSize: nat, count: nat, sequence: u32)
    requires 0 < count <= MAX_BUFFERS
    ensures var s := Start(bufferSize, count, sequence); Inv(s, cfg) && Conserved(s) && Newest(s, sequence)
  {
    hide Inv, Conserved, Initialize, WellFormed;
    StartAddressed(cfg, bufferSize, count, sequence);
    StartConserved(bufferSize, count, sequence);
  }

  lemma {:induction false} RunKeepsConserved(s: State, cfg: Config, es: seq<Event>)
    requires WellFormed(s) && Conserved(s) && Runs(s, cfg, es)
    ensures Conserved(After(s, cfg, es))
    decreases |es|
  {
    hide WellFormed, Step, Enabled, Conserved;
    if es != [] {
      StepKeepsConserved(s, cfg, es[0]);
      RunKeepsConserved(Step(s, cfg, es[0]), cfg, es[1..]);
    }
  }

  /** A request that is answered is answered once, and is nowhere else. */
  lemma AnsweredOnce(s: State, i: nat, j: nat)
    requires Conserved(s) && i < |s.answers| && j < |s.answers| && s.answers[i].id == s.answers[j].id
    ensures i == j
  {
    var id := s.answers[i].id;
    assert Places(s, id) <= 1;
    assert AnswerIds(s.answers)[i] == id && AnswerIds(s.answers)[j] == id;
    CountTwice(AnswerIds(s.answers), i, j);
  }

  lemma CountTwice(q: seq<nat>, i: nat, j: nat)
    requires i < |q| && j < |q| && q[i] == q[j]
    ensures i != j ==> Count(q, q[i]) >= 2
  {
    if i < j {
      CountWithout(q, j, q[i]);
      assert (q[..j] + q[j + 1..])[i] == q[i];
      CountMember(q[..j] + q[j + 1..], i);
    } else if j < i {
      CountTwice(q, j, i);
    }
  }

  lemma StepGrowsRequests(s: State, cfg: Config, e: Event)
    requires WellFormed(s) && Enabled(s, cfg, e) && Conserved(s)
    ensures |s.requests| <= |Step(s, cfg, e).requests|
  {
    hide Places, WellFormed;
    match e
    case Putting(key, value, memory, dma) => PutKeepsOrAdds(s, cfg, key, value, memory, dma);
    case Flushing =>
    case SubmittingPending(allocs) => SubmitPendingKeeps(s, cfg, allocs);
    case Completing(i, ok, junk) => CompleteKeeps(s, cfg, i, ok, junk);
    case ProcessingWaitQueue => WaitQueueKeeps(s, cfg);
    case Allocated(ok) => AllocatedKeeps(s, ok);
  }

  lemma {:induction false} RunGrowsRequests(s: State, cfg: Config, es: seq<Event>)
    requires WellFormed(s) && Conserved(s) && Runs(s, cfg, es)
    ensures |s.requests| <= |After(s, cfg, es).requests|
    decreases |es|
  {
    hide WellFormed, Step, Enabled, Conserved;
    if es != [] {
      StepKeepsConserved(s, cfg, es[0]);
      StepGrowsRequests(s, cfg, es[0]);
      RunGrowsRequests(Step(s, cfg, es[0]), cfg, es[1..]);
    }
  }

  /** Over a safe run that accepts fewer than 2^31 requests, the newest acknowledged put of each key is indexed. */
  lemma {:induction false} RunKeepsNewest(s: State, cfg: Config, base: u32, es: seq<Event>)
    requires Inv(s, cfg) && Conserved(s) && Newest(s, base) && Runs(s, cfg, es) && SafeRun(s, cfg, es)
    requires |After(s, cfg, es).requests| < HALF
    ensures Newest(After(s, cfg, es), base)
    decreases |es|
  {
    hide ManagerInv, Addressed, WellFormed, Step, Enabled, Conserved, Safe, Newest;
    if es != [] {
      RunGrowsRequests(s, cfg, es);
      StepKeepsInv(s, cfg, es[0]);
      StepKeepsConserved(s, cfg, es[0]);
      StepKeepsNewest(s, cfg, base, es[0]);
      RunKeepsNewest(Step(s, cfg, es[0]), cfg, base, es[1..]);
    }
  }

  // ---------------------------------------------------------------------------------------------
  // Backpressure ends only with another put
  // ---------------------------------------------------------------------------------------------

  /** Neither backpressure nor the wait queue changes. */
  ghost predicate Held(s: State, r: State) {
    r.m.backpressure == s.m.backpressure && r.waitQ == s.waitQ
  }

  lemma SubmitBufferHolds(s: State, cfg: Config, b: nat, alloc: bool)
    requires WellFormed(s) && b < |s.m.buffers|
    ensures Held(s, SubmitBuffer(s, cfg, b, alloc))
  {
    hide NeedsFile, FileAt;
    SealFrame(s);
  }

  lemma {:induction false} SubmitToHolds(s: State, cfg: Config, batch: seq<nat>, allocs: seq<bool>, n: nat)
    requires WellFormed(s) && n <= |batch|
    requires forall i :: 0 <= i < |batch| ==> batch[i] < |s.m.buffers|
    ensures Held(s, SubmitTo(s, cfg, batch, allocs, n))
    decreases n
  {
    hide SubmitBuffer, WellFormed;
    if n > 0 {
      SubmitToHolds(s, cfg, batch, allocs, n - 1);
      SubmitBufferHolds(SubmitTo(s, cfg, batch, allocs, n - 1), cfg, batch[n - 1], n <= |allocs| && allocs[n - 1]);
    }
  }

  lemma {:induction false} LandToHolds(s: State, ls: seq<Landing>, ok: bool, n: nat)
    requires WellFormed(s) && n <= |ls|
    ensures LandTo(s, ls, ok, n).waitQ == s.waitQ
    decreases n
  {
    hide WellFormed;
    if n > 0 {
      LandToHolds(s, ls, ok, n - 1);
    }
  }

  lemma {:induction false} LaunchToHolds(s: State, qs: seq<Queued>, i: nat, n: nat)
    requires WellFormed(s) && i < |s.files| && n <= |qs|
    ensures LaunchTo(s, qs, i, n).waitQ == s.waitQ && LaunchTo(s, qs, i, n).m == s.m
    decreases n
  {
    hide WellFormed;
    if n > 0 {
      LaunchToHolds(s, qs, i, n - 1);
    }
  }

  lemma AllocatedHolds(s: State, cfg: Config, ok: bool)
    requires WellFormed(s) && Enabled(s, cfg, Allocated(ok))
    ensures Held(s, Step(s, cfg, Allocated(ok)))
  {
    hide FileAt, LaunchTo;
    if ok {
      var at := s.allocating.value;
      var s1 := s.(allocating := None, files := s.files[at := s.files[at].(isOpen := true)],
                   activeId := s.files[|s.files| - 1].id);
      var a := FileAt(s1.files, s1.activeId);
      if a.Some? && s1.files[a.value].isOpen {
        LaunchToHolds(s1.(pendQ := []), s1.pendQ, a.value, |s1.pendQ|);
      }
    }
  }

  lemma CompleteHolds(s: State, cfg: Config, i: nat, ok: bool, junk: Disk)
    requires WellFormed(s) && i < |s.ios| && (ok ==> CanSucceed(s, cfg, i))
    ensures Held(s, Complete(s, cfg, i, ok, junk))
  {
    hide LandTo, LandingsOf, WriteTo, Scribble, CanSucceed;
    LandToHolds(Detach(s, cfg, i, ok, junk), LandingsOf(s, s.ios[i]), ok, |LandingsOf(s, s.ios[i])|);
  }

  /** Draining the wait queue always empties it. */
  lemma {:induction false} DrainEmpties(s: State, cfg: Config)
    requires WellFormed(s)
    ensures Drain(s, cfg).waitQ == [] && Drain(s, cfg).m == s.m
    decreases |s.waitQ|
  {
    DrainUnfolds(s, cfg);
    hide Drain;
    if s.waitQ != [] {
      DrainOneShortens(s, cfg);
      DrainEmpties(DrainOne(s, cfg), cfg);
    }
  }

  lemma DrainOneShortens(s: State, cfg: Config)
    requires WellFormed(s) && s.waitQ != []
    ensures DrainOne(s, cfg).waitQ == s.waitQ[1..] && DrainOne(s, cfg).m == s.m
  {
    hide FileAt;
    SealFrame(s.(waitQ := s.waitQ[1..], pendQ := s.pendQ + [s.waitQ[0]]));
  }

  /** An event that is no put leaves the wait queue alone, unless it processes it without backpressure. */
  lemma StepHolds(s: State, cfg: Config, e: Event)
    requires WellFormed(s) && Enabled(s, cfg, e) && !e.Putting?
    ensures var r := Step(s, cfg, e);
      if e.ProcessingWaitQueue? && !s.m.backpressure then r.waitQ == [] && !r.m.backpressure else Held(s, r)
  {
    hide SubmitTo, Complete, AllocationDone, AllocationFailed, Drain;
    match e
    case Flushing =>
    case SubmittingPending(allocs) =>
      var (m1, batch) := TakePending(s.m, MAX_BATCH);
      SubmitToHolds(s.(m := m1), cfg, batch, allocs, |batch|);
    case Completing(i, ok, junk) => CompleteHolds(s, cfg, i, ok, junk);
    case ProcessingWaitQueue => DrainEmpties(s, cfg);
    case Allocated(ok) => AllocatedHolds(s, cfg, ok);
  }

  /** Once backpressure is on, no run without a put moves anything out of the wait queue, however long. */
  lemma {:induction false} WaitersNeedAPut(s: State, cfg: Config, es: seq<Event>)
    requires WellFormed(s) && s.m.backpressure && Runs(s, cfg, es) && forall i :: 0 <= i < |es| ==> !es[i].Putting?
    ensures Held(s, After(s, cfg, es))
    decreases |es|
  {
    hide WellFormed, Step, Enabled;
    if es != [] {
      StepHolds(s, cfg, es[0]);
      WaitersNeedAPut(Step(s, cfg, es[0]), cfg, es[1..]);
    }
  }

  /** Without backpressure it only gets shorter. */
  lemma {:induction false} EmptyStaysEmpty(s: State, cfg: Config, es: seq<Event>)
    requires WellFormed(s) && s.waitQ == [] && Runs(s, cfg, es) && forall i :: 0 <= i < |es| ==> !es[i].Putting?
    ensures After(s, cfg, es).waitQ == []
    decreases |es|
  {
    hide WellFormed, Step, Enabled;
    if es != [] {
      StepHolds(s, cfg, es[0]);
      EmptyStaysEmpty(Step(s, cfg, es[0]), cfg, es[1..]);
    }
  }

  /**
   In a run without a put that processes the wait queue at least once, the waiting requests leave the queue if and
   only if there is no backpressure when the run begins.
   */
  lemma {:induction false} WaitersLeaveIff(s: State, cfg: Config, es: seq<Event>, n: nat)
    requires WellFormed(s) && s.waitQ != [] && Runs(s, cfg, es) && forall i :: 0 <= i < |es| ==> !es[i].Putting?
    requires n < |es| && es[n].ProcessingWaitQueue?
    ensures After(s, cfg, es).waitQ == [] <==> !s.m.backpressure
    decreases |es|
  {
    if s.m.backpressure {
      WaitersNeedAPut(s, cfg, es);
    } else {
      hide WellFormed, Step, Enabled;
      var r := Step(s, cfg, es[0]);
      StepHolds(s, cfg, es[0]);
      if r.waitQ == [] {
        EmptyStaysEmpty(r, cfg, es[1..]);
      } else {
        WaitersLeaveIff(r, cfg, es[1..], n - 1);
      }
    }
  }

  // ---------------------------------------------------------------------------------------------
  // From the start to a read
  // ---------------------------------------------------------------------------------------------

  /**
   The whole path: after any safe run of an engine that has just been set up, a read of a key finds the record of the
   last accepted put of it that was acknowledged, and finds nothing exactly if there is none.
   */
  lemma ReadsAfterRun(cfg: Config, bufferSize: nat, count: nat, sequence: u32, es: seq<Event>, key: Key, room: nat)
    requires 0 < count <= MAX_BUFFERS
    requires var s := Start(bufferSize, count, sequence); Runs(s, cfg, es) && SafeRun(s, cfg, es)
    requires var r := After(Start(bufferSize, count, sequence), cfg, es);
      |r.requests| < HALF && WithinLimits(r, cfg)
    ensures var r := After(Start(bufferSize, count, sequence), cfg, es);
      && (Get(r, key, room) == NotFound <==> forall j: nat :: !LastAcknowledged(r, key, j))
      && forall j: nat :: LastAcknowledged(r, key, j) ==> Get(r, key, room) == Reading(r.requests[j], room)
  {
    var s := Start(bufferSize, count, sequence);
    StartOk(cfg, bufferSize, count, sequence);
    hide *;
    RunKeepsInv(s, cfg, es);
    RunKeepsNewest(s, cfg, sequence, es);
    ReadsLastAcknowledged(After(s, cfg, es), cfg, sequence, key, room);
  }
}
