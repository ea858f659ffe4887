/** When backpressure begins and ends, and what then becomes of the requests that wait. */
module WritePathBackpressure {
  import opened Types
  import opened Bytes
  import opened EntryFormat
  import opened BufferRules
  import BufferRuns
  import opened WritePath
  import opened WritePathInvariant
  import opened WritePathRuns
  import opened WritePathRequests
  import opened WritePathResults
  import opened WritePathLoss
  import opened WritePathLimits

  // ---------------------------------------------------------------------------------------------
  // The flag
  // ---------------------------------------------------------------------------------------------

  /** Whether the flag is on after the check that a put makes: it goes off at six or fewer buffers to be written, and
      on at twelve or more, if no buffer can be added. */
  ghost predicate PressedAfter(m: Manager, memory: bool) {
    if m.backpressure then |m.submitRing| > 6
    else |m.submitRing| >= 12 && (|m.buffers| >= 16 || !memory)
  }

  lemma ReserveSetsFlag(m: Manager, len: nat, memory: bool)
    requires IdsOk(m)
    ensures BufferRuns.ReserveWithBackpressure(m, len, memory).0.backpressure <==> PressedAfter(m, memory)
    ensures PressedAfter(m, memory) ==> BufferRuns.ReserveWithBackpressure(m, len, memory).1 == None
  {
    BufferRuns.BackpressureKeepsIds(m, memory);
  }

  lemma FlushKeepsFlag(s: State)
    requires WellFormed(s)
    ensures Flush(s).m.backpressure == s.m.backpressure && Flush(s).waitQ == s.waitQ
  {
  }

  lemma InBufferKeepsFlag(s: State, cfg: Config, key: Key, value: seq<Byte>, at: nat)
    requires WellFormed(s) && s.m.active.Some?
    ensures PutInBuffer(s, cfg, key, value, at).m.backpressure == s.m.backpressure
    ensures PutInBuffer(s, cfg, key, value, at).waitQ == s.waitQ
  {
    hide Build, Overwrite, Size;
    FlushKeepsFlag(Buffered(Accept(s, key, value), cfg, at));
    hide Flush;
  }

  /** A put decides anew whether there is backpressure, and one that is under it does not go into a buffer. */
  lemma PutSetsFlag(s: State, cfg: Config, key: Key, value: seq<Byte>, memory: bool, dma: bool)
    requires WellFormed(s) && value != [] && |value| < TWO32
    ensures var r := Step(s, cfg, Putting(key, value, memory, dma));
      && (r.m.backpressure <==> PressedAfter(s.m, memory))
      && (PressedAfter(s.m, memory) ==>
           |r.waitQ| == |s.waitQ| + (if dma then 1 else 0) && |r.requests| == |s.requests| + (if dma then 1 else 0))
  {
    hide SizeFor, Build, Size, PutInBuffer, PressedAfter;
    ReserveShape(s.m, SizeFor(|value|), memory);
    ReserveSetsFlag(s.m, SizeFor(|value|), memory);
    var (m1, at) := BufferRuns.ReserveWithBackpressure(s.m, SizeFor(|value|), memory);
    var s1 := WithManager(s, m1);
    if at.Some? {
      InBufferKeepsFlag(s1, cfg, key, value, at.value);
    }
    hide BufferRuns.ReserveWithBackpressure;
  }

  /** A put, and then a poll of the wait queue: it is left empty exactly if the put finds no backpressure, or nothing
      waits. */
  lemma PutThenPollDrainsIff(s: State, cfg: Config, key: Key, value: seq<Byte>, memory: bool, dma: bool)
    requires WellFormed(s) && value != [] && |value| < TWO32
    ensures var r := Step(Step(s, cfg, Putting(key, value, memory, dma)), cfg, ProcessingWaitQueue);
      r.waitQ == [] <==> !PressedAfter(s.m, memory) || (s.waitQ == [] && !dma)
  {
    PutSetsFlag(s, cfg, key, value, memory, dma);
    var s1 := Step(s, cfg, Putting(key, value, memory, dma));
    StepHolds(s1, cfg, ProcessingWaitQueue);
    hide WellFormed, Step, PressedAfter;
  }

  // ---------------------------------------------------------------------------------------------
  // A way out of every state
  // ---------------------------------------------------------------------------------------------

  lemma ReturnKeepsRing(m: Manager, b: nat)
    requires b < |m.buffers|
    ensures ReturnBuffer(m, b).submitRing == m.submitRing
  {
  }

  lemma SubmitBufferKeepsRing(s: State, cfg: Config, b: nat, alloc: bool)
    requires WellFormed(s) && b < |s.m.buffers|
    ensures SubmitBuffer(s, cfg, b, alloc).m.submitRing == s.m.submitRing
  {
    hide NeedsFile, FileAt, ReturnBuffer;
    SealFrame(s);
    ReturnKeepsRing(s.m, b);
  }

  lemma {:induction false} SubmitToKeepsRing(s: State, cfg: Config, batch: seq<nat>, allocs: seq<bool>, n: nat)
    requires WellFormed(s) && n <= |batch|
    requires forall i :: 0 <= i < |batch| ==> batch[i] < |s.m.buffers|
    ensures SubmitTo(s, cfg, batch, allocs, n).m.submitRing == s.m.submitRing
    decreases n
  {
    hide SubmitBuffer, WellFormed;
    if n > 0 {
      SubmitToKeepsRing(s, cfg, batch, allocs, n - 1);
      SubmitBufferKeepsRing(SubmitTo(s, cfg, batch, allocs, n - 1), cfg, batch[n - 1],
                            n <= |allocs| && allocs[n - 1]);
    }
  }

  /** A poll takes up to sixteen buffers off the submit ring. */
  lemma PollShortensRing(s: State, cfg: Config, allocs: seq<bool>)
    requires WellFormed(s)
    ensures var r := Step(s, cfg, SubmittingPending(allocs));
      && |r.m.submitRing| == (if |s.m.submitRing| <= 16 then 0 else |s.m.submitRing| - 16)
      && Held(s, r)
  {
    StepHolds(s, cfg, SubmittingPending(allocs));
    var (m1, batch) := TakePending(s.m, MAX_BATCH);
    SubmitToKeepsRing(s.(m := m1), cfg, batch, allocs, |batch|);
    hide SubmitTo;
  }

  lemma {:induction false} RingBelow(m: Manager, out: seq<nat>)
    requires BufferRuns.ManagerOk(m, out)
    ensures |m.submitRing| <= 16
  {
  }

  /** A poll of the submit ring, a put and a poll of the wait queue. */
  function Relief(key: Key, value: seq<Byte>, allocs: seq<bool>, memory: bool, dma: bool): seq<Event> {
    [SubmittingPending(allocs), Putting(key, value, memory, dma), ProcessingWaitQueue]
  }

  lemma ReliefRuns(s: State, cfg: Config, key: Key, value: seq<Byte>, allocs: seq<bool>, memory: bool, dma: bool)
    requires WellFormed(s) && |value| < TWO32
    ensures Runs(s, cfg, Relief(key, value, allocs, memory, dma))
    ensures After(s, cfg, Relief(key, value, allocs, memory, dma))
         == Step(Step(Step(s, cfg, SubmittingPending(allocs)), cfg, Putting(key, value, memory, dma)), cfg,
                 ProcessingWaitQueue)
  {
    var e1, e2, e3 := SubmittingPending(allocs), Putting(key, value, memory, dma), ProcessingWaitQueue;
    var s1 := Step(s, cfg, e1);
    var s2 := Step(s1, cfg, e2);
    var s3 := Step(s2, cfg, e3);
    assert Enabled(s2, cfg, e3) && Enabled(s1, cfg, e2) && Enabled(s, cfg, e1);
    hide Step, Runs, After, WellFormed, Enabled;
    NoEvents(s3, cfg);
    RunsOn(s2, cfg, e3, []);
    RunsOn(s1, cfg, e2, [e3] + []);
    RunsOn(s, cfg, e1, [e2] + ([e3] + []));
    assert Relief(key, value, allocs, memory, dma) == [e1] + ([e2] + ([e3] + []));
  }

  /** From every state: a poll, one more put, whether or not it finds memory, and a poll, and nothing waits any more. */
  lemma ReliefEmptiesQueue(s: State, cfg: Config, key: Key, value: seq<Byte>, allocs: seq<bool>, memory: bool,
      dma: bool)
    requires Inv(s, cfg) && value != [] && |value| < TWO32
    ensures Runs(s, cfg, Relief(key, value, allocs, memory, dma))
    ensures var r := After(s, cfg, Relief(key, value, allocs, memory, dma)); r.waitQ == [] && !r.m.backpressure
  {
    RingBelow(s.m, InFlight(s.ios) + []);
    ReliefRuns(s, cfg, key, value, allocs, memory, dma);
    PollShortensRing(s, cfg, allocs);
    var s1 := Step(s, cfg, SubmittingPending(allocs));
    PutSetsFlag(s1, cfg, key, value, memory, dma);
    var s2 := Step(s1, cfg, Putting(key, value, memory, dma));
    StepHolds(s2, cfg, ProcessingWaitQueue);
    hide WellFormed, Step, Runs, After, Inv;
  }

  // ---------------------------------------------------------------------------------------------
  // Where the waiting requests go
  // ---------------------------------------------------------------------------------------------

  /** The request is being written, or waits for the file that is being allocated. */
  ghost predicate UnderWay(s: State, id: nat) {
    (exists i :: 0 <= i < |s.ios| && s.ios[i].DirectIo? && s.ios[i].id == id)
    || (s.allocating.Some? && exists i :: 0 <= i < |s.pendQ| && s.pendQ[i].id == id)
  }

  /** Requests that are under way stay so while the queue is drained. */
  lemma DrainOneLaunches(s: State, cfg: Config, id: nat)
    requires WellFormed(s) && s.waitQ != []
    requires UnderWay(s, id) || s.waitQ[0].id == id
    ensures UnderWay(DrainOne(s, cfg), id)
  {
    hide FileAt, NeedsFile;
    var q, s1 := s.waitQ[0], s.(waitQ := s.waitQ[1..]);
    SealFrame(s.(waitQ := s.waitQ[1..], pendQ := s.pendQ + [s.waitQ[0]]));
    var r := DrainOne(s, cfg);
    if q.id == id {
      assert (r.ios != [] && r.ios[|r.ios| - 1].DirectIo? && r.ios[|r.ios| - 1].id == id)
        || (r.allocating.Some? && r.pendQ != [] && r.pendQ[|r.pendQ| - 1].id == id);
    } else if i: nat :| i < |s.ios| && s.ios[i].DirectIo? && s.ios[i].id == id {
      assert r.ios[i] == s.ios[i];
    } else {
      var i :| 0 <= i < |s.pendQ| && s.pendQ[i].id == id;
      assert r.pendQ[i] == s.pendQ[i];
    }
  }

  lemma {:induction false} DrainLaunches(s: State, cfg: Config, id: nat)
    requires WellFormed(s)
    requires UnderWay(s, id) || exists i :: 0 <= i < |s.waitQ| && s.waitQ[i].id == id
    ensures UnderWay(Drain(s, cfg), id)
    decreases |s.waitQ|
  {
    DrainUnfolds(s, cfg);
    hide Drain, UnderWay, DrainOne;
    if s.waitQ != [] {
      var r := DrainOne(s, cfg);
      if UnderWay(s, id) || s.waitQ[0].id == id {
        DrainOneLaunches(s, cfg, id);
      } else {
        var i :| 0 <= i < |s.waitQ| && s.waitQ[i].id == id;
        assert r.waitQ[i - 1] == s.waitQ[i];
      }
      DrainLaunches(r, cfg, id);
    }
  }

  /** Every request that waited is under way once the wait queue is processed without backpressure. */
  lemma PollLaunchesWaiters(s: State, cfg: Config, i: nat)
    requires WellFormed(s) && i < |s.waitQ| && !s.m.backpressure
    ensures UnderWay(Step(s, cfg, ProcessingWaitQueue), s.waitQ[i].id)
  {
    hide UnderWay, Drain, WellFormed;
    DrainLaunches(s, cfg, s.waitQ[i].id);
  }
}
