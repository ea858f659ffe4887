/** The append buffer manager over whole runs: no buffer is lost, and none with an allocated slot is reset. */
module BufferRuns {
  import opened Types
  import opened BufferRules

  /** One use of the manager; a buffer in flight is returned by its position among those in flight. */
  datatype Op =
    | Reserving(len: nat, memory: bool)
    | Submitting
    | Polling(max: nat)
    | Returning(i: nat)
    | CheckingResets
    | AllocatingSlot(b: nat, size: nat)
    | CompletingSlot(b: nat, id: nat)
    | ReleasingSlot(b: nat, id: nat)

  ghost predicate ManagerOk(m: Manager, out: seq<nat>) {
    && Partition(m, out) && |m.buffers| <= MAX_BUFFERS
    && forall b :: 0 <= b < |m.buffers| ==> BufferOk(m.buffers[b])
  }

  lemma BackpressureKeepsIds(m: Manager, memory: bool)
    requires IdsOk(m)
    ensures IdsOk(CheckBackpressure(m, memory))
  {
  }

  const NO_ERROR: int := 0
  const BACKPRESSURE: int := -9

  /** The backpressure check, and then the reservation if it passes; and the error code that is reported. */
  function ReserveReporting(m: Manager, len: nat, memory: bool): (Manager, Option<nat>, int)
    requires IdsOk(m)
  {
    BackpressureKeepsIds(m, memory);
    var m1 := CheckBackpressure(m, memory);
    if m1.backpressure then (m1, None, BACKPRESSURE)
    else
      var (m2, at) := Reserve(m1, len);
      (m2, at, if at == None then BACKPRESSURE else NO_ERROR)
  }

  /** The same without the error code, which says nothing more. */
  function ReserveWithBackpressure(m: Manager, len: nat, memory: bool): (Manager, Option<nat>)
    requires IdsOk(m)
  {
    var r := ReserveReporting(m, len, memory);
    (r.0, r.1)
  }

  /** A reservation that fails reports backpressure, also if only the active buffer is full or missing. */
  lemma FailureIsBackpressure(m: Manager, len: nat, memory: bool)
    requires IdsOk(m)
    ensures var (m', at, error) := ReserveReporting(m, len, memory);
      && (m', at) == ReserveWithBackpressure(m, len, memory)
      && (at == None <==> error == BACKPRESSURE) && (at.Some? <==> error == NO_ERROR)
  {
  }

  ghost predicate Enabled(m: Manager, out: seq<nat>, op: Op) {
    match op
    case Returning(i) => i < |out|
    case AllocatingSlot(b, _) => b < |m.buffers|
    case CompletingSlot(b, _) => b < |m.buffers|
    case ReleasingSlot(b, _) => b < |m.buffers|
    case _ => true
  }

  lemma FlagKeepsOk(m: Manager, out: seq<nat>, flag: bool)
    requires ManagerOk(m, out)
    ensures ManagerOk(m.(backpressure := flag), out)
  {
    assert forall x: nat :: PlaceCount(m.(backpressure := flag), out, x) == PlaceCount(m, out, x);
  }

  lemma ExpandKeepsOk(m: Manager, out: seq<nat>, memory: bool)
    requires ManagerOk(m, out)
    ensures ManagerOk(TryExpand(m, memory).0, out)
  {
    hide Partition;
    ExpandKeepsPartition(m, out, memory);
    NewBufferOk(m.bufferSize);
  }

  lemma BackpressureKeepsOk(m: Manager, out: seq<nat>, memory: bool)
    requires ManagerOk(m, out)
    ensures ManagerOk(CheckBackpressure(m, memory), out) && IdsOk(CheckBackpressure(m, memory))
  {
    var m1 := CheckBackpressure(m, memory);
    hide ManagerOk;
    if m.backpressure {
      FlagKeepsOk(m, out, m1.backpressure);
    } else if |m.submitRing| >= HIGH_WATER {
      ExpandKeepsOk(m, out, memory);
      FlagKeepsOk(TryExpand(m, memory).0, out, m1.backpressure);
    }
    OkIds(m1, out);
  }

  lemma OkIds(m: Manager, out: seq<nat>)
    requires ManagerOk(m, out)
    ensures IdsOk(m) && Partition(m, out)
  {
    PlacesAreIds(m, out);
  }

  lemma BackpressureKeepsBuffers(m: Manager, memory: bool)
    ensures |m.buffers| <= |CheckBackpressure(m, memory).buffers|
    ensures forall b :: 0 <= b < |m.buffers| ==> CheckBackpressure(m, memory).buffers[b] == m.buffers[b]
  {
  }

  function Apply(m: Manager, out: seq<nat>, op: Op): (Manager, seq<nat>)
    requires ManagerOk(m, out) && Enabled(m, out, op)
  {
    PlacesAreIds(m, out);
    match op
    case Reserving(len, memory) => BackpressureKeepsOk(m, out, memory); (ReserveWithBackpressure(m, len, memory).0, out)
    case Submitting => (SubmitCurrent(m), out)
    case Polling(max) => (TakePending(m, max).0, out + TakePending(m, max).1)
    case Returning(i) => (ReturnBuffer(m, out[i]), Without(out, i))
    case CheckingResets => (CheckPendingResets(m), out)
    case AllocatingSlot(b, size) => (m.(buffers := m.buffers[b := AllocSlot(m.buffers[b], size).0]), out)
    case CompletingSlot(b, id) => (m.(buffers := m.buffers[b := MarkComplete(m.buffers[b], id)]), out)
    case ReleasingSlot(b, id) => (m.(buffers := m.buffers[b := ReleaseSlot(m.buffers[b], id)]), out)
  }

  // ---------------------------------------------------------------------------------------------
  // What every step does to the buffers themselves
  // ---------------------------------------------------------------------------------------------

  /** A buffer with an allocated slot is left alone. */
  ghost predicate Spares(m: Manager, m': Manager) {
    && |m.buffers| <= |m'.buffers|
    && (forall b :: 0 <= b < |m.buffers| && !m.buffers[b].CanReset() ==> m'.buffers[b] == m.buffers[b])
    && (forall b :: 0 <= b < |m'.buffers| ==> BufferOk(m'.buffers[b]))
  }

  lemma FreedSpares(m: Manager, b: nat)
    requires b < |m.buffers| && m.buffers[b].CanReset()
    requires forall b :: 0 <= b < |m.buffers| ==> BufferOk(m.buffers[b])
    ensures Spares(m, Freed(m, b))
  {
    ResetOk(m.buffers[b]);
  }

  lemma {:induction false} CheckPendingResetsSpares(m: Manager)
    requires IdsOk(m) && forall b :: 0 <= b < |m.buffers| ==> BufferOk(m.buffers[b])
    ensures Spares(m, CheckPendingResets(m))
    decreases |m.resetQueue|
  {
    if !(m.resetQueue == [] || !m.buffers[m.resetQueue[0]].CanReset()) {
      FreedIds(m);
      FreedSpares(m, m.resetQueue[0]);
      CheckPendingResetsSpares(Freed(m, m.resetQueue[0]).(resetQueue := m.resetQueue[1..]));
    }
  }

  lemma ReserveKeepsOk(m: Manager, out: seq<nat>, len: nat)
    requires ManagerOk(m, out) && IdsOk(m)
    ensures ManagerOk(Reserve(m, len).0, out)
  {
    var m' := Reserve(m, len).0;
    if m.active.Some? {
      TakeOk(m.buffers[m.active.value], len);
    }
    assert SamePlaces(m, out, m', out);
  }

  lemma SubmitKeepsOk(m: Manager, out: seq<nat>)
    requires ManagerOk(m, out) && IdsOk(m)
    ensures ManagerOk(SubmitCurrent(m), out)
  {
    SubmitKeepsPlaces(m, out);
    hide Partition, BufferOk;
    SamePlacesPartition(m, out, SubmitCurrent(m), out);
  }

  lemma PollKeepsOk(m: Manager, out: seq<nat>, max: nat)
    requires ManagerOk(m, out)
    ensures ManagerOk(TakePending(m, max).0, out + TakePending(m, max).1)
  {
    hide Partition, BufferOk;
    TakePendingKeepsPlaces(m, out, max);
    SamePlacesPartition(m, out, TakePending(m, max).0, out + TakePending(m, max).1);
  }

  lemma ReturnKeepsOk(m: Manager, out: seq<nat>, i: nat)
    requires ManagerOk(m, out) && IdsOk(m) && i < |out| && out[i] < |m.buffers|
    ensures ManagerOk(ReturnBuffer(m, out[i]), Without(out, i))
  {
    ReturnKeepsPlaces(m, out, i);
    ResetOk(m.buffers[out[i]]);
    hide Partition, BufferOk, Reset, Without;
    SamePlacesPartition(m, out, ReturnBuffer(m, out[i]), Without(out, i));
  }

  lemma ResetsKeepOk(m: Manager, out: seq<nat>)
    requires ManagerOk(m, out) && IdsOk(m)
    ensures ManagerOk(CheckPendingResets(m), out)
  {
    CheckPendingResetsKeepsPlaces(m, out);
    hide Partition, BufferOk, CheckPendingResets;
    CheckPendingResetsSpares(m);
    SamePlacesPartition(m, out, CheckPendingResets(m), out);
  }

  lemma BufferKeepsOk(m: Manager, out: seq<nat>, b: nat, x: Buffer)
    requires ManagerOk(m, out) && b < |m.buffers| && BufferOk(x)
    ensures ManagerOk(m.(buffers := m.buffers[b := x]), out)
  {
    hide BufferOk;
    var m' := m.(buffers := m.buffers[b := x]);
    assert SamePlaces(m, out, m', out);
  }

  /** Every operation keeps every buffer in exactly one place: no enqueue fails and nothing is lost. */
  lemma StepKeepsOk(m: Manager, out: seq<nat>, op: Op)
    requires ManagerOk(m, out) && Enabled(m, out, op)
    ensures ManagerOk(Apply(m, out, op).0, Apply(m, out, op).1)
  {
    PlacesAreIds(m, out);
    BuffersAreOk(m, out);
    hide ManagerOk, IdsOk, BufferOk, CheckBackpressure, CheckPendingResets, AllocSlot, MarkComplete, ReleaseSlot,
        SubmitCurrent, ReturnBuffer, TakePending, Reserve, Without;
    match op
    case Reserving(len, memory) =>
      BackpressureKeepsOk(m, out, memory);
      ReserveKeepsOk(CheckBackpressure(m, memory), out, len);
    case Submitting => SubmitKeepsOk(m, out);
    case Polling(max) => PollKeepsOk(m, out, max);
    case Returning(i) => ReturnKeepsOk(m, out, i);
    case CheckingResets => ResetsKeepOk(m, out);
    case AllocatingSlot(b, size) =>
      TakeOk(m.buffers[b], size);
      BufferKeepsOk(m, out, b, AllocSlot(m.buffers[b], size).0);
    case CompletingSlot(b, id) =>
      SlotOpsOk(m.buffers[b], id);
      BufferKeepsOk(m, out, b, MarkComplete(m.buffers[b], id));
    case ReleasingSlot(b, id) =>
      SlotOpsOk(m.buffers[b], id);
      BufferKeepsOk(m, out, b, ReleaseSlot(m.buffers[b], id));
  }

  lemma BuffersAreOk(m: Manager, out: seq<nat>)
    requires ManagerOk(m, out)
    ensures forall b :: 0 <= b < |m.buffers| ==> BufferOk(m.buffers[b]) && |m.buffers[b].slots| == MAX_SLOTS
  {
    hide Partition;
  }

  predicate KeepsSlot(b: Buffer, b': Buffer, id: nat)
    requires id < |b.slots|
  {
    && |b'.slots| == |b.slots| && b'.used >= b.used
    && b'.slots[id].(complete := b.slots[id].complete) == b.slots[id]
  }

  lemma BufferOpsKeepSlot(b: Buffer, op: Op, id: nat)
    requires BufferOk(b) && id < MAX_SLOTS && b.slots[id].isAllocated
    ensures op.Reserving? ==> KeepsSlot(b, Take(b, op.len).0, id)
    ensures op.AllocatingSlot? ==> KeepsSlot(b, AllocSlot(b, op.size).0, id)
    ensures op.CompletingSlot? ==> KeepsSlot(b, MarkComplete(b, op.id), id)
    ensures op.ReleasingSlot? && op.id != id ==> KeepsSlot(b, ReleaseSlot(b, op.id), id)
    ensures KeepsSlot(b, b, id)
  {
  }

  /** A slot stays allocated, at its place in its buffer, until it is released. */
  lemma SlotsAreKept(m: Manager, out: seq<nat>, op: Op, b: nat, id: nat)
    requires ManagerOk(m, out) && Enabled(m, out, op)
    requires b < |m.buffers| && id < MAX_SLOTS && m.buffers[b].slots[id].isAllocated
    requires op != ReleasingSlot(b, id)
    ensures var m' := Apply(m, out, op).0;
      b < |m'.buffers| && KeepsSlot(m.buffers[b], m'.buffers[b], id)
  {
    PlacesAreIds(m, out);
    ResetOnlyWithoutSlots(m.buffers[b]);
    BufferOpsKeepSlot(m.buffers[b], op, id);
    hide Partition, CheckBackpressure, CheckPendingResets, Take, AllocSlot, MarkComplete, ReleaseSlot, Reset, BufferOk;
    match op
    case Reserving(_, memory) =>
      BackpressureKeepsOk(m, out, memory);
      BackpressureKeepsBuffers(m, memory);
    case CheckingResets =>
      CheckPendingResetsSpares(m);
    case Returning(i) =>
    case Submitting =>
    case Polling(_) =>
    case AllocatingSlot(_, _) =>
    case CompletingSlot(_, _) =>
    case ReleasingSlot(_, _) =>
  }

  ghost predicate RunFrom(m: Manager, out: seq<nat>, ops: seq<Op>)
    requires ManagerOk(m, out)
    decreases |ops|
  {
    ops == [] ||
    (Enabled(m, out, ops[0]) &&
     (StepKeepsOk(m, out, ops[0]);
      var r := Apply(m, out, ops[0]);
      RunFrom(r.0, r.1, ops[1..])))
  }

  ghost function After(m: Manager, out: seq<nat>, ops: seq<Op>): (Manager, seq<nat>)
    requires ManagerOk(m, out) && RunFrom(m, out, ops)
    decreases |ops|
  {
    if ops == [] then (m, out) else
      StepKeepsOk(m, out, ops[0]);
      var r := Apply(m, out, ops[0]); After(r.0, r.1, ops[1..])
  }

  /** Over every run, whatever the order: each buffer in exactly one place, its slots counted and apart. */
  lemma {:induction false} RunKeepsOk(m: Manager, out: seq<nat>, ops: seq<Op>)
    requires ManagerOk(m, out) && RunFrom(m, out, ops)
    ensures ManagerOk(After(m, out, ops).0, After(m, out, ops).1)
    decreases |ops|
  {
    hide ManagerOk;
    if ops != [] {
      StepKeepsOk(m, out, ops[0]);
      var r := Apply(m, out, ops[0]);
      RunKeepsOk(r.0, r.1, ops[1..]);
    }
  }

  // ---------------------------------------------------------------------------------------------
  // The start, and an idle manager
  // ---------------------------------------------------------------------------------------------

  lemma {:induction false} WithBuffersPlaces(bufferSize: nat, count: nat)
    ensures var m := WithBuffers(bufferSize, count);
      && |m.buffers| == count && |m.completeRing| == Min(count, MAX_BUFFERS)
      && m.active == None && m.submitRing == [] && m.resetQueue == []
      && (forall x: nat :: Count(m.completeRing, x) == if x < Min(count, MAX_BUFFERS) then 1 else 0)
      && (forall b :: 0 <= b < count ==> BufferOk(m.buffers[b]))
    decreases count
  {
    if count > 0 {
      WithBuffersPlaces(bufferSize, count - 1);
      NewBufferOk(bufferSize);
      var m1 := WithBuffers(bufferSize, count - 1);
      if count <= MAX_BUFFERS {
        forall x: nat
          ensures Count(Put(m1.completeRing, count - 1), x)
               == Count(m1.completeRing, x) + (if x == count - 1 then 1 else 0)
        {
          CountPut(m1.completeRing, count - 1, x);
        }
      }
    }
  }

  /** A manager set up with more than 16 buffers drops the rest; with up to 16 it starts with all in place. */
  lemma InitializeKeepsAllIff(bufferSize: nat, count: nat)
    ensures ManagerOk(Initialize(bufferSize, count), []) <==> count <= MAX_BUFFERS
    ensures Initialize(bufferSize, count).active.Some? <==> count > 0
  {
    WithBuffersPlaces(bufferSize, count);
    var m := WithBuffers(bufferSize, count);
    ActivateKeepsPlaces(m, []);
    if count <= MAX_BUFFERS {
      assert Partition(m, []);
      SamePlacesPartition(m, [], Activate(m), []);
    } else {
      assert PlaceTotal(Activate(m), []) == MAX_BUFFERS;
    }
  }

  /** There is an active buffer whenever one is free. */
  predicate Fed(m: Manager) {
    m.active == None ==> m.completeRing == []
  }

  lemma {:induction false} CheckPendingResetsGrows(m: Manager)
    requires IdsOk(m) && |m.completeRing| + |m.resetQueue| <= MAX_BUFFERS
    ensures CheckPendingResets(m).active == m.active
    ensures CheckPendingResets(m).completeRing == []
      <==> m.completeRing == [] && (m.resetQueue == [] || !m.buffers[m.resetQueue[0]].CanReset())
    decreases |m.resetQueue|
  {
    if !(m.resetQueue == [] || !m.buffers[m.resetQueue[0]].CanReset()) {
      FreedIds(m);
      CheckPendingResetsGrows(Freed(m, m.resetQueue[0]).(resetQueue := m.resetQueue[1..]));
    }
  }

  /**
   Every operation keeps a free buffer from lying beside no active one, but for one: freeing waiting buffers
   leaves the manager without an active buffer if it had none.
   */
  lemma FedIsKeptUnless(m: Manager, out: seq<nat>, op: Op)
    requires ManagerOk(m, out) && Enabled(m, out, op) && Fed(m) && IdsOk(m)
    ensures Fed(Apply(m, out, op).0)
      <==> !(op.CheckingResets? && m.active == None && m.resetQueue != [] && m.buffers[m.resetQueue[0]].CanReset())
  {
    if op.CheckingResets? {
      CheckPendingResetsGrows(m);
    }
  }

  // ---------------------------------------------------------------------------------------------
  // A run that leaves the manager without an active buffer
  // ---------------------------------------------------------------------------------------------

  /** A slot is taken, the buffer goes its way and comes back, the slot is released, the buffer is reset. */
  function UnfeedingRun(size: nat): seq<Op> {
    [AllocatingSlot(0, size), Submitting, Polling(1), Returning(0), ReleasingSlot(0, 0), CheckingResets]
  }

  function Lone(b: Buffer): Manager {
    Manager(b.capacity, [b], None, [], [], [], false)
  }

  /** One more operation before a run. */
  lemma RunsOn(m: Manager, out: seq<nat>, op: Op, m': Manager, out': seq<nat>, ops: seq<Op>)
    requires ManagerOk(m, out) && Enabled(m, out, op) && Apply(m, out, op) == (m', out')
    requires ManagerOk(m', out') && RunFrom(m', out', ops)
    ensures RunFrom(m, out, [op] + ops) && After(m, out, [op] + ops) == After(m', out', ops)
  {
    hide Apply, ManagerOk, Enabled;
    assert ([op] + ops)[1..] == ops;
  }

  lemma StepTo(m: Manager, out: seq<nat>, op: Op, m': Manager, out': seq<nat>)
    requires ManagerOk(m, out) && Enabled(m, out, op) && Apply(m, out, op) == (m', out')
    ensures ManagerOk(m', out')
  {
    StepKeepsOk(m, out, op);
  }

  /** The steps of that run, each with the state it leads to. */
  lemma UnfeedingSteps(size: nat, bufferSize: nat)
    requires 0 < size <= bufferSize
    ensures var b := NewBuffer(bufferSize);
      var b1 := AllocSlot(b, size).0;
      var b2 := ReleaseSlot(b1, 0);
      && Initialize(bufferSize, 1) == Lone(b).(active := Some(0)) && !b1.CanReset() && b2.CanReset()
      && b1.used == size && b.capacity == b1.capacity == b2.capacity == bufferSize
      && |b.slots| == |b1.slots| == |b2.slots| == MAX_SLOTS
      && Fed(Lone(b).(active := Some(0))) && !Fed(Lone(b2).(completeRing := [0], buffers := [Reset(b2)]))
  {
    var b := NewBuffer(bufferSize);
    assert WithBuffers(bufferSize, 0).buffers == [];
    assert WithBuffers(bufferSize, 1).buffers == [b] && WithBuffers(bufferSize, 1).completeRing == [0];
  }

  lemma TakeSlot(b: Buffer, size: nat)
    requires |b.slots| == MAX_SLOTS && ManagerOk(Lone(b).(active := Some(0)), [])
    ensures Apply(Lone(b).(active := Some(0)), [], AllocatingSlot(0, size))
         == (Lone(b).(active := Some(0), buffers := [AllocSlot(b, size).0]), [])
  {
    assert [b][0 := AllocSlot(b, size).0] == [AllocSlot(b, size).0];
  }

  lemma SubmitLone(b: Buffer)
    requires b.used > 0 && ManagerOk(Lone(b).(active := Some(0)), [])
    ensures Apply(Lone(b).(active := Some(0)), [], Submitting) == (Lone(b).(submitRing := [0]), [])
  {
    var ring: seq<nat> := [];
    assert ring + [0] == [0];
  }

  lemma PollLone(b: Buffer)
    requires ManagerOk(Lone(b).(submitRing := [0]), [])
    ensures Apply(Lone(b).(submitRing := [0]), [], Polling(1)) == (Lone(b), [0])
  {
    var one, none: seq<nat> := [0], [];
    assert one[1..] == none && one[..1] == one && none + one == one;
  }

  lemma ReturnLone(b: Buffer)
    requires !b.CanReset() && ManagerOk(Lone(b), [0])
    ensures Apply(Lone(b), [0], Returning(0)) == (Lone(b).(resetQueue := [0]), [])
  {
    var one, none: seq<nat> := [0], [];
    assert one[..0] + one[1..] == none && none + one == one;
  }

  lemma ReleaseLone(b: Buffer)
    requires |b.slots| == MAX_SLOTS && ManagerOk(Lone(b).(resetQueue := [0]), [])
    ensures Apply(Lone(b).(resetQueue := [0]), [], ReleasingSlot(0, 0))
         == (Lone(b).(resetQueue := [0], buffers := [ReleaseSlot(b, 0)]), [])
  {
    assert [b][0 := ReleaseSlot(b, 0)] == [ReleaseSlot(b, 0)];
  }

  lemma ResetLone(b: Buffer)
    requires b.CanReset() && ManagerOk(Lone(b).(resetQueue := [0]), [])
    ensures Apply(Lone(b).(resetQueue := [0]), [], CheckingResets)
         == (Lone(b).(completeRing := [0], buffers := [Reset(b)]), [])
  {
    var one, none: seq<nat> := [0], [];
    assert one[1..] == none && none + one == one && [b][0 := Reset(b)] == [Reset(b)];
    var m := Freed(Lone(b).(resetQueue := [0]), 0).(resetQueue := []);
    assert CheckPendingResets(m) == m;
    assert m == Lone(b).(completeRing := [0], buffers := [Reset(b)]);
  }

  /** The second half: the buffer in flight comes back, its slot is released, it is reset. */
  lemma BackAndReset(b1: Buffer, b2: Buffer)
    requires ManagerOk(Lone(b1), [0]) && |b1.slots| == MAX_SLOTS && b2 == ReleaseSlot(b1, 0)
    requires b2.capacity == b1.capacity && !b1.CanReset() && b2.CanReset()
    ensures var ops := [Returning(0)] + ([ReleasingSlot(0, 0)] + ([CheckingResets] + []));
      && RunFrom(Lone(b1), [0], ops)
      && After(Lone(b1), [0], ops) == (Lone(b2).(completeRing := [0], buffers := [Reset(b2)]), [])
  {
    var m4, m5 := Lone(b1).(resetQueue := [0]), Lone(b2).(resetQueue := [0]);
    var m6 := Lone(b2).(completeRing := [0], buffers := [Reset(b2)]);
    assert m4.(buffers := [b2]) == m5 && |m4.buffers| == |m5.buffers| == 1;
    hide Apply, ManagerOk, RunFrom, After, ReleaseSlot, Reset, Lone;
    ReturnLone(b1);
    StepTo(Lone(b1), [0], Returning(0), m4, []);
    ReleaseLone(b1);
    StepTo(m4, [], ReleasingSlot(0, 0), m5, []);
    ResetLone(b2);
    StepTo(m5, [], CheckingResets, m6, []);
    NoOps(m6, []);
    RunsOn(m5, [], CheckingResets, m6, [], []);
    RunsOn(m4, [], ReleasingSlot(0, 0), m5, [], [CheckingResets] + []);
    RunsOn(Lone(b1), [0], Returning(0), m4, [], [ReleasingSlot(0, 0)] + ([CheckingResets] + []));
  }

  /** The first half: a slot is taken, and the buffer goes into flight. */
  lemma OutWithSlot(b0: Buffer, b1: Buffer, size: nat, late: seq<Op>)
    requires ManagerOk(Lone(b0).(active := Some(0)), []) && |b0.slots| == MAX_SLOTS
    requires b1 == AllocSlot(b0, size).0 && b1.capacity == b0.capacity && b1.used > 0
    ensures ManagerOk(Lone(b1), [0])
    ensures RunFrom(Lone(b1), [0], late) ==>
      var ops := [AllocatingSlot(0, size)] + ([Submitting] + ([Polling(1)] + late));
      && RunFrom(Lone(b0).(active := Some(0)), [], ops)
      && After(Lone(b0).(active := Some(0)), [], ops) == After(Lone(b1), [0], late)
  {
    var m0, m1, m2 := Lone(b0).(active := Some(0)), Lone(b1).(active := Some(0)), Lone(b1).(submitRing := [0]);
    assert m0.(buffers := [b1]) == m1 && |m0.buffers| == 1;
    hide Apply, ManagerOk, RunFrom, After, AllocSlot, Lone;
    TakeSlot(b0, size);
    StepTo(m0, [], AllocatingSlot(0, size), m1, []);
    SubmitLone(b1);
    StepTo(m1, [], Submitting, m2, []);
    PollLone(b1);
    StepTo(m2, [], Polling(1), Lone(b1), [0]);
    if RunFrom(Lone(b1), [0], late) {
      RunsOn(m2, [], Polling(1), Lone(b1), [0], late);
      RunsOn(m1, [], Submitting, m2, [], [Polling(1)] + late);
      RunsOn(m0, [], AllocatingSlot(0, size), m1, [], [Submitting] + ([Polling(1)] + late));
    }
  }

  /** A manager with one buffer can be left with that buffer free and none active. */
  lemma UnfedRun(size: nat, bufferSize: nat)
    requires 0 < size <= bufferSize
    ensures var m := Initialize(bufferSize, 1);
      && ManagerOk(m, []) && Fed(m) && RunFrom(m, [], UnfeedingRun(size))
      && !Fed(After(m, [], UnfeedingRun(size)).0)
  {
    UnfeedingSteps(size, bufferSize);
    InitializeKeepsAllIff(bufferSize, 1);
    var b0 := NewBuffer(bufferSize);
    var b1 := AllocSlot(b0, size).0;
    var b2 := ReleaseSlot(b1, 0);
    hide *;
    var late := [Returning(0)] + ([ReleasingSlot(0, 0)] + ([CheckingResets] + []));
    OutWithSlot(b0, b1, size, late);
    BackAndReset(b1, b2);
    UnfeedingIs(size);
  }

  lemma UnfeedingIs(size: nat)
    ensures UnfeedingRun(size) == [AllocatingSlot(0, size)] + ([Submitting] + ([Polling(1)]
      + ([Returning(0)] + ([ReleasingSlot(0, 0)] + ([CheckingResets] + [])))))
  {
  }

  lemma NoOps(m: Manager, out: seq<nat>)
    requires ManagerOk(m, out)
    ensures RunFrom(m, out, []) && After(m, out, []) == (m, out)
  {
  }
}
