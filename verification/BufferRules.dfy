/** The append buffers and the stages they pass through; a buffer is known by its position among all buffers. */
module BufferRules {
  // A buffer is being filled, waiting for submission, in flight, waiting for a reset, or free.

  import opened Types
  import opened SimpleRings

  const APPEND_BUFFER_SIZE: nat := 2 * 1024 * 1024
  const FLUSH_THRESHOLD: nat := APPEND_BUFFER_SIZE - 64 * 1024
  const MAX_BUFFERS: nat := 16
  const RING_SLOTS: nat := MAX_BUFFERS + 1
  const HIGH_WATER: nat := 12
  const LOW_WATER: nat := 6
  const MAX_SLOTS: nat := 64

  // ---------------------------------------------------------------------------------------------
  // One buffer
  // ---------------------------------------------------------------------------------------------

  datatype RdmaSlot = RdmaSlot(isAllocated: bool, complete: bool, offset: nat, size: nat)

  const NO_SLOT := RdmaSlot(false, false, 0, 0)

  datatype Buffer = Buffer(
    capacity: nat,
    used: nat,
    entries: nat,
    epoch: u32,
    nextSlot: nat,
    activeSlots: int,
    slots: seq<RdmaSlot>)
  {
    predicate CanReset() {
      activeSlots == 0
    }

    predicate IsFull() {
      used >= FLUSH_THRESHOLD
    }
  }

  function NewBuffer(capacity: nat): Buffer {
    Buffer(capacity, 0, 0, 0, 0, 0, seq(MAX_SLOTS, _ => NO_SLOT))
  }

  function Reset(b: Buffer): Buffer {
    Buffer(b.capacity, 0, 0, (b.epoch + 1) % TWO32, 0, 0, seq(MAX_SLOTS, _ => NO_SLOT))
  }

  /** Takes len bytes behind what is used; the result is where they start. */
  function Take(b: Buffer, len: nat): (Buffer, Option<nat>) {
    if b.used + len > b.capacity then (b, None)
    else (b.(used := b.used + len, entries := b.entries + 1), Some(b.used))
  }

  function AllocSlot(b: Buffer, size: nat): (Buffer, Option<nat>)
    requires |b.slots| == MAX_SLOTS
  {
    if b.nextSlot >= MAX_SLOTS then (b, None) else
      var (b', at) := Take(b, size);
      if at == None then (b, None) else
        (b'.(nextSlot := b.nextSlot + 1, activeSlots := b.activeSlots + 1,
             slots := b.slots[b.nextSlot := RdmaSlot(true, false, at.value, size)]), Some(b.nextSlot))
  }

  function MarkComplete(b: Buffer, id: nat): Buffer
    requires |b.slots| == MAX_SLOTS
  {
    if id < MAX_SLOTS then b.(slots := b.slots[id := b.slots[id].(complete := true)]) else b
  }

  function ReleaseSlot(b: Buffer, id: nat): Buffer
    requires |b.slots| == MAX_SLOTS
  {
    if id < MAX_SLOTS && b.slots[id].isAllocated then
      b.(slots := b.slots[id := b.slots[id].(isAllocated := false)], activeSlots := b.activeSlots - 1)
    else b
  }

  /** How many of the first n slots are allocated. */
  function AllocatedTo(slots: seq<RdmaSlot>, n: nat): (c: nat)
    requires n <= |slots|
    ensures c <= n
  {
    if n == 0 then 0 else AllocatedTo(slots, n - 1) + (if slots[n - 1].isAllocated then 1 else 0)
  }

  /** The counter counts the allocated slots, which lie one behind the other in the used part. */
  ghost predicate BufferOk(b: Buffer) {
    && b.used <= b.capacity
    && |b.slots| == MAX_SLOTS && b.nextSlot <= MAX_SLOTS
    && b.activeSlots == AllocatedTo(b.slots, MAX_SLOTS)
    && (forall i :: b.nextSlot <= i < MAX_SLOTS ==> !b.slots[i].isAllocated)
    && (forall i :: 0 <= i < b.nextSlot ==> b.slots[i].offset + b.slots[i].size <= b.used)
    && (forall i, j :: 0 <= i < j < b.nextSlot ==> b.slots[i].offset + b.slots[i].size <= b.slots[j].offset)
  }

  lemma {:induction false} NoneAllocated(slots: seq<RdmaSlot>, n: nat)
    requires n <= |slots|
    ensures AllocatedTo(slots, n) == 0 <==> forall i :: 0 <= i < n ==> !slots[i].isAllocated
  {
    if n > 0 {
      NoneAllocated(slots, n - 1);
    }
  }

  lemma {:induction false} AllocatedUpdate(slots: seq<RdmaSlot>, n: nat, i: nat, x: RdmaSlot)
    requires n <= |slots| && i < |slots|
    ensures AllocatedTo(slots[i := x], n) == AllocatedTo(slots, n)
         + (if i < n && x.isAllocated then 1 else 0) - (if i < n && slots[i].isAllocated then 1 else 0)
  {
    if n > 0 {
      AllocatedUpdate(slots, n - 1, i, x);
    }
  }

  /** A buffer may be reset exactly when none of its slots is allocated. */
  lemma ResetOnlyWithoutSlots(b: Buffer)
    requires BufferOk(b)
    ensures b.CanReset() <==> forall i :: 0 <= i < MAX_SLOTS ==> !b.slots[i].isAllocated
  {
    NoneAllocated(b.slots, MAX_SLOTS);
  }

  lemma NewBufferOk(capacity: nat)
    ensures BufferOk(NewBuffer(capacity)) && NewBuffer(capacity).CanReset()
  {
    NoneAllocated(NewBuffer(capacity).slots, MAX_SLOTS);
  }

  lemma ResetOk(b: Buffer)
    requires BufferOk(b)
    ensures BufferOk(Reset(b)) && Reset(b).CanReset()
  {
    NoneAllocated(Reset(b).slots, MAX_SLOTS);
  }

  /** Every operation on a buffer keeps its slots counted and apart. */
  lemma TakeOk(b: Buffer, len: nat)
    requires BufferOk(b)
    ensures BufferOk(Take(b, len).0) && BufferOk(AllocSlot(b, len).0)
  {
    if b.nextSlot < MAX_SLOTS {
      AllocatedUpdate(b.slots, MAX_SLOTS, b.nextSlot, RdmaSlot(true, false, b.used, len));
    }
  }

  lemma SlotOpsOk(b: Buffer, id: nat)
    requires BufferOk(b)
    ensures BufferOk(MarkComplete(b, id)) && BufferOk(ReleaseSlot(b, id))
  {
    if id < MAX_SLOTS {
      AllocatedUpdate(b.slots, MAX_SLOTS, id, b.slots[id].(complete := true));
      AllocatedUpdate(b.slots, MAX_SLOTS, id, b.slots[id].(isAllocated := false));
    }
  }

  // ---------------------------------------------------------------------------------------------
  // The manager
  // ---------------------------------------------------------------------------------------------

  datatype Manager = Manager(
    bufferSize: nat,
    buffers: seq<Buffer>,
    active: Option<nat>,
    submitRing: seq<nat>,
    completeRing: seq<nat>,
    resetQueue: seq<nat>,
    backpressure: bool)

  function Put(ring: seq<nat>, b: nat): seq<nat> {
    Enqueued(ring, b, RING_SLOTS)
  }

  /** If there is no active buffer, the first free one becomes it. */
  function Activate(m: Manager): Manager {
    if m.active == None && m.completeRing != [] then
      m.(active := Some(m.completeRing[0]), completeRing := m.completeRing[1..])
    else m
  }

  function WithBuffers(bufferSize: nat, count: nat): Manager {
    if count == 0 then Manager(bufferSize, [], None, [], [], [], false) else
      var m := WithBuffers(bufferSize, count - 1);
      m.(buffers := m.buffers + [NewBuffer(bufferSize)], completeRing := Put(m.completeRing, count - 1))
  }

  function Initialize(bufferSize: nat, count: nat): Manager {
    Activate(WithBuffers(bufferSize, count))
  }

  predicate IdsOk(m: Manager) {
    && (m.active.Some? ==> m.active.value < |m.buffers|)
    && (forall i :: 0 <= i < |m.submitRing| ==> m.submitRing[i] < |m.buffers|)
    && (forall i :: 0 <= i < |m.completeRing| ==> m.completeRing[i] < |m.buffers|)
    && (forall i :: 0 <= i < |m.resetQueue| ==> m.resetQueue[i] < |m.buffers|)
  }

  function SubmitCurrent(m: Manager): Manager
    requires IdsOk(m)
  {
    if m.active == None || m.buffers[m.active.value].used == 0 then m
    else Activate(m.(active := None, submitRing := Put(m.submitRing, m.active.value)))
  }

  function TakePending(m: Manager, max: nat): (Manager, seq<nat>) {
    var n := Min(|m.submitRing|, max);
    (m.(submitRing := m.submitRing[n..]), m.submitRing[..n])
  }

  function Freed(m: Manager, b: nat): Manager
    requires b < |m.buffers|
  {
    m.(buffers := m.buffers[b := Reset(m.buffers[b])], completeRing := Put(m.completeRing, b))
  }

  function ReturnBuffer(m: Manager, b: nat): Manager
    requires b < |m.buffers|
  {
    if !m.buffers[b].CanReset() then m.(resetQueue := m.resetQueue + [b])
    else Activate(Freed(m, b))
  }

  /** The front of the reset queue is freed while it can be. The active buffer is left as it is. */
  function CheckPendingResets(m: Manager): Manager
    requires IdsOk(m)
    decreases |m.resetQueue|
  {
    if m.resetQueue == [] || !m.buffers[m.resetQueue[0]].CanReset() then m
    else CheckPendingResets(Freed(m, m.resetQueue[0]).(resetQueue := m.resetQueue[1..]))
  }

  function TryExpand(m: Manager, memory: bool): (Manager, bool) {
    if |m.buffers| >= MAX_BUFFERS || !memory then (m, false)
    else (Activate(m.(buffers := m.buffers + [NewBuffer(m.bufferSize)],
                      completeRing := Put(m.completeRing, |m.buffers|))), true)
  }

  function CheckBackpressure(m: Manager, memory: bool): Manager {
    if m.backpressure then m.(backpressure := |m.submitRing| > LOW_WATER)
    else if |m.submitRing| >= HIGH_WATER then
      var (m', expanded) := TryExpand(m, memory);
      m'.(backpressure := !expanded)
    else m
  }

  /** Takes len bytes of the active buffer, below the flush threshold. */
  function Reserve(m: Manager, len: nat): (Manager, Option<nat>)
    requires IdsOk(m)
  {
    if m.active == None || m.buffers[m.active.value].used + len > FLUSH_THRESHOLD then (m, None)
    else
      var (b, at) := Take(m.buffers[m.active.value], len);
      (m.(buffers := m.buffers[m.active.value := b]), at)
  }

  // ---------------------------------------------------------------------------------------------
  // Every buffer is in exactly one place
  // ---------------------------------------------------------------------------------------------

  function Count(s: seq<nat>, x: nat): (c: nat)
    ensures c <= |s|
  {
    if s == [] then 0 else Count(s[..|s| - 1], x) + (if s[|s| - 1] == x then 1 else 0)
  }

  /** In how many places buffer x is; out are the buffers in flight. */
  function PlaceCount(m: Manager, out: seq<nat>, x: nat): nat {
    (if m.active == Some(x) then 1 else 0) + Count(m.submitRing, x) + Count(m.completeRing, x)
      + Count(m.resetQueue, x) + Count(out, x)
  }

  /** How many places there are. */
  function PlaceTotal(m: Manager, out: seq<nat>): nat {
    (if m.active.Some? then 1 else 0) + |m.submitRing| + |m.completeRing| + |m.resetQueue| + |out|
  }

  /** Each buffer is in exactly one of the five places, and none of them holds anything else. */
  ghost predicate Partition(m: Manager, out: seq<nat>) {
    && PlaceTotal(m, out) == |m.buffers|
    && forall x: nat :: PlaceCount(m, out, x) == if x < |m.buffers| then 1 else 0
  }

  lemma {:induction false} CountConcat(a: seq<nat>, b: seq<nat>, x: nat)
    ensures Count(a + b, x) == Count(a, x) + Count(b, x)
    decreases |b|
  {
    if b == [] {
      assert a + b == a;
    } else {
      assert (a + b)[..|a + b| - 1] == a + b[..|b| - 1];
      CountConcat(a, b[..|b| - 1], x);
    }
  }

  lemma CountOne(b: nat, x: nat)
    ensures Count([b], x) == if b == x then 1 else 0
  {
    assert [b][..0] == [];
  }

  lemma CountPut(ring: seq<nat>, b: nat, x: nat)
    requires |ring| < MAX_BUFFERS
    ensures Count(Put(ring, b), x) == Count(ring, x) + (if b == x then 1 else 0)
  {
    CountConcat(ring, [b], x);
    CountOne(b, x);
  }

  lemma CountSplit(q: seq<nat>, n: nat, x: nat)
    requires n <= |q|
    ensures Count(q, x) == Count(q[..n], x) + Count(q[n..], x)
  {
    CountConcat(q[..n], q[n..], x);
    assert q[..n] + q[n..] == q;
  }

  lemma CountFirst(q: seq<nat>, x: nat)
    requires q != []
    ensures Count(q, x) == (if q[0] == x then 1 else 0) + Count(q[1..], x)
  {
    CountSplit(q, 1, x);
    CountOne(q[0], x);
    assert q[..1] == [q[0]];
  }

  lemma CountWithout(q: seq<nat>, i: nat, x: nat)
    requires i < |q|
    ensures Count(q, x) == Count(q[..i] + q[i + 1..], x) + (if q[i] == x then 1 else 0)
  {
    CountSplit(q, i, x);
    CountFirst(q[i..], x);
    assert q[i..][1..] == q[i + 1..];
    CountConcat(q[..i], q[i + 1..], x);
  }

  lemma {:induction false} CountMember(q: seq<nat>, i: nat)
    requires i < |q|
    ensures Count(q, q[i]) > 0
  {
    CountWithout(q, i, q[i]);
  }

  /** Whatever is in a place is a buffer. */
  lemma PlacesAreIds(m: Manager, out: seq<nat>)
    requires Partition(m, out)
    ensures IdsOk(m) && forall i :: 0 <= i < |out| ==> out[i] < |m.buffers|
  {
    if m.active.Some? {
      assert PlaceCount(m, out, m.active.value) > 0;
    }
    forall i | 0 <= i < |m.submitRing|
      ensures m.submitRing[i] < |m.buffers|
    {
      CountMember(m.submitRing, i);
      assert PlaceCount(m, out, m.submitRing[i]) > 0;
    }
    forall i | 0 <= i < |m.completeRing|
      ensures m.completeRing[i] < |m.buffers|
    {
      CountMember(m.completeRing, i);
      assert PlaceCount(m, out, m.completeRing[i]) > 0;
    }
    forall i | 0 <= i < |m.resetQueue|
      ensures m.resetQueue[i] < |m.buffers|
    {
      CountMember(m.resetQueue, i);
      assert PlaceCount(m, out, m.resetQueue[i]) > 0;
    }
    forall i | 0 <= i < |out|
      ensures out[i] < |m.buffers|
    {
      CountMember(out, i);
      assert PlaceCount(m, out, out[i]) > 0;
    }
  }

  /** Two managers whose places hold the same. */
  ghost predicate SamePlaces(m: Manager, out: seq<nat>, m': Manager, out': seq<nat>) {
    PlaceTotal(m', out') == PlaceTotal(m, out) && forall x: nat :: PlaceCount(m', out', x) == PlaceCount(m, out, x)
  }

  lemma ActivateKeepsPlaces(m: Manager, out: seq<nat>)
    ensures SamePlaces(m, out, Activate(m), out)
  {
    if m.active == None && m.completeRing != [] {
      forall x: nat
        ensures PlaceCount(Activate(m), out, x) == PlaceCount(m, out, x)
      {
        CountFirst(m.completeRing, x);
      }
    }
  }

  lemma SubmitKeepsPlaces(m: Manager, out: seq<nat>)
    requires IdsOk(m) && PlaceTotal(m, out) <= MAX_BUFFERS
    ensures SamePlaces(m, out, SubmitCurrent(m), out)
  {
    if !(m.active == None || m.buffers[m.active.value].used == 0) {
      var m' := m.(active := None, submitRing := Put(m.submitRing, m.active.value));
      forall x: nat
        ensures PlaceCount(m', out, x) == PlaceCount(m, out, x)
      {
        CountPut(m.submitRing, m.active.value, x);
      }
      ActivateKeepsPlaces(m', out);
    }
  }

  lemma TakePendingKeepsPlaces(m: Manager, out: seq<nat>, max: nat)
    ensures SamePlaces(m, out, TakePending(m, max).0, out + TakePending(m, max).1)
  {
    var n := Min(|m.submitRing|, max);
    var (m', batch) := TakePending(m, max);
    forall x: nat
      ensures PlaceCount(m', out + batch, x) == PlaceCount(m, out, x)
    {
      CountSplit(m.submitRing, n, x);
      CountConcat(out, batch, x);
    }
  }

  /** Taking buffer i of those in flight. */
  function Without(out: seq<nat>, i: nat): seq<nat>
    requires i < |out|
  {
    out[..i] + out[i + 1..]
  }

  lemma FreedAddsPlace(m: Manager, out: seq<nat>, b: nat)
    requires b < |m.buffers| && PlaceTotal(m, out) < MAX_BUFFERS
    ensures PlaceTotal(Freed(m, b), out) == PlaceTotal(m, out) + 1
    ensures forall x: nat :: PlaceCount(Freed(m, b), out, x) == PlaceCount(m, out, x) + (if x == b then 1 else 0)
  {
    forall x: nat
      ensures PlaceCount(Freed(m, b), out, x) == PlaceCount(m, out, x) + (if x == b then 1 else 0)
    {
      CountPut(m.completeRing, b, x);
    }
  }

  /** Returning b, which is in flight once more in out than in rest. */
  lemma ReturnMovesPlace(m: Manager, out: seq<nat>, rest: seq<nat>, b: nat)
    requires b < |m.buffers| && PlaceTotal(m, out) <= MAX_BUFFERS && |out| == |rest| + 1
    requires forall x: nat :: Count(out, x) == Count(rest, x) + (if x == b then 1 else 0)
    ensures SamePlaces(m, out, ReturnBuffer(m, b), rest)
  {
    if m.buffers[b].CanReset() {
      FreedAddsPlace(m, rest, b);
      ActivateKeepsPlaces(Freed(m, b), rest);
    } else {
      forall x: nat
        ensures PlaceCount(ReturnBuffer(m, b), rest, x) == PlaceCount(m, out, x)
      {
        CountConcat(m.resetQueue, [b], x);
        CountOne(b, x);
      }
    }
  }

  lemma ReturnKeepsPlaces(m: Manager, out: seq<nat>, i: nat)
    requires i < |out| && out[i] < |m.buffers| && PlaceTotal(m, out) <= MAX_BUFFERS
    ensures SamePlaces(m, out, ReturnBuffer(m, out[i]), Without(out, i))
  {
    forall x: nat
      ensures Count(out, x) == Count(Without(out, i), x) + (if x == out[i] then 1 else 0)
    {
      CountWithout(out, i, x);
    }
    ReturnMovesPlace(m, out, Without(out, i), out[i]);
  }

  lemma FreeFrontKeepsPlaces(m: Manager, out: seq<nat>)
    requires IdsOk(m) && m.resetQueue != [] && PlaceTotal(m, out) <= MAX_BUFFERS
    ensures SamePlaces(m, out, Freed(m, m.resetQueue[0]).(resetQueue := m.resetQueue[1..]), out)
  {
    var b := m.resetQueue[0];
    var m1 := m.(resetQueue := m.resetQueue[1..]);
    forall x: nat
      ensures PlaceCount(m, out, x) == PlaceCount(m1, out, x) + (if x == b then 1 else 0)
    {
      CountFirst(m.resetQueue, x);
    }
    FreedAddsPlace(m1, out, b);
    assert Freed(m1, b) == Freed(m, b).(resetQueue := m.resetQueue[1..]);
  }

  lemma {:induction false} CheckPendingResetsKeepsPlaces(m: Manager, out: seq<nat>)
    requires IdsOk(m) && PlaceTotal(m, out) <= MAX_BUFFERS
    ensures SamePlaces(m, out, CheckPendingResets(m), out)
    ensures |CheckPendingResets(m).buffers| == |m.buffers|
    decreases |m.resetQueue|
  {
    hide Freed;
    if !(m.resetQueue == [] || !m.buffers[m.resetQueue[0]].CanReset()) {
      var m1 := Freed(m, m.resetQueue[0]).(resetQueue := m.resetQueue[1..]);
      FreedIds(m);
      FreeFrontKeepsPlaces(m, out);
      CheckPendingResetsKeepsPlaces(m1, out);
    }
  }

  lemma FreedIds(m: Manager)
    requires IdsOk(m) && m.resetQueue != []
    ensures IdsOk(Freed(m, m.resetQueue[0]).(resetQueue := m.resetQueue[1..]))
    ensures |Freed(m, m.resetQueue[0]).buffers| == |m.buffers|
  {
  }

  lemma ExpandKeepsPartition(m: Manager, out: seq<nat>, memory: bool)
    requires Partition(m, out) && |m.buffers| <= MAX_BUFFERS
    ensures Partition(TryExpand(m, memory).0, out) && |TryExpand(m, memory).0.buffers| <= MAX_BUFFERS
  {
    if |m.buffers| < MAX_BUFFERS && memory {
      var id := |m.buffers|;
      var m1 := m.(buffers := m.buffers + [NewBuffer(m.bufferSize)], completeRing := Put(m.completeRing, id));
      forall x: nat
        ensures PlaceCount(m1, out, x) == PlaceCount(m, out, x) + (if x == id then 1 else 0)
      {
        CountPut(m.completeRing, id, x);
      }
      ActivateKeepsPlaces(m1, out);
    }
  }

  lemma SamePlacesPartition(m: Manager, out: seq<nat>, m': Manager, out': seq<nat>)
    requires Partition(m, out) && SamePlaces(m, out, m', out') && |m'.buffers| == |m.buffers|
    ensures Partition(m', out')
  {
  }
}
