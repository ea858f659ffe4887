/** What becomes of the slots of one append buffer, from one reset to the next: the flags and counters against lives. */
module BufferSlots {
  import opened Types
  import opened BufferRules

  datatype Op = Allocate(size: nat) | Complete(id: nat) | Release(id: nat) | Append(len: nat)

  /** The buffer after an operation, and the slot it hands out. */
  function Do(b: Buffer, op: Op): (Buffer, Option<nat>)
    requires |b.slots| == MAX_SLOTS
  {
    match op
    case Allocate(size) => AllocSlot(b, size)
    case Complete(id) => (MarkComplete(b, id), None)
    case Release(id) => (ReleaseSlot(b, id), None)
    case Append(len) => (Take(b, len).0, None)
  }

  function DoAll(b: Buffer, ops: seq<Op>): (r: Buffer)
    requires |b.slots| == MAX_SLOTS
    ensures |r.slots| == MAX_SLOTS
  {
    if ops == [] then b else Do(DoAll(b, ops[..|ops| - 1]), ops[|ops| - 1]).0
  }

  // ---------------------------------------------------------------------------------------------
  // Lives
  // ---------------------------------------------------------------------------------------------

  /** A slot that has been handed out: its writer is at work, has finished, or has given it back. */
  datatype Life = Open | Written | Over

  /** The bytes in use and the slots handed out since the last reset, one behind the other. */
  datatype Lives = Lives(used: nat, slots: seq<Life>)

  function Live(a: Lives, capacity: nat, op: Op): Lives {
    match op
    case Allocate(size) =>
      if |a.slots| < 64 && a.used + size <= capacity then Lives(a.used + size, a.slots + [Open]) else a
    case Complete(id) => if id < |a.slots| && a.slots[id] == Open then a.(slots := a.slots[id := Written]) else a
    case Release(id) => if id < |a.slots| then a.(slots := a.slots[id := Over]) else a
    case Append(len) => if a.used + len <= capacity then a.(used := a.used + len) else a
  }

  function LiveAll(capacity: nat, ops: seq<Op>): Lives {
    if ops == [] then Lives(0, []) else Live(LiveAll(capacity, ops[..|ops| - 1]), capacity, ops[|ops| - 1])
  }

  // ---------------------------------------------------------------------------------------------
  // The buffer keeps to them
  // ---------------------------------------------------------------------------------------------

  ghost predicate Agrees(b: Buffer, a: Lives) {
    && BufferOk(b) && b.used == a.used && b.nextSlot == |a.slots| && |a.slots| <= 64
    && forall i :: 0 <= i < |a.slots| ==>
         && (b.slots[i].isAllocated <==> a.slots[i] != Over)
         && (a.slots[i] != Over ==> (b.slots[i].complete <==> a.slots[i] == Written))
  }

  lemma StepAgrees(b: Buffer, a: Lives, op: Op)
    requires Agrees(b, a)
    ensures Agrees(Do(b, op).0, Live(a, b.capacity, op)) && Do(b, op).0.capacity == b.capacity
    ensures Do(b, op).1 ==
      if op.Allocate? && |a.slots| < 64 && a.used + op.size <= b.capacity then Some(|a.slots|) else None
  {
    match op
    case Allocate(size) => TakeOk(b, size);
    case Complete(id) => SlotOpsOk(b, id);
    case Release(id) => SlotOpsOk(b, id);
    case Append(len) => TakeOk(b, len);
  }

  /**
   Over every list of operations on a new buffer, a slot is handed out exactly if fewer than 64 have been since the last
   reset and there is room, and it is the next one; a slot given back is not used again.
   */
  lemma {:induction false} BufferKeepsLives(capacity: nat, ops: seq<Op>, op: Op)
    ensures var b, a := DoAll(NewBuffer(capacity), ops), LiveAll(capacity, ops);
      && Agrees(b, a) && b.capacity == capacity
      && Do(b, op).1 == if op.Allocate? && |a.slots| < 64 && a.used + op.size <= capacity then Some(|a.slots|) else None
    decreases |ops|
  {
    var b, a := DoAll(NewBuffer(capacity), ops), LiveAll(capacity, ops);
    if ops == [] {
      NewBufferOk(capacity);
    } else {
      var front, last := ops[..|ops| - 1], ops[|ops| - 1];
      BufferKeepsLives(capacity, front, last);
      StepAgrees(DoAll(NewBuffer(capacity), front), LiveAll(capacity, front), last);
    }
    hide Agrees, Do, DoAll, LiveAll;
    StepAgrees(b, a, op);
  }

  /** What the submission of a buffer waits for. */
  predicate CanSubmit(b: Buffer)
    requires |b.slots| == MAX_SLOTS
  {
    forall i :: 0 <= i < MAX_SLOTS && b.slots[i].isAllocated ==> b.slots[i].complete
  }

  /** So a buffer can be submitted exactly if no writer is at work, and reset exactly if every slot is given back. */
  lemma ReadyIff(capacity: nat, ops: seq<Op>)
    ensures var b, a := DoAll(NewBuffer(capacity), ops), LiveAll(capacity, ops);
      && (CanSubmit(b) <==> Open !in a.slots)
      && (b.CanReset() <==> forall i :: 0 <= i < |a.slots| ==> a.slots[i] == Over)
  {
    BufferKeepsLives(capacity, ops, Append(0));
    var b, a := DoAll(NewBuffer(capacity), ops), LiveAll(capacity, ops);
    hide DoAll, LiveAll, Do;
    ResetOnlyWithoutSlots(b);
    if Open in a.slots {
      var i :| 0 <= i < |a.slots| && a.slots[i] == Open;
      assert b.slots[i].isAllocated && !b.slots[i].complete;
    }
    if b.CanReset() {
      forall i | 0 <= i < |a.slots|
        ensures a.slots[i] == Over
      {
        assert !b.slots[i].isAllocated;
      }
    }
  }

  // ---------------------------------------------------------------------------------------------
  // Epochs
  // ---------------------------------------------------------------------------------------------

  function ResetTimes(b: Buffer, n: nat): Buffer {
    if n == 0 then b else Reset(ResetTimes(b, n - 1))
  }

  lemma OneMore(e: nat, n: nat)
    ensures ((e + n) % TWO32 + 1) % TWO32 == (e + n + 1) % TWO32
  {
  }

  lemma BackAgain(e: u32, n: nat)
    ensures (e + n) % TWO32 == e <==> n % TWO32 == 0
  {
    var q, r := n / TWO32, n % TWO32;
    assert n == q * TWO32 + r;
    assert (e + n) % TWO32 == (e + r) % TWO32;
    if e + r < TWO32 {
      assert (e + r) % TWO32 == e + r;
    } else {
      assert (e + r) % TWO32 == e + r - TWO32;
    }
  }

  lemma {:induction false} EpochAfter(b: Buffer, n: nat)
    ensures ResetTimes(b, n).epoch == (b.epoch + n) % TWO32
  {
    if n > 0 {
      EpochAfter(b, n - 1);
      OneMore(b.epoch, n - 1);
    }
  }

  /** A slot from before a reset is told by its epoch, unless there have been a multiple of 2^32 resets since. */
  lemma EpochTellsIff(b: Buffer, n: nat)
    ensures ResetTimes(b, n).epoch == b.epoch <==> n % 0x1_0000_0000 == 0
  {
    EpochAfter(b, n);
    BackAgain(b.epoch, n);
  }
}
