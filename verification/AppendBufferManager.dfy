/** The engine's append buffers and their manager, updated in place. */
module AppendBuffers {
  import opened Types
  import opened SimpleRings
  import opened BufferRules
  import opened BufferRuns

  class AppendBuffer {
    const capacity: nat
    var used: nat
    var entries: nat
    var epoch: u32
    var nextSlot: nat
    var activeSlots: int
    var slots: seq<RdmaSlot>

    ghost predicate Valid()
      reads this
    {
      |slots| == MAX_SLOTS
    }

    function Value(): Buffer
      reads this
    {
      Buffer(capacity, used, entries, epoch, nextSlot, activeSlots, slots)
    }

    constructor (capacity: nat)
      ensures Valid() && Value() == NewBuffer(capacity)
    {
      this.capacity := capacity;
      used, entries, epoch, nextSlot, activeSlots := 0, 0, 0, 0, 0;
      slots := seq(MAX_SLOTS, _ => NO_SLOT);
    }

    method Reserve(len: nat) returns (at: Option<nat>)
      requires Valid()
      modifies this
      ensures Valid() && (Value(), at) == Take(old(Value()), len)
    {
      if used + len > capacity {
        return None;
      }
      at := Some(used);
      used := used + len;
      entries := entries + 1;
    }

    method ResetBuffer()
      requires Valid()
      modifies this
      ensures Valid() && Value() == Reset(old(Value()))
    {
      used, entries := 0, 0;
      epoch := if epoch + 1 == TWO32 then 0 else epoch + 1;
      nextSlot, activeSlots := 0, 0;
      slots := seq(MAX_SLOTS, _ => NO_SLOT);
    }

    method AllocRdmaSlot(size: nat) returns (id: Option<nat>)
      requires Valid()
      modifies this
      ensures Valid() && (Value(), id) == AllocSlot(old(Value()), size)
    {
      if nextSlot >= MAX_SLOTS {
        return None;
      }
      var at := Reserve(size);
      if at == None {
        return None;
      }
      id := Some(nextSlot);
      slots := slots[nextSlot := RdmaSlot(true, false, at.value, size)];
      nextSlot := nextSlot + 1;
      activeSlots := activeSlots + 1;
    }

    method MarkRdmaComplete(id: nat)
      requires Valid()
      modifies this
      ensures Valid() && Value() == MarkComplete(old(Value()), id)
    {
      if id < MAX_SLOTS {
        slots := slots[id := slots[id].(complete := true)];
      }
    }

    method ReleaseRdmaSlot(id: nat)
      requires Valid()
      modifies this
      ensures Valid() && Value() == ReleaseSlot(old(Value()), id)
    {
      if id < MAX_SLOTS && slots[id].isAllocated {
        slots := slots[id := slots[id].(isAllocated := false)];
        activeSlots := activeSlots - 1;
      }
    }

    /** Every allocated slot has been written. */
    method CanSubmit() returns (ok: bool)
      requires Valid()
      ensures ok <==> forall i :: 0 <= i < MAX_SLOTS && slots[i].isAllocated ==> slots[i].complete
    {
      for i := 0 to MAX_SLOTS
        invariant forall k :: 0 <= k < i && slots[k].isAllocated ==> slots[k].complete
      {
        if slots[i].isAllocated && !slots[i].complete {
          return false;
        }
      }
      return true;
    }
  }

  function Values(all: seq<AppendBuffer>): (vs: seq<Buffer>)
    reads all
    ensures |vs| == |all| && forall i :: 0 <= i < |all| ==> vs[i] == all[i].Value()
  {
    if all == [] then [] else Values(all[..|all| - 1]) + [all[|all| - 1].Value()]
  }

  class AppendBufferManager {
    var bufferSize: nat
    var all: seq<AppendBuffer>
    const submitRing: SimpleRing<nat>
    const completeRing: SimpleRing<nat>
    var active: Option<nat>
    var resetQueue: seq<nat>
    var backpressure: bool

    /** The manager's own objects, and the buffers. */
    ghost function Repr(): set<object>
      reads this
    {
      {this, submitRing, completeRing, submitRing.slots, completeRing.slots} + set b | b in all
    }

    /** The rings and buffers are separate objects, of the right sizes. */
    ghost predicate Shape()
      reads this, Repr()
    {
      && submitRing != completeRing && submitRing.slots != completeRing.slots
      && submitRing.Valid() && completeRing.Valid()
      && submitRing.slots.Length == RING_SLOTS && completeRing.slots.Length == RING_SLOTS
      && (forall i :: 0 <= i < |all| ==> all[i].Valid())
      && (forall i, j :: 0 <= i < j < |all| ==> all[i] != all[j])
    }

    ghost predicate Valid()
      reads this, Repr()
      ensures Valid() ==> Shape()
    {
      Shape() && IdsOk(Value())
    }

    ghost function Value(): Manager
      requires Shape()
      reads this, Repr()
    {
      Manager(bufferSize, Values(all), active, submitRing.Contents(), completeRing.Contents(), resetQueue, backpressure)
    }

    constructor (count: nat, bufferSize: nat)
      ensures Valid() && Value() == Initialize(bufferSize, count)
      ensures fresh(all) && fresh(submitRing) && fresh(completeRing)
      ensures fresh(submitRing.slots) && fresh(completeRing.slots)
    {
      this.bufferSize := bufferSize;
      all := [];
      submitRing := new SimpleRing<nat>(RING_SLOTS);
      completeRing := new SimpleRing<nat>(RING_SLOTS);
      active, resetQueue, backpressure := None, [], false;
      new;
      hide Values;
      assert Value() == WithBuffers(bufferSize, 0);
      AddBuffers(count);
      ActivateFree();
    }

    method AddBuffers(count: nat)
      requires Valid() && Value() == WithBuffers(bufferSize, 0)
      modifies this, completeRing, completeRing.slots
      ensures Valid() && fresh(all) && bufferSize == old(bufferSize) && Value() == WithBuffers(bufferSize, count)
    {
      hide Values, IdsOk, Shape;
      for i := 0 to count
        invariant Valid() && fresh(all) && bufferSize == old(bufferSize)
        invariant Value() == WithBuffers(bufferSize, i) && |all| == i
      {
        AddBuffer();
      }
    }

    /** Allocates one more buffer and puts it among the free ones. */
    method AddBuffer()
      requires Valid()
      modifies this, completeRing, completeRing.slots
      ensures Valid() && bufferSize == old(bufferSize)
      ensures |all| == |old(all)| + 1 && all[..|old(all)|] == old(all) && fresh(all[|old(all)|])
      ensures Repr() == old(Repr()) + {all[|old(all)|]}
      ensures Value() == old(Value()).(buffers := old(Value()).buffers + [NewBuffer(bufferSize)],
                                       completeRing := Put(old(Value()).completeRing, |old(all)|))
    {
      hide Values;
      ghost var was := Value();
      var b := new AppendBuffer(bufferSize);
      var _ := completeRing.Enqueue(|all|);
      all := all + [b];
      assert Values(all) == was.buffers + [NewBuffer(bufferSize)];
    }

    /** If there is no active buffer, makes the first free one active. */
    method ActivateFree()
      requires Valid()
      modifies this, completeRing
      ensures Valid() && all == old(all) && Repr() == old(Repr()) && Value() == Activate(old(Value()))
    {
      if active == None {
        active := completeRing.Dequeue();
      }
    }

    method SubmitCurrentBuffer()
      requires Valid()
      modifies Repr()
      ensures Valid() && all == old(all) && Value() == SubmitCurrent(old(Value()))
    {
      hide Values;
      if active == None || all[active.value].used == 0 {
        return;
      }
      var _ := submitRing.Enqueue(active.value);
      active := None;
      ActivateFree();
    }

    method GetPendingBuffers(max: nat) returns (batch: seq<nat>)
      requires Valid()
      modifies submitRing
      ensures Valid() && (Value(), batch) == TakePending(old(Value()), max)
    {
      ghost var was := Value();
      TakeNone(was);
      hide *;
      batch := [];
      while |batch| < max
        invariant Valid()
        invariant |batch| <= max && (Value(), batch) == TakePending(was, |batch|)
        decreases max - |batch|
      {
        TakeOneMore(was, |batch|, max);
        var b := NextPending();
        if b == None {
          return;
        }
        batch := batch + [b.value];
      }
    }

    lemma TakeNone(m: Manager)
      ensures TakePending(m, 0) == (m, [])
    {
    }

    lemma TakeOneMore(m: Manager, k: nat, max: nat)
      requires k < max && |TakePending(m, k).1| == k
      ensures var (m', batch) := TakePending(m, k);
        if m'.submitRing == [] then TakePending(m, max) == (m', batch)
        else TakePending(m, k + 1) == (m'.(submitRing := m'.submitRing[1..]), batch + [m'.submitRing[0]])
    {
      var q := m.submitRing;
      if k < |q| {
        assert q[k..][1..] == q[k + 1..];
        assert q[..k] + [q[k]] == q[..k + 1];
      }
    }

    method NextPending() returns (b: Option<nat>)
      requires Valid()
      modifies submitRing
      ensures Valid()
      ensures old(Value()).submitRing == [] ==> b == None && Value() == old(Value())
      ensures old(Value()).submitRing != [] ==>
        && b == Some(old(Value()).submitRing[0])
        && Value() == old(Value()).(submitRing := old(Value()).submitRing[1..])
    {
      b := submitRing.Dequeue();
    }

    method ReturnBuffer(b: nat)
      requires Valid() && b < |all|
      modifies Repr()
      ensures Valid() && all == old(all) && Value() == BufferRules.ReturnBuffer(old(Value()), b)
    {
      if all[b].activeSlots != 0 {
        resetQueue := resetQueue + [b];
        return;
      }
      FreeBuffer(b);
      ActivateFree();
    }

    method FreeBuffer(b: nat)
      requires Valid() && b < |all|
      modifies all[b], completeRing, completeRing.slots
      ensures Valid() && Value() == Freed(old(Value()), b)
    {
      hide Values, Reset;
      ghost var was := Value();
      all[b].ResetBuffer();
      var _ := completeRing.Enqueue(b);
      assert Values(all) == was.buffers[b := Reset(was.buffers[b])];
    }

    method CheckResets()
      requires Valid()
      modifies Repr()
      ensures Valid() && all == old(all) && Value() == CheckPendingResets(old(Value()))
    {
      ghost var was := Value();
      while resetQueue != []
        invariant Valid() && all == old(all)
        invariant CheckPendingResets(Value()) == CheckPendingResets(was)
        decreases |resetQueue|
      {
        hide Values, CheckPendingResets, Freed;
        CheckUnfolds(Value());
        if all[resetQueue[0]].activeSlots != 0 {
          return;
        }
        FreeFront();
      }
    }

    lemma CheckUnfolds(m: Manager)
      requires IdsOk(m) && m.resetQueue != []
      ensures if m.buffers[m.resetQueue[0]].CanReset() then
                var m' := Freed(m, m.resetQueue[0]).(resetQueue := m.resetQueue[1..]);
                IdsOk(m') && CheckPendingResets(m) == CheckPendingResets(m')
              else CheckPendingResets(m) == m
    {
    }

    method FreeFront()
      requires Valid() && resetQueue != []
      modifies this`resetQueue, all[resetQueue[0]], completeRing, completeRing.slots
      ensures Valid()
      ensures Value() == Freed(old(Value()), old(resetQueue)[0]).(resetQueue := old(resetQueue)[1..])
      ensures resetQueue == old(resetQueue)[1..]
    {
      hide Values;
      FreeBuffer(resetQueue[0]);
      resetQueue := resetQueue[1..];
    }

    method Expand(memory: bool) returns (ok: bool)
      requires Valid()
      modifies Repr()
      ensures Valid() && fresh(Repr() - old(Repr())) && (Value(), ok) == TryExpand(old(Value()), memory)
    {
      hide Values, Shape, IdsOk, Activate, NewBuffer;
      if |all| >= MAX_BUFFERS || !memory {
        return false;
      }
      AddBuffer();
      ActivateFree();
      return true;
    }

    method SetBackpressure(flag: bool)
      requires Valid()
      modifies `backpressure
      ensures Valid() && Value() == old(Value()).(backpressure := flag)
    {
      backpressure := flag;
    }

    method PendingCount() returns (n: nat)
      requires Valid()
      ensures n == |Value().submitRing|
    {
      n := submitRing.Count();
    }

    method Check(memory: bool) returns (active: bool)
      requires Valid()
      modifies Repr()
      ensures Valid() && fresh(Repr() - old(Repr())) && Value() == CheckBackpressure(old(Value()), memory)
      ensures active == Value().backpressure
    {
      hide Values;
      var pending := PendingCount();
      if backpressure {
        if pending <= LOW_WATER {
          SetBackpressure(false);
        }
      } else if pending >= HIGH_WATER {
        var expanded := Expand(memory);
        if !expanded {
          SetBackpressure(true);
        }
      }
      return backpressure;
    }

    /** The offset taken in the active buffer, and the error code. */
    method Reserve(len: nat, memory: bool) returns (at: Option<nat>, error: int)
      requires Valid()
      modifies Repr()
      ensures Valid() && fresh(Repr() - old(Repr()))
      ensures (Value(), at, error) == ReserveReporting(old(Value()), len, memory)
      ensures at == None <==> error == BACKPRESSURE
    {
      var full := Check(memory);
      if full || active == None || all[active.value].used + len > FLUSH_THRESHOLD {
        return None, BACKPRESSURE;
      }
      at := ReserveActive(len);
      error := if at == None then BACKPRESSURE else NO_ERROR;
    }

    method ReserveActive(len: nat) returns (at: Option<nat>)
      requires Valid() && active.Some?
      modifies all[active.value]
      ensures Valid()
      ensures var was := old(Value());
        && (Value().buffers[active.value], at) == Take(was.buffers[active.value], len)
        && Value() == was.(buffers := was.buffers[active.value := Value().buffers[active.value]])
    {
      ghost var was := Value();
      at := all[active.value].Reserve(len);
      assert Values(all) == was.buffers[active.value := Take(was.buffers[active.value], len).0];
    }
  }
}
