/** The fixed-size ring that hands append buffers from one stage to the next. */
module SimpleRings {
  import opened Types
  import opened Ring

  /** What a ring of n slots holds after an enqueue: one slot stays free, so n - 1 items fit. */
  function Enqueued<T>(q: seq<T>, item: T, n: nat): seq<T> {
    if |q| + 1 < n then q + [item] else q
  }

  /** The items from tail up to head, around the end of the slots. */
  function Items<T>(slots: seq<T>, head: nat, tail: nat): seq<T>
    requires head < |slots| && tail < |slots|
  {
    if head >= tail then slots[tail..head] else slots[tail..] + slots[..head]
  }

  lemma ItemsGrow<T>(slots: seq<T>, head: nat, tail: nat, item: T)
    requires head < |slots| && tail < |slots| && Next(head, |slots|) != tail
    ensures Items(slots[head := item], Next(head, |slots|), tail) == Items(slots, head, tail) + [item]
  {
    var s := slots[head := item];
    if head >= tail {
      assert s[tail..head + 1] == slots[tail..head] + [item];
    } else {
      assert s[tail..] == slots[tail..];
      assert s[..head + 1] == slots[..head] + [item];
    }
  }

  lemma ItemsShrink<T>(slots: seq<T>, head: nat, tail: nat)
    requires head < |slots| && tail < |slots| && head != tail
    ensures Items(slots, head, tail) == [slots[tail]] + Items(slots, head, Next(tail, |slots|))
  {
    if head >= tail {
      assert slots[tail..head] == [slots[tail]] + slots[tail + 1..head];
    } else {
      var x, rest, front := slots[tail], slots[tail + 1..], slots[..head];
      assert slots[tail..] == [x] + rest;
      assert [x] + rest + front == [x] + (rest + front);
      if tail + 1 == |slots| {
        assert rest + front == slots[0..head];
      }
    }
  }

  class SimpleRing<T(0)> {
    const slots: array<T>
    var head: nat
    var tail: nat

    ghost predicate Valid()
      reads this
    {
      head < slots.Length && tail < slots.Length
    }

    ghost function Contents(): (q: seq<T>)
      requires Valid()
      reads this, slots
    {
      Items(slots[..], head, tail)
    }

    constructor (n: nat)
      requires n > 0
      ensures Valid() && fresh(slots) && slots.Length == n && Contents() == []
    {
      slots := new T[n];
      head, tail := 0, 0;
    }

    method Count() returns (n: nat)
      requires Valid()
      ensures n == |Contents()|
    {
      if head >= tail {
        n := head - tail;
      } else {
        n := slots.Length - tail + head;
      }
    }

    /** Fails on a ring that holds one item less than it has slots. */
    method Enqueue(item: T) returns (ok: bool)
      requires Valid()
      modifies this`head, slots
      ensures Valid() && Contents() == Enqueued(old(Contents()), item, slots.Length)
      ensures ok <==> |old(Contents())| + 1 < slots.Length
    {
      NextIsModulo(head, slots.Length);
      var next := (head + 1) % slots.Length;
      if next == tail {
        return false;
      }
      ItemsGrow(slots[..], head, tail, item);
      slots[head] := item;
      head := next;
      return true;
    }

    method Dequeue() returns (item: Option<T>)
      requires Valid()
      modifies this`tail
      ensures Valid()
      ensures old(Contents()) == [] ==> item == None && Contents() == []
      ensures old(Contents()) != [] ==> item == Some(old(Contents())[0]) && Contents() == old(Contents())[1..]
    {
      if tail == head {
        return None;
      }
      NextIsModulo(tail, slots.Length);
      ItemsShrink(slots[..], head, tail);
      item := Some(slots[tail]);
      tail := (tail + 1) % slots.Length;
    }
  }
}
