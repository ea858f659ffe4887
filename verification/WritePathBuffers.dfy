/** The write path keeps its append buffers: each is being filled, waiting, in flight or free. */
module WritePathBuffers {
  import opened Types
  import opened BufferRules
  import opened BufferRuns
  import opened WritePath
  import opened WritePathInvariant

  lemma InFlightLast(ios: seq<Io>, io: Io, x: nat)
    ensures Count(InFlight(ios + [io]), x) ==
        Count(InFlight(ios), x) + (if io.BufferIo? && io.buffer == x then 1 else 0)
    ensures |InFlight(ios + [io])| == |InFlight(ios)| + (if io.BufferIo? then 1 else 0)
  {
    assert (ios + [io])[..|ios|] == ios;
    var last: seq<nat> := if io.BufferIo? then [io.buffer] else [];
    CountConcat(InFlight(ios), last, x);
    if io.BufferIo? {
      CountOne(io.buffer, x);
    }
  }

  lemma {:induction false} InFlightWithout(ios: seq<Io>, i: nat, x: nat)
    requires i < |ios|
    ensures Count(InFlight(ios), x)
         == Count(InFlight(WithoutIo(ios, i)), x) + (if ios[i].BufferIo? && ios[i].buffer == x then 1 else 0)
    ensures |InFlight(ios)| == |InFlight(WithoutIo(ios, i))| + (if ios[i].BufferIo? then 1 else 0)
    decreases |ios|
  {
    var n := |ios| - 1;
    assert ios == ios[..n] + [ios[n]];
    InFlightLast(ios[..n], ios[n], x);
    if i == n {
      assert WithoutIo(ios, i) == ios[..n];
    } else {
      InFlightWithout(ios[..n], i, x);
      WithoutLast(ios, i);
      InFlightLast(WithoutIo(ios[..n], i), ios[n], x);
    }
  }

  lemma InFlightMember(ios: seq<Io>, i: nat)
    requires i < |ios| && ios[i].BufferIo?
    ensures Count(InFlight(ios), ios[i].buffer) > 0
  {
    InFlightWithout(ios, i, ios[i].buffer);
  }

  /** The active buffer is neither in flight nor waiting. */
  lemma ActiveElsewhere(s: State, batch: seq<nat>)
    requires ManagerInv(s, batch) && s.m.active.Some?
    ensures forall i :: 0 <= i < |s.ios| && s.ios[i].BufferIo? ==> s.ios[i].buffer != s.m.active.value
  {
    var a, out := s.m.active.value, InFlight(s.ios) + batch;
    assert PlaceCount(s.m, out, a) <= 1;
    forall i | 0 <= i < |s.ios| && s.ios[i].BufferIo?
      ensures s.ios[i].buffer != a
    {
      InFlightMember(s.ios, i);
      CountConcat(InFlight(s.ios), batch, a);
    }
  }

  /** A buffer between the submit ring and flight is not in flight. */
  lemma BatchElsewhere(s: State, batch: seq<nat>)
    requires ManagerInv(s, batch) && batch != []
    ensures forall i :: 0 <= i < |s.ios| && s.ios[i].BufferIo? ==> s.ios[i].buffer != batch[0]
  {
    var b, out := batch[0], InFlight(s.ios) + batch;
    assert PlaceCount(s.m, out, b) <= 1;
    forall i | 0 <= i < |s.ios| && s.ios[i].BufferIo?
      ensures s.ios[i].buffer != b
    {
      InFlightMember(s.ios, i);
      CountConcat(InFlight(s.ios), batch, b);
      CountFirst(batch, b);
    }
  }

  /** No buffer is in flight twice. */
  lemma InFlightOnce(s: State, batch: seq<nat>, i: nat)
    requires ManagerInv(s, batch) && i < |s.ios| && s.ios[i].BufferIo?
    ensures forall j :: 0 <= j < |s.ios| && s.ios[j].BufferIo? && j != i ==> s.ios[j].buffer != s.ios[i].buffer
  {
    var b, out := s.ios[i].buffer, InFlight(s.ios) + batch;
    assert PlaceCount(s.m, out, b) <= 1;
    CountConcat(InFlight(s.ios), batch, b);
    InFlightWithout(s.ios, i, b);
    var others := WithoutIo(s.ios, i);
    forall j | 0 <= j < |s.ios| && s.ios[j].BufferIo? && j != i
      ensures s.ios[j].buffer != b
    {
      var k := if j < i then j else j - 1;
      assert others[k] == s.ios[j];
      InFlightMember(others, k);
    }
  }

  // ---------------------------------------------------------------------------------------------
  // Steps
  // ---------------------------------------------------------------------------------------------

  lemma ReserveKeepsManager(s: State, len: nat, memory: bool)
    requires WellFormed(s) && ManagerInv(s, [])
    ensures var m' := ReserveWithBackpressure(s.m, len, memory).0;
      IdsOk(m') && |s.m.buffers| <= |m'.buffers| && ManagerInv(WithManager(s, m'), [])
  {
    hide CheckBackpressure, Partition;
    var out := InFlight(s.ios) + [];
    var m1 := CheckBackpressure(s.m, memory);
    BackpressureKeepsOk(s.m, out, memory);
    BackpressureKeepsBuffers(s.m, memory);
    ReserveKeepsOk(m1, out, len);
    ReserveShape(s.m, len, memory);
    BackpressureKeepsWaiting(s.m, memory);
  }

  lemma BackpressureKeepsWaiting(m: Manager, memory: bool)
    ensures CheckBackpressure(m, memory).submitRing == m.submitRing
    ensures (forall b :: 0 <= b < |m.buffers| ==> m.buffers[b].CanReset()) ==>
      forall b :: 0 <= b < |CheckBackpressure(m, memory).buffers| ==> CheckBackpressure(m, memory).buffers[b].CanReset()
  {
  }

  lemma FlushKeepsManager(s: State)
    requires WellFormed(s) && ManagerInv(s, [])
    ensures ManagerInv(Flush(s), [])
  {
    var out := InFlight(s.ios) + [];
    SubmitKeepsPlaces(s.m, out);
    SamePlacesPartition(s.m, out, SubmitCurrent(s.m), out);
  }

  lemma TakeKeepsManager(s: State)
    requires WellFormed(s) && ManagerInv(s, [])
    ensures ManagerInv(s.(m := TakePending(s.m, MAX_BATCH).0), TakePending(s.m, MAX_BATCH).1)
  {
    var out := InFlight(s.ios);
    var (m1, batch) := TakePending(s.m, MAX_BATCH);
    assert out + [] == out;
    TakePendingKeepsPlaces(s.m, out, MAX_BATCH);
    SamePlacesPartition(s.m, out, m1, out + batch);
  }

  /** The first of the batch takes off. */
  lemma LaunchKeepsManager(s: State, batch: seq<nat>, i: nat)
    requires WellFormed(s) && ManagerInv(s, batch) && batch != [] && i < |s.files|
    ensures ManagerInv(LaunchBuffer(s, batch[0], i), batch[1..])
  {
    hide Count;
    var r := LaunchBuffer(s, batch[0], i);
    var out, out' := InFlight(s.ios) + batch, InFlight(r.ios) + batch[1..];
    forall x: nat
      ensures Count(out', x) == Count(out, x)
    {
      LaunchCount(s, batch, i, x);
    }
    InFlightLast(s.ios, r.ios[|s.ios|], 0);
    SamePlacesPartition(s.m, out, r.m, out');
  }

  lemma LaunchCount(s: State, batch: seq<nat>, i: nat, x: nat)
    requires WellFormed(s) && batch != [] && batch[0] < |s.m.buffers| && i < |s.files|
    ensures Count(InFlight(LaunchBuffer(s, batch[0], i).ios) + batch[1..], x) == Count(InFlight(s.ios) + batch, x)
  {
    hide Count, InFlight;
    var r := LaunchBuffer(s, batch[0], i);
    InFlightLast(s.ios, r.ios[|s.ios|], x);
    CountFirst(batch, x);
    CountConcat(InFlight(s.ios), batch, x);
    CountConcat(InFlight(r.ios), batch[1..], x);
  }

  lemma FailKeepsManager(s: State, batch: seq<nat>)
    requires WellFormed(s) && ManagerInv(s, batch) && batch != []
    ensures ManagerInv(FailBuffer(s, batch[0]), batch[1..])
  {
    ReturnKeepsManager(s, batch);
    var r, t := FailBuffer(s, batch[0]), Returned(s, batch[0]);
    assert r.m == t.m && r.ios == t.ios;
  }

  /** The first of the batch is returned. */
  lemma ReturnKeepsManager(s: State, batch: seq<nat>)
    requires WellFormed(s) && ManagerInv(s, batch) && batch != []
    ensures ManagerInv(Returned(s, batch[0]), batch[1..])
  {
    hide Count;
    var b, out, rest := batch[0], InFlight(s.ios) + batch, InFlight(s.ios) + batch[1..];
    var m1 := ReturnBuffer(s.m, b);
    forall x: nat
      ensures Count(out, x) == Count(rest, x) + (if x == b then 1 else 0)
    {
      CountFirst(batch, x);
      CountConcat(InFlight(s.ios), batch, x);
      CountConcat(InFlight(s.ios), batch[1..], x);
    }
    ReturnMovesPlace(s.m, out, rest, b);
    SamePlacesPartition(s.m, out, m1, rest);
    ResetOk(s.m.buffers[b]);
    WaitingElsewhere(s, batch);
  }

  /** Nothing else that waits is the first of the batch. */
  lemma WaitingElsewhere(s: State, batch: seq<nat>)
    requires ManagerInv(s, batch) && batch != []
    ensures forall i :: 0 <= i < |s.m.submitRing| ==> s.m.submitRing[i] != batch[0]
    ensures forall i :: 1 <= i < |batch| ==> batch[i] != batch[0]
  {
    var b, out := batch[0], InFlight(s.ios) + batch;
    assert PlaceCount(s.m, out, b) <= 1;
    CountConcat(InFlight(s.ios), batch, b);
    CountFirst(batch, b);
    assert Count(s.m.submitRing, b) == 0 && Count(batch[1..], b) == 0;
    hide *;
    forall i | 0 <= i < |s.m.submitRing|
      ensures s.m.submitRing[i] != b
    {
      CountMember(s.m.submitRing, i);
    }
    forall i | 1 <= i < |batch|
      ensures batch[i] != b
    {
      CountMember(batch[1..], i - 1);
    }
  }

  /** The buffer of write i, if it is that of a buffer. */
  function BufferOf(io: Io): seq<nat> {
    if io.BufferIo? then [io.buffer] else []
  }

  lemma EndedCount(ios: seq<Io>, i: nat, x: nat)
    requires i < |ios|
    ensures Count(InFlight(WithoutIo(ios, i)) + BufferOf(ios[i]), x) == Count(InFlight(ios) + [], x)
    ensures |InFlight(WithoutIo(ios, i)) + BufferOf(ios[i])| == |InFlight(ios) + []|
  {
    InFlightWithout(ios, i, x);
    CountConcat(InFlight(WithoutIo(ios, i)), BufferOf(ios[i]), x);
    assert InFlight(ios) + [] == InFlight(ios);
    if ios[i].BufferIo? {
      CountOne(ios[i].buffer, x);
    }
  }

  lemma SameCountsOk(m: Manager, out: seq<nat>, out': seq<nat>)
    requires ManagerOk(m, out) && |out'| == |out| && forall x: nat :: Count(out', x) == Count(out, x)
    ensures ManagerOk(m, out')
  {
    assert forall x: nat :: PlaceCount(m, out', x) == PlaceCount(m, out, x);
  }

  lemma EndedOk(m: Manager, ios: seq<Io>, i: nat)
    requires i < |ios| && ManagerOk(m, InFlight(ios) + [])
    ensures ManagerOk(m, InFlight(WithoutIo(ios, i)) + BufferOf(ios[i]))
  {
    hide ManagerOk;
    forall x: nat
      ensures Count(InFlight(WithoutIo(ios, i)) + BufferOf(ios[i]), x) == Count(InFlight(ios) + [], x)
    {
      EndedCount(ios, i, x);
    }
    EndedCount(ios, i, 0);
    SameCountsOk(m, InFlight(ios) + [], InFlight(WithoutIo(ios, i)) + BufferOf(ios[i]));
  }

  /** A write that ends leaves its buffer to be returned. */
  lemma DetachKeepsManager(s: State, cfg: Config, i: nat, ok: bool, junk: Disk)
    requires WellFormed(s) && ManagerInv(s, []) && i < |s.ios| && (ok ==> CanSucceed(s, cfg, i))
    requires s.ios[i].BufferIo? ==> s.m.buffers[s.ios[i].buffer].used > 0
    ensures ManagerInv(Detach(s, cfg, i, ok, junk), BufferOf(s.ios[i]))
  {
    hide WriteTo, Scribble, ManagerOk, InFlight, WithoutIo;
    EndedOk(s.m, s.ios, i);
  }

  /** What touches neither the manager nor the buffers in flight keeps the buffers. */
  lemma SameManager(s: State, r: State, batch: seq<nat>)
    requires ManagerInv(s, batch) && r.m == s.m && InFlight(r.ios) == InFlight(s.ios)
    ensures ManagerInv(r, batch)
  {
  }

  lemma LaunchDirectInFlight(s: State, q: Queued, i: nat)
    requires WellFormed(s) && i < |s.files|
    ensures LaunchDirect(s, q, i).m == s.m && InFlight(LaunchDirect(s, q, i).ios) == InFlight(s.ios)
  {
    var r := LaunchDirect(s, q, i);
    assert r.ios[..|s.ios|] == s.ios;
  }
}
