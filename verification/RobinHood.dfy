/** The probing table as a value, with the insertion and search loops written as recursive functions. */
module RobinHood {
  // Entries and probe counters lie side by side; the class in MemIndex.dfy runs the same loops in place.

  import opened Types
  import opened Ring
  import opened Sequence
  import IndexRule

  type Hash = Key -> u64

  const MAX_PROBE: u8 := 128

  /** The fast-filter tag is the top byte of the hash. */
  function Tag(hash: Hash, key: Key): u8 {
    (hash(key) / 0x100_0000_0000_0000) as u8
  }

  datatype Table = Table(entries: seq<IndexEntry>, psl: seq<u8>)
  {
    ghost predicate WellFormed() {
      |entries| == |psl| > 0
    }

    predicate Free(i: nat)
      requires |entries| == |psl|
    {
      i < |psl| && psl[i] == 0 && entries[i].IsEmpty()
    }

    function Write(i: nat, e: IndexEntry, p: u8): (t: Table)
      requires WellFormed() && i < |psl|
      ensures t.WellFormed() && |t.psl| == |psl|
    {
      Table(entries[i := e], psl[i := p])
    }
  }

  // ---------------------------------------------------------------------------------------------
  // Where a key belongs
  // ---------------------------------------------------------------------------------------------

  function Home(hash: Hash, key: Key, n: nat): (h: nat)
    requires n > 0
    ensures h < n
  {
    hash(key) % n
  }

  // ---------------------------------------------------------------------------------------------
  // The insertion loop
  // ---------------------------------------------------------------------------------------------

  /** left is the one entry that the table does not hold afterwards: the carried entry when the loop
      gives up, the older of two versions when it meets the key, nothing when it fills an empty slot. */
  datatype Outcome = Outcome(ok: bool, table: Table, left: Option<IndexEntry>)

  /** How far the first n probe counters are below 129 in total; swaps only ever lower it. */
  function SlackTo(psl: seq<u8>, n: nat): nat
    requires n <= |psl|
  {
    if n == 0 then 0 else SlackTo(psl, n - 1) + Max(0, 129 - psl[n - 1] as int)
  }

  function Slack(psl: seq<u8>): nat {
    SlackTo(psl, |psl|)
  }

  lemma {:induction false} SlackToAfterUpdate(psl: seq<u8>, n: nat, i: nat, p: u8)
    requires n <= |psl| && i < |psl|
    ensures SlackTo(psl[i := p], n) + (if i < n then Max(0, 129 - psl[i] as int) else 0) ==
            SlackTo(psl, n) + (if i < n then Max(0, 129 - p as int) else 0)
  {
    if n > 0 {
      SlackToAfterUpdate(psl, n - 1, i, p);
    }
  }

  lemma SlackAfterUpdate(psl: seq<u8>, i: nat, p: u8)
    requires i < |psl|
    ensures Slack(psl[i := p]) + Max(0, 129 - psl[i] as int) == Slack(psl) + Max(0, 129 - p as int)
  {
    SlackToAfterUpdate(psl, |psl|, i, p);
  }

  function Probe(t: Table, key: Key, idx: nat, dist: u8, carried: IndexEntry): (r: Outcome)
    requires t.WellFormed() && idx < |t.psl| && dist <= MAX_PROBE
    ensures r.table.WellFormed() && |r.table.psl| == |t.psl|
    decreases Slack(t.psl), 129 - dist as int
  {
    if t.Free(idx) then
      Outcome(true, t.Write(idx, carried, dist + 1), None)
    else if t.entries[idx].key == key then
      if SequenceNewer(carried.sequence, t.entries[idx].sequence) then
        Outcome(true, t.Write(idx, carried, t.psl[idx]), Some(t.entries[idx]))
      else
        Outcome(true, t, Some(carried))
    else if t.psl[idx] < dist + 1 then
      var t' := t.Write(idx, carried, dist);
      SlackAfterUpdate(t.psl, idx, dist);
      if t.psl[idx] + 2 > MAX_PROBE then
        Outcome(false, t', Some(t.entries[idx]))
      else
        Probe(t', key, Next(idx, |t.psl|), t.psl[idx] + 2, t.entries[idx])
    else if dist + 1 > MAX_PROBE then
      Outcome(false, t, Some(carried))
    else
      Probe(t, key, Next(idx, |t.psl|), dist + 1, carried)
  }

  /** One turn of the loop. */
  lemma ProbeStep(t: Table, key: Key, idx: nat, dist: u8, carried: IndexEntry)
    requires t.WellFormed() && idx < |t.psl| && dist <= MAX_PROBE
    ensures Probe(t, key, idx, dist, carried) ==
      if t.Free(idx) then Outcome(true, t.Write(idx, carried, dist + 1), None)
      else if t.entries[idx].key == key then
        if SequenceNewer(carried.sequence, t.entries[idx].sequence)
        then Outcome(true, t.Write(idx, carried, t.psl[idx]), Some(t.entries[idx])) else Outcome(true, t, Some(carried))
      else if t.psl[idx] < dist + 1 then
        if t.psl[idx] + 2 > MAX_PROBE then Outcome(false, t.Write(idx, carried, dist), Some(t.entries[idx]))
        else Probe(t.Write(idx, carried, dist), key, Next(idx, |t.psl|), t.psl[idx] + 2, t.entries[idx])
      else if dist + 1 > MAX_PROBE then Outcome(false, t, Some(carried))
      else Probe(t, key, Next(idx, |t.psl|), dist + 1, carried)
  {
  }

  function Upsert(t: Table, hash: Hash, key: Key, entry: IndexEntry): (r: Outcome)
    requires t.WellFormed()
    ensures r.table.WellFormed() && |r.table.psl| == |t.psl|
  {
    Probe(t, key, Home(hash, key, |t.psl|), 0, entry.(tag := Tag(hash, key)))
  }

  /** A free slot m places ahead ends the loop well, if the counter has room for two more at each of them. */
  lemma {:induction false} ProbeSucceeds(t: Table, key: Key, idx: nat, dist: u8, carried: IndexEntry, m: nat)
    requires t.WellFormed() && idx < |t.psl| && m < |t.psl| && t.Free(Slot(idx, m, |t.psl|))
    requires dist as int + 2 * m <= MAX_PROBE as int
    ensures Probe(t, key, idx, dist, carried).ok
    decreases m
  {
    ProbeStep(t, key, idx, dist, carried);
    if !t.Free(idx) {
      var next := Next(idx, |t.psl|);
      assert m > 0 && Slot(next, m - 1, |t.psl|) == Slot(idx, m, |t.psl|) != idx;
      if t.entries[idx].key != key {
        if t.psl[idx] < dist + 1 {
          ProbeSucceeds(t.Write(idx, carried, dist), key, next, t.psl[idx] + 2, t.entries[idx], m - 1);
        } else {
          ProbeSucceeds(t, key, next, dist + 1, carried, m - 1);
        }
      }
    }
  }

  /**
   An upsert succeeds whenever one of the 65 slots from the remainder of the key's hash on is free, whatever the
   table holds otherwise.
   */
  lemma UpsertNearFreeSlot(t: Table, hash: Hash, key: Key, entry: IndexEntry, k: nat)
    requires t.WellFormed() && k < |t.psl| && k <= 64 && t.Free(Slot(hash(key) % |t.psl|, k, |t.psl|))
    ensures Upsert(t, hash, key, entry).ok
  {
    hide Probe;
    ProbeSucceeds(t, key, hash(key) % |t.psl|, 0, entry.(tag := Tag(hash, key)), k);
  }

  // ---------------------------------------------------------------------------------------------
  // Conservation: what goes in is in the table or left over, whatever the table looked like
  // ---------------------------------------------------------------------------------------------

  /** Does a slot with entry e and counter p hold x? */
  function Holds(e: IndexEntry, p: u8, x: IndexEntry): nat {
    if p > 0 && e == x then 1 else 0
  }

  /** How many of the first n slots hold x. */
  function CountTo(t: Table, n: nat, x: IndexEntry): nat
    requires t.WellFormed() && n <= |t.psl|
  {
    if n == 0 then 0 else CountTo(t, n - 1, x) + Holds(t.entries[n - 1], t.psl[n - 1], x)
  }

  function Count(t: Table, x: IndexEntry): nat
    requires t.WellFormed()
  {
    CountTo(t, |t.psl|, x)
  }

  function Is(o: Option<IndexEntry>, x: IndexEntry): nat {
    if o == Some(x) then 1 else 0
  }

  lemma {:induction false} CountToAfterWrite(t: Table, n: nat, i: nat, e: IndexEntry, p: u8, x: IndexEntry)
    requires t.WellFormed() && n <= |t.psl| && i < |t.psl|
    ensures CountTo(t.Write(i, e, p), n, x) + (if i < n then Holds(t.entries[i], t.psl[i], x) else 0) ==
            CountTo(t, n, x) + (if i < n then Holds(e, p, x) else 0)
  {
    if n > 0 {
      CountToAfterWrite(t, n - 1, i, e, p, x);
    }
  }

  /** A slot whose counter is 0 is empty; every table built by the class satisfies this. */
  ghost predicate NoGhosts(t: Table)
    requires t.WellFormed()
  {
    forall i :: 0 <= i < |t.psl| && t.psl[i] == 0 ==> t.entries[i] == ZERO_ENTRY
  }

  /** Every probe conserves entries: nothing is lost but the one entry that is reported left over,
      and nothing is invented. No assumption on counters, uniqueness of keys or free slots. */
  lemma {:induction false} ProbeConserves(t: Table, key: Key, idx: nat, dist: u8, carried: IndexEntry, x: IndexEntry)
    requires t.WellFormed() && idx < |t.psl| && dist <= MAX_PROBE && NoGhosts(t)
    ensures var r := Probe(t, key, idx, dist, carried);
      NoGhosts(r.table) && Count(r.table, x) + Is(r.left, x) == Count(t, x) + Is(Some(carried), x)
    decreases Slack(t.psl), 129 - dist as int
  {
    var n := |t.psl|;
    if t.Free(idx) {
      CountToAfterWrite(t, n, idx, carried, dist + 1, x);
    } else if t.entries[idx].key == key {
      assert t.psl[idx] > 0;
      if SequenceNewer(carried.sequence, t.entries[idx].sequence) {
        CountToAfterWrite(t, n, idx, carried, t.psl[idx], x);
      }
    } else if t.psl[idx] < dist + 1 {
      assert t.psl[idx] > 0;
      SlackAfterUpdate(t.psl, idx, dist);
      CountToAfterWrite(t, n, idx, carried, dist, x);
      if t.psl[idx] + 2 <= MAX_PROBE {
        ProbeConserves(t.Write(idx, carried, dist), key, Next(idx, n), t.psl[idx] + 2, t.entries[idx], x);
      }
    } else if dist + 1 <= MAX_PROBE {
      ProbeConserves(t, key, Next(idx, n), dist + 1, carried, x);
    }
  }

  // ---------------------------------------------------------------------------------------------
  // The search loop
  // ---------------------------------------------------------------------------------------------

  function FindFrom(t: Table, key: Key, tag: u8, idx: nat, dist: u8): (r: Option<nat>)
    requires t.WellFormed() && idx < |t.psl| && dist <= MAX_PROBE
    ensures r.Some? ==> r.value < |t.psl|
    ensures r.Some? ==> t.entries[r.value].key == key && t.entries[r.value].tag == tag && !t.entries[r.value].deleted
    decreases 128 - dist as int
  {
    if t.psl[idx] < dist then None
    else if t.entries[idx].tag == tag && t.entries[idx].key == key && !t.entries[idx].deleted then Some(idx)
    else if dist + 1 > MAX_PROBE then None
    else FindFrom(t, key, tag, Next(idx, |t.psl|), dist + 1)
  }

  /** The slot `find` returns. */
  function FindSlot(t: Table, hash: Hash, key: Key): (r: Option<nat>)
    requires t.WellFormed()
    ensures r.Some? ==> r.value < |t.psl|
  {
    FindFrom(t, key, Tag(hash, key), Home(hash, key, |t.psl|), 0)
  }

  /** The entry `find` returns. */
  function Find(t: Table, hash: Hash, key: Key): Option<IndexEntry>
    requires t.WellFormed()
  {
    var s := FindSlot(t, hash, key);
    if s.Some? then Some(t.entries[s.value]) else None
  }

  // ---------------------------------------------------------------------------------------------
  // The table invariant
  // ---------------------------------------------------------------------------------------------

  /** On the d slots from h on, the counter at offset j is at least j, and no slot is empty. */
  ghost predicate Path(psl: seq<u8>, h: nat, d: nat)
    requires h < |psl| && d <= |psl|
  {
    forall j :: 0 <= j < d ==> psl[Slot(h, j, |psl|)] as int >= Max(1, j)
  }

  /** An entry at slot i is within 128 places of its home and reachable along a path up to and including i. */
  ghost predicate Reachable(psl: seq<u8>, hash: Hash, e: IndexEntry, i: nat)
    requires i < |psl|
  {
    var h := Home(hash, e.key, |psl|);
    var d := Displacement(h, i, |psl|);
    d <= 128 && Path(psl, h, d + 1) && e.tag == Tag(hash, e.key)
  }

  ghost predicate UniqueKeys(t: Table)
    requires t.WellFormed()
  {
    forall i, j :: 0 <= i < j < |t.psl| && t.psl[i] > 0 && t.psl[j] > 0 ==> t.entries[i].key != t.entries[j].key
  }

  /** The empty slot reads as key 0, so key 0 must not have tag 0, the tag of an empty slot. */
  ghost predicate GoodHash(hash: Hash) {
    Tag(hash, 0) != 0
  }

  ghost predicate Inv(t: Table, hash: Hash) {
    && t.WellFormed()
    && GoodHash(hash)
    && NoGhosts(t)
    && UniqueKeys(t)
    && (forall i :: 0 <= i < |t.psl| ==> t.psl[i] <= 129)
    && (forall i :: 0 <= i < |t.psl| && t.psl[i] > 0 ==> Reachable(t.psl, hash, t.entries[i], i))
  }

  ghost predicate HasKey(t: Table, key: Key)
    requires t.WellFormed()
  {
    exists i :: 0 <= i < |t.psl| && t.psl[i] > 0 && t.entries[i].key == key
  }

  ghost predicate HasFreeSlot(t: Table)
    requires t.WellFormed()
  {
    exists i :: 0 <= i < |t.psl| && t.psl[i] == 0
  }

  /** x is in the table. */
  ghost predicate Resident(t: Table, x: IndexEntry)
    requires t.WellFormed()
  {
    exists i :: 0 <= i < |t.psl| && t.psl[i] > 0 && t.entries[i] == x
  }

  lemma {:induction false} CountPositive(t: Table, n: nat, x: IndexEntry)
    requires t.WellFormed() && n <= |t.psl|
    ensures CountTo(t, n, x) > 0 <==> exists i :: 0 <= i < n && t.psl[i] > 0 && t.entries[i] == x
  {
    if n > 0 {
      CountPositive(t, n - 1, x);
    }
  }

  lemma {:induction false} CountAtMostOne(t: Table, n: nat, x: IndexEntry)
    requires t.WellFormed() && n <= |t.psl| && UniqueKeys(t)
    ensures CountTo(t, n, x) <= 1
  {
    if n > 0 {
      CountAtMostOne(t, n - 1, x);
      CountPositive(t, n - 1, x);
    }
  }

  // ---------------------------------------------------------------------------------------------
  // Search: despite the early exit and the cap, exactly the live residents are found
  // ---------------------------------------------------------------------------------------------

  /** The search walks a path of d slots without the key and stops at the live match behind them. */
  lemma {:induction false} FindAlongPath(t: Table, key: Key, tag: u8, h: nat, d: nat, dist: u8)
    requires t.WellFormed() && h < |t.psl| && dist as int <= d < |t.psl| && d <= 128
    requires Path(t.psl, h, d + 1)
    requires forall j :: 0 <= j < d ==> t.entries[Slot(h, j, |t.psl|)].key != key
    requires var x := t.entries[Slot(h, d, |t.psl|)]; x.key == key && x.tag == tag && !x.deleted
    ensures FindFrom(t, key, tag, Slot(h, dist as int, |t.psl|), dist) == Some(Slot(h, d, |t.psl|))
    decreases 128 - dist as int
  {
    var n := |t.psl|;
    assert t.psl[Slot(h, dist as int, n)] as int >= dist as int;
    if dist as int < d {
      FindAlongPath(t, key, tag, h, d, dist + 1);
      assert Next(Slot(h, dist as int, n), n) == Slot(h, dist as int + 1, n);
    }
  }

  lemma FindReaches(t: Table, hash: Hash, i: nat)
    requires Inv(t, hash) && i < |t.psl| && t.psl[i] > 0 && !t.entries[i].deleted
    ensures FindSlot(t, hash, t.entries[i].key) == Some(i)
  {
    var key, n := t.entries[i].key, |t.psl|;
    var h := Home(hash, key, n);
    var d := Displacement(h, i, n);
    assert Reachable(t.psl, hash, t.entries[i], i);
    assert Slot(h, d, n) == i;
    forall j | 0 <= j < d
      ensures t.entries[Slot(h, j, n)].key != key
    {
      assert t.psl[Slot(h, j, n)] as int >= Max(1, j);
      assert Slot(h, j, n) != i;
    }
    FindAlongPath(t, key, Tag(hash, key), h, d, 0);
  }

  /** `find` returns x for key exactly when x is the live resident with that key. */
  lemma FindIsExact(t: Table, hash: Hash, key: Key)
    requires Inv(t, hash)
    ensures forall x :: Find(t, hash, key) == Some(x) <==> Resident(t, x) && x.key == key && !x.deleted
  {
    forall x
      ensures Find(t, hash, key) == Some(x) <==> Resident(t, x) && x.key == key && !x.deleted
    {
      var s := FindSlot(t, hash, key);
      if Find(t, hash, key) == Some(x) {
        assert t.entries[s.value] == x && x.tag == Tag(hash, key);
      }
      if Resident(t, x) && x.key == key && !x.deleted {
        var i :| 0 <= i < |t.psl| && t.psl[i] > 0 && t.entries[i] == x;
        FindReaches(t, hash, i);
      }
    }
  }

  // ---------------------------------------------------------------------------------------------
  // Inserting an absent key
  // ---------------------------------------------------------------------------------------------

  /** What holds of the entry in hand when the loop is at slot idx with counter dist. */
  ghost predicate Carrying(t: Table, hash: Hash, e: IndexEntry, idx: nat, dist: u8)
    requires t.WellFormed() && idx < |t.psl|
  {
    var h := Home(hash, e.key, |t.psl|);
    var d := Displacement(h, idx, |t.psl|);
    d <= dist as int <= 128 && Path(t.psl, h, d) && e.tag == Tag(hash, e.key) && !HasKey(t, e.key)
  }

  /** key, probing from h, is only in slots already passed, and the empty slot f is still ahead. */
  ghost predicate KeyBehind(t: Table, key: Key, h: nat, idx: nat, f: nat)
    requires t.WellFormed() && h < |t.psl| && idx < |t.psl| && f < |t.psl|
  {
    && t.psl[f] == 0
    && Displacement(h, idx, |t.psl|) <= Displacement(h, f, |t.psl|)
    && forall i :: 0 <= i < |t.psl| && t.psl[i] > 0 && t.entries[i].key == key ==>
         Displacement(h, i, |t.psl|) < Displacement(h, idx, |t.psl|)
  }

  /** Overwriting slot i with a counter no lower than before keeps every path. */
  lemma PathMonotone(psl: seq<u8>, i: nat, p: u8, h: nat, d: nat)
    requires h < |psl| && d <= |psl| && i < |psl| && psl[i] <= p
    requires Path(psl, h, d)
    ensures Path(psl[i := p], h, d)
  {
  }

  /** Storing a carried entry in slot i with counter p keeps the invariant. */
  lemma StoreKeepsInv(t: Table, hash: Hash, e: IndexEntry, i: nat, dist: u8, p: u8)
    requires Inv(t, hash) && i < |t.psl| && Carrying(t, hash, e, i, dist)
    requires Max(1, Max(dist as int, t.psl[i] as int)) <= p as int <= 129
    ensures Inv(t.Write(i, e, p), hash)
  {
    var t' := t.Write(i, e, p);
    var n := |t.psl|;
    forall k | 0 <= k < n && t'.psl[k] > 0
      ensures Reachable(t'.psl, hash, t'.entries[k], k)
    {
      var h := Home(hash, t'.entries[k].key, n);
      var d := Displacement(h, k, n);
      if k == i {
        PathMonotone(t.psl, i, p, h, d);
        assert Slot(h, d, n) == i;
      } else {
        assert Reachable(t.psl, hash, t.entries[k], k);
        PathMonotone(t.psl, i, p, h, d + 1);
      }
    }
  }

  /** With an empty slot ahead, a path that covers slot idx can be continued to the next slot. */
  lemma AdvanceDisplacement(psl: seq<u8>, h: nat, idx: nat, f: nat)
    requires h < |psl| && idx < |psl| && f < |psl| && psl[f] == 0
    requires Path(psl, h, Displacement(h, idx, |psl|) + 1)
    ensures Displacement(h, Next(idx, |psl|), |psl|) == Displacement(h, idx, |psl|) + 1
  {
    var n := |psl|;
    assert Slot(h, Displacement(h, f, n), n) == f;
  }

  /** Passing a slot without a swap. */
  lemma PassSlot(t: Table, hash: Hash, key: Key, idx: nat, dist: u8, e: IndexEntry, f: nat)
    requires Inv(t, hash) && idx < |t.psl| && f < |t.psl| && Carrying(t, hash, e, idx, dist)
    requires KeyBehind(t, key, Home(hash, key, |t.psl|), idx, f)
    requires t.psl[idx] >= dist + 1 && dist < MAX_PROBE
    ensures Carrying(t, hash, e, Next(idx, |t.psl|), dist + 1)
    ensures KeyBehind(t, key, Home(hash, key, |t.psl|), Next(idx, |t.psl|), f)
  {
    hide Inv, Tag, HasKey;
    PathGoesOn(t.psl, Home(hash, e.key, |t.psl|), idx, f);
    assert idx != f;
  }

  /** A path with a free slot ahead goes on over an occupied slot. */
  lemma PathGoesOn(psl: seq<u8>, h: nat, idx: nat, f: nat)
    requires h < |psl| && idx < |psl| && f < |psl| && psl[f] == 0
    requires var d := Displacement(h, idx, |psl|); Path(psl, h, d) && psl[idx] as int >= d + 1
    ensures var d := Displacement(h, idx, |psl|);
      Displacement(h, Next(idx, |psl|), |psl|) == d + 1 && Path(psl, h, d + 1)
  {
    var n := |psl|;
    var d := Displacement(h, idx, n);
    assert Slot(h, d, n) == idx;
    assert Path(psl, h, d + 1);
    AdvanceDisplacement(psl, h, idx, f);
  }

  /** Taking the place of a poorer resident, which is carried on with its own counter plus 2. */
  lemma SwapSlot(t: Table, hash: Hash, key: Key, idx: nat, dist: u8, e: IndexEntry, f: nat)
    requires Inv(t, hash) && idx < |t.psl| && f < |t.psl| && Carrying(t, hash, e, idx, dist)
    requires KeyBehind(t, key, Home(hash, key, |t.psl|), idx, f)
    requires 0 < t.psl[idx] < dist + 1
    ensures var t', p := t.Write(idx, e, dist), t.psl[idx];
      && Inv(t', hash) && !HasKey(t', t.entries[idx].key)
      && (p + 2 <= MAX_PROBE ==>
           && Carrying(t', hash, t.entries[idx], Next(idx, |t.psl|), p + 2)
           && KeyBehind(t', key, Home(hash, key, |t.psl|), Next(idx, |t.psl|), f))
  {
    var n := |t.psl|;
    var t', e', p := t.Write(idx, e, dist), t.entries[idx], t.psl[idx];
    StoreKeepsInv(t, hash, e, idx, dist, dist);
    assert Reachable(t.psl, hash, e', idx);
    var h' := Home(hash, e'.key, n);
    var d' := Displacement(h', idx, n);
    assert Slot(h', d', n) == idx;
    PathMonotone(t.psl, idx, dist, h', d' + 1);
    AdvanceDisplacement(t'.psl, h', idx, f);
    assert idx != f;
  }

  /** The invariant holds afterwards; nothing is left over on success, and a left-over key is not in the table. */
  ghost predicate InsertEnds(r: Outcome, hash: Hash) {
    Inv(r.table, hash) && (r.ok <==> r.left == None) && (!r.ok ==> !HasKey(r.table, r.left.value.key))
  }

  /** The situation in which the insertion loop of an absent key stands at slot idx. */
  ghost predicate Inserting(t: Table, hash: Hash, key: Key, idx: nat, dist: u8, e: IndexEntry, f: nat) {
    && t.WellFormed() && Inv(t, hash) && idx < |t.psl| && f < |t.psl|
    && Carrying(t, hash, e, idx, dist) && KeyBehind(t, key, Home(hash, key, |t.psl|), idx, f)
  }

  lemma InsertFills(t: Table, hash: Hash, key: Key, idx: nat, dist: u8, e: IndexEntry, f: nat)
    requires Inserting(t, hash, key, idx, dist, e, f) && t.psl[idx] == 0 && dist <= MAX_PROBE
    ensures InsertEnds(Probe(t, key, idx, dist, e), hash)
  {
    StoreKeepsInv(t, hash, e, idx, dist, dist + 1);
  }

  lemma InsertSwaps(t: Table, hash: Hash, key: Key, idx: nat, dist: u8, e: IndexEntry, f: nat)
    requires Inserting(t, hash, key, idx, dist, e, f) && 0 < t.psl[idx] < dist + 1 && dist <= MAX_PROBE
    ensures var t', e', p := t.Write(idx, e, dist), t.entries[idx], t.psl[idx];
      && t.entries[idx].key != key
      && (p + 2 <= MAX_PROBE ==> Inserting(t', hash, key, Next(idx, |t.psl|), p + 2, e', f))
      && (p + 2 > MAX_PROBE ==> InsertEnds(Outcome(false, t', Some(e')), hash))
  {
    SwapSlot(t, hash, key, idx, dist, e, f);
  }

  lemma InsertPasses(t: Table, hash: Hash, key: Key, idx: nat, dist: u8, e: IndexEntry, f: nat)
    requires Inserting(t, hash, key, idx, dist, e, f) && t.psl[idx] >= dist + 1 && dist <= MAX_PROBE
    ensures t.entries[idx].key != key
    ensures dist + 1 <= MAX_PROBE ==> Inserting(t, hash, key, Next(idx, |t.psl|), dist + 1, e, f)
    ensures dist + 1 > MAX_PROBE ==> InsertEnds(Outcome(false, t, Some(e)), hash)
  {
    if dist + 1 <= MAX_PROBE {
      PassSlot(t, hash, key, idx, dist, e, f);
    }
  }

  lemma {:induction false} ProbeInserts(t: Table, hash: Hash, key: Key, idx: nat, dist: u8, e: IndexEntry, f: nat)
    requires t.WellFormed() && idx < |t.psl| && dist <= MAX_PROBE && Inserting(t, hash, key, idx, dist, e, f)
    ensures InsertEnds(Probe(t, key, idx, dist, e), hash)
    decreases Slack(t.psl), 129 - dist as int
  {
    hide Inserting, InsertEnds;
    if t.psl[idx] == 0 {
      InsertFills(t, hash, key, idx, dist, e, f);
    } else if t.psl[idx] < dist + 1 {
      InsertSwaps(t, hash, key, idx, dist, e, f);
      SlackAfterUpdate(t.psl, idx, dist);
      if t.psl[idx] + 2 <= MAX_PROBE {
        ProbeInserts(t.Write(idx, e, dist), hash, key, Next(idx, |t.psl|), t.psl[idx] + 2, t.entries[idx], f);
      }
    } else {
      InsertPasses(t, hash, key, idx, dist, e, f);
      if dist + 1 <= MAX_PROBE {
        ProbeInserts(t, hash, key, Next(idx, |t.psl|), dist + 1, e, f);
      }
    }
  }

  lemma ResidentIffCounted(t: Table, x: IndexEntry)
    requires t.WellFormed()
    ensures Count(t, x) > 0 <==> Resident(t, x)
    ensures UniqueKeys(t) ==> Count(t, x) <= 1
  {
    CountPositive(t, |t.psl|, x);
    if UniqueKeys(t) {
      CountAtMostOne(t, |t.psl|, x);
    }
  }

  /** Inserting an absent key while there is an empty slot: the invariant is kept. Success adds exactly
      the new entry; failure loses exactly one entry, the one left over, and keeps all others. */
  lemma UpsertAbsentKey(t: Table, hash: Hash, key: Key, entry: IndexEntry)
    requires Inv(t, hash) && entry.key == key && !HasKey(t, key) && HasFreeSlot(t)
    ensures var r, e := Upsert(t, hash, key, entry), entry.(tag := Tag(hash, key));
      && Inv(r.table, hash)
      && (r.ok <==> r.left == None)
      && (r.left.Some? ==> Resident(t, r.left.value) || r.left.value == e)
      && forall x :: Resident(r.table, x) <==> (Resident(t, x) || x == e) && Some(x) != r.left
  {
    var n := |t.psl|;
    var h, e := Home(hash, key, n), entry.(tag := Tag(hash, key));
    var f :| 0 <= f < n && t.psl[f] == 0;
    ProbeInserts(t, hash, key, h, 0, e, f);
    var r := Upsert(t, hash, key, entry);
    forall x
      ensures Resident(r.table, x) <==> (Resident(t, x) || x == e) && Some(x) != r.left
      ensures Some(x) == r.left ==> Resident(t, x) || x == e
    {
      ProbeConserves(t, key, h, 0, e, x);
      ResidentIffCounted(t, x);
      ResidentIffCounted(r.table, x);
    }
  }

  /** In terms of lookups: a successful insertion of an absent key changes the answer for that key only. */
  lemma UpsertAbsentKeyFind(t: Table, hash: Hash, key: Key, entry: IndexEntry, q: Key)
    requires Inv(t, hash) && entry.key == key && !HasKey(t, key) && HasFreeSlot(t)
    requires Upsert(t, hash, key, entry).ok
    ensures Find(Upsert(t, hash, key, entry).table, hash, q) ==
      if q != key then Find(t, hash, q)
      else if entry.deleted then None
      else Some(entry.(tag := Tag(hash, key)))
  {
    var r, e := Upsert(t, hash, key, entry), entry.(tag := Tag(hash, key));
    UpsertAbsentKey(t, hash, key, entry);
    FindIsExact(t, hash, q);
    FindIsExact(r.table, hash, q);
    var before, after := Find(t, hash, q), Find(r.table, hash, q);
    if q != key {
      if before.Some? {
        assert Resident(r.table, before.value);
      }
    } else {
      assert Resident(r.table, e);
      if after.Some? {
        assert after.value == e;
      }
    }
  }

  /** With no empty slot every insertion of an absent key loses an entry, even one that reports success. */
  lemma {:induction false} FullTableLosesAnEntry(t: Table, key: Key, idx: nat, dist: u8, e: IndexEntry)
    requires t.WellFormed() && idx < |t.psl| && dist <= MAX_PROBE && !HasFreeSlot(t)
    ensures var r := Probe(t, key, idx, dist, e); r.left.Some? && !HasFreeSlot(r.table)
    decreases Slack(t.psl), 129 - dist as int
  {
    if t.entries[idx].key != key {
      if t.psl[idx] < dist + 1 {
        SlackAfterUpdate(t.psl, idx, dist);
        if t.psl[idx] + 2 <= MAX_PROBE {
          FullTableLosesAnEntry(t.Write(idx, e, dist), key, Next(idx, |t.psl|), t.psl[idx] + 2, t.entries[idx]);
        }
      } else if dist + 1 <= MAX_PROBE {
        FullTableLosesAnEntry(t, key, Next(idx, |t.psl|), dist + 1, e);
      }
    }
  }

  // ---------------------------------------------------------------------------------------------
  // Updating a resident key
  // ---------------------------------------------------------------------------------------------

  /** A slot at offset j >= 1 on the way to slot i whose counter is exactly j: the loop swaps there. */
  ghost predicate Crowded(t: Table, h: nat, d: nat)
    requires t.WellFormed() && h < |t.psl| && d <= |t.psl|
  {
    exists j :: 1 <= j < d && t.psl[Slot(h, j, |t.psl|)] as int == j
  }

  /** The update the caller asks for: the resident at slot i is replaced if the new sequence is newer. */
  function CleanUpdate(t: Table, i: nat, e: IndexEntry): Table
    requires t.WellFormed() && i < |t.psl|
  {
    if SequenceNewer(e.sequence, t.entries[i].sequence) then t.Write(i, e, t.psl[i]) else t
  }

  /** The slots from offset m to d after h are occupied, and only the last of them holds key. */
  ghost predicate RunsTo(t: Table, key: Key, h: nat, m: nat, d: nat)
    requires t.WellFormed() && h < |t.psl| && d < |t.psl|
  {
    && (forall j :: m <= j <= d ==> t.psl[Slot(h, j, |t.psl|)] > 0)
    && (forall j :: m <= j < d ==> t.entries[Slot(h, j, |t.psl|)].key != key)
    && t.entries[Slot(h, d, |t.psl|)].key == key
  }

  lemma ResidentRun(t: Table, hash: Hash, i: nat)
    requires Inv(t, hash) && i < |t.psl| && t.psl[i] > 0
    ensures var h := Home(hash, t.entries[i].key, |t.psl|);
      var d := Displacement(h, i, |t.psl|);
      && d <= 128 && Slot(h, d, |t.psl|) == i && RunsTo(t, t.entries[i].key, h, 0, d)
      && Path(t.psl, h, d + 1)
  {
    var n := |t.psl|;
    var h := Home(hash, t.entries[i].key, n);
    var d := Displacement(h, i, n);
    assert Reachable(t.psl, hash, t.entries[i], i);
    assert forall j :: 0 <= j < d ==> Slot(h, j, n) != i;
  }

  lemma {:induction false} ProbeUpdatesCleanly(t: Table, key: Key, h: nat, d: nat, dist: u8, e: IndexEntry)
    requires t.WellFormed() && h < |t.psl| && dist as int <= d < |t.psl| && d <= 128
    requires Path(t.psl, h, d + 1) && RunsTo(t, key, h, 0, d) && !Crowded(t, h, d)
    ensures Probe(t, key, Slot(h, dist as int, |t.psl|), dist, e) ==
      var i := Slot(h, d, |t.psl|);
      Outcome(true, CleanUpdate(t, i, e),
              if SequenceNewer(e.sequence, t.entries[i].sequence) then Some(t.entries[i]) else Some(e))
    decreases 129 - dist as int
  {
    var n := |t.psl|;
    var s := Slot(h, dist as int, n);
    assert t.psl[s] as int >= Max(1, dist as int);
    if dist as int < d {
      assert dist > 0 ==> t.psl[s] != dist;
      ProbeUpdatesCleanly(t, key, h, d, dist + 1, e);
      assert Next(s, n) == Slot(h, dist as int + 1, n);
    }
  }

  /** The entry left over by an update: the old version, or an entry of another key that lost against it
      or was carried when the loop gave up. */
  ghost predicate LeftBehind(r: Outcome, key: Key, was: IndexEntry) {
    && r.left.Some?
    && (!r.ok ==> r.left.value.key != key)
    && (r.ok ==> r.left == Some(was) ||
                 (r.left.value.key != key && !SequenceNewer(r.left.value.sequence, was.sequence)))
  }

  /** The first m slots after h hold the same entries in both tables. */
  ghost predicate SameUpTo(t: Table, t': Table, h: nat, m: nat)
    requires t.WellFormed() && t'.WellFormed() && |t.psl| == |t'.psl| && h < |t.psl| && m <= |t.psl|
  {
    forall j :: 0 <= j < m ==> t'.entries[Slot(h, j, |t.psl|)] == t.entries[Slot(h, j, |t.psl|)]
  }

  lemma RunAfterWrite(t: Table, key: Key, h: nat, m: nat, d: nat, e: IndexEntry, p: u8)
    requires t.WellFormed() && h < |t.psl| && m < d < |t.psl| && RunsTo(t, key, h, m, d)
    ensures var t' := t.Write(Slot(h, m, |t.psl|), e, p);
      RunsTo(t', key, h, m + 1, d) && SameUpTo(t, t', h, m)
      && t'.entries[Slot(h, d, |t.psl|)] == t.entries[Slot(h, d, |t.psl|)]
  {
  }

  lemma ProbeMeetsKey(t: Table, key: Key, h: nat, d: nat, dist: u8, e: IndexEntry)
    requires t.WellFormed() && h < |t.psl| && d < |t.psl| && dist <= MAX_PROBE
    requires RunsTo(t, key, h, d, d) && e.key != key
    ensures var r := Probe(t, key, Slot(h, d, |t.psl|), dist, e);
      SameUpTo(t, r.table, h, d) && LeftBehind(r, key, t.entries[Slot(h, d, |t.psl|)])
  {
    assert t.psl[Slot(h, d, |t.psl|)] > 0;
  }

  /** The outcome r of a loop that runs from offset m to the old version of the key at offset d. */
  ghost predicate EndsAtKey(t: Table, r: Outcome, key: Key, h: nat, m: nat, d: nat)
    requires t.WellFormed() && h < |t.psl| && m <= d < |t.psl|
  {
    && r.table.WellFormed() && |r.table.psl| == |t.psl|
    && SameUpTo(t, r.table, h, m)
    && LeftBehind(r, key, t.entries[Slot(h, d, |t.psl|)])
  }

  lemma SwapThenEnd(t: Table, key: Key, h: nat, m: nat, d: nat, dist: u8, e: IndexEntry)
    requires t.WellFormed() && h < |t.psl| && m < d < |t.psl| && dist <= MAX_PROBE && RunsTo(t, key, h, m, d)
    requires var s := Slot(h, m, |t.psl|);
      var t1, out := t.Write(s, e, dist), t.entries[s];
      t.psl[s] < dist + 1 && (t.psl[s] + 2 <= MAX_PROBE ==>
        EndsAtKey(t1, Probe(t1, key, Slot(h, m + 1, |t.psl|), t.psl[s] + 2, out), key, h, m + 1, d))
    ensures EndsAtKey(t, Probe(t, key, Slot(h, m, |t.psl|), dist, e), key, h, m, d)
  {
    PassedSlot(t, key, h, m, d);
    RunAfterWrite(t, key, h, m, d, e, dist);
  }

  lemma PassThenEnd(t: Table, key: Key, h: nat, m: nat, d: nat, dist: u8, e: IndexEntry)
    requires t.WellFormed() && h < |t.psl| && m < d < |t.psl| && dist <= MAX_PROBE && RunsTo(t, key, h, m, d)
    requires e.key != key
    requires var s := Slot(h, m, |t.psl|); t.psl[s] >= dist + 1 && (dist + 1 <= MAX_PROBE ==>
      EndsAtKey(t, Probe(t, key, Slot(h, m + 1, |t.psl|), dist + 1, e), key, h, m + 1, d))
    ensures EndsAtKey(t, Probe(t, key, Slot(h, m, |t.psl|), dist, e), key, h, m, d)
  {
    PassedSlot(t, key, h, m, d);
  }

  /** Once a swap has taken place, the slots already passed keep their entries, and the loop ends at
      the old version of the key, or gives up, with an entry left over. */
  lemma {:induction false} ProbeAfterSwap(t: Table, key: Key, h: nat, m: nat, d: nat, dist: u8, e: IndexEntry)
    requires t.WellFormed() && h < |t.psl| && m <= d < |t.psl| && dist <= MAX_PROBE
    requires RunsTo(t, key, h, m, d) && e.key != key
    ensures EndsAtKey(t, Probe(t, key, Slot(h, m, |t.psl|), dist, e), key, h, m, d)
    decreases Slack(t.psl), 129 - dist as int
  {
    if m == d {
      ProbeMeetsKey(t, key, h, d, dist, e);
    } else {
      var s := Slot(h, m, |t.psl|);
      PassedSlot(t, key, h, m, d);
      if t.psl[s] < dist + 1 {
        SlackAfterUpdate(t.psl, s, dist);
        RunAfterWrite(t, key, h, m, d, e, dist);
        if t.psl[s] + 2 <= MAX_PROBE {
          ProbeAfterSwap(t.Write(s, e, dist), key, h, m + 1, d, t.psl[s] + 2, t.entries[s]);
        }
        SwapThenEnd(t, key, h, m, d, dist, e);
      } else {
        if dist + 1 <= MAX_PROBE {
          ProbeAfterSwap(t, key, h, m + 1, d, dist + 1, e);
        }
        PassThenEnd(t, key, h, m, d, dist, e);
      }
    }
  }

  lemma PassedSlot(t: Table, key: Key, h: nat, m: nat, d: nat)
    requires t.WellFormed() && h < |t.psl| && m < d < |t.psl| && RunsTo(t, key, h, m, d)
    ensures var s := Slot(h, m, |t.psl|);
      t.psl[s] > 0 && t.entries[s].key != key && Next(s, |t.psl|) == Slot(h, m + 1, |t.psl|)
    ensures RunsTo(t, key, h, m + 1, d)
  {
  }

  lemma {:induction false} ProbeSwapsWhenCrowded(t: Table, key: Key, h: nat, d: nat, dist: u8, e: IndexEntry)
    requires t.WellFormed() && h < |t.psl| && dist as int < d < |t.psl| && d <= 128
    requires Path(t.psl, h, d + 1) && RunsTo(t, key, h, 0, d) && e.key == key
    requires exists j :: Max(1, dist as int) <= j < d && t.psl[Slot(h, j, |t.psl|)] as int == j
    ensures var r := Probe(t, key, Slot(h, dist as int, |t.psl|), dist, e);
      && (exists j :: 0 <= j < d && r.table.entries[Slot(h, j, |t.psl|)] == e)
      && LeftBehind(r, key, t.entries[Slot(h, d, |t.psl|)])
    decreases 129 - dist as int
  {
    var n := |t.psl|;
    var s := Slot(h, dist as int, n);
    assert t.psl[s] as int >= Max(1, dist as int);
    assert Next(s, n) == Slot(h, dist as int + 1, n);
    if dist > 0 && t.psl[s] == dist {
      RunAfterWrite(t, key, h, dist as int, d, e, dist);
      if dist + 2 <= MAX_PROBE {
        ProbeAfterSwap(t.Write(s, e, dist), key, h, dist as int + 1, d, dist + 2, t.entries[s]);
      }
    } else {
      ProbeSwapsWhenCrowded(t, key, h, d, dist + 1, e);
    }
  }

  lemma MovedKeyIsNoCleanUpdate(t: Table, t': Table, key: Key, h: nat, d: nat, e: IndexEntry, j: nat)
    requires t.WellFormed() && t'.WellFormed() && |t.psl| == |t'.psl| && h < |t.psl| && j < d < |t.psl|
    requires RunsTo(t, key, h, 0, d) && e.key == key && t'.entries[Slot(h, j, |t.psl|)] == e
    ensures t' != CleanUpdate(t, Slot(h, d, |t.psl|), e)
  {
    var s, i := Slot(h, j, |t.psl|), Slot(h, d, |t.psl|);
    assert t.entries[s].key != key && s != i;
    assert CleanUpdate(t, i, e).entries[s] == t.entries[s];
  }

  /** The outcome the caller of an update asks for. */
  ghost predicate UpdatesInPlace(t: Table, r: Outcome, i: nat, e: IndexEntry)
    requires t.WellFormed() && i < |t.psl|
  {
    r.ok && r.table == CleanUpdate(t, i, e)
  }

  lemma UncrowdedUpdate(t: Table, key: Key, h: nat, d: nat, e: IndexEntry)
    requires t.WellFormed() && h < |t.psl| && d < |t.psl| && d <= 128
    requires Path(t.psl, h, d + 1) && RunsTo(t, key, h, 0, d) && !Crowded(t, h, d)
    ensures UpdatesInPlace(t, Probe(t, key, h, 0, e), Slot(h, d, |t.psl|), e)
  {
    ProbeUpdatesCleanly(t, key, h, d, 0, e);
  }

  lemma CrowdedUpdate(t: Table, key: Key, h: nat, d: nat, e: IndexEntry)
    requires t.WellFormed() && h < |t.psl| && d < |t.psl| && d <= 128
    requires Path(t.psl, h, d + 1) && RunsTo(t, key, h, 0, d) && Crowded(t, h, d) && e.key == key
    ensures !UpdatesInPlace(t, Probe(t, key, h, 0, e), Slot(h, d, |t.psl|), e)
  {
    ProbeSwapsWhenCrowded(t, key, h, d, 0, e);
    var r := Probe(t, key, h, 0, e);
    var j :| 0 <= j < d && r.table.entries[Slot(h, j, |t.psl|)] == e;
    MovedKeyIsNoCleanUpdate(t, r.table, key, h, d, e, j);
  }

  /** Updating a resident key replaces exactly its own slot if and only if no slot before it is crowded. */
  lemma UpsertResidentKeyIsCleanIff(t: Table, hash: Hash, entry: IndexEntry, i: nat)
    requires Inv(t, hash) && i < |t.psl| && t.psl[i] > 0 && t.entries[i].key == entry.key
    ensures var h := Home(hash, entry.key, |t.psl|);
      UpdatesInPlace(t, Upsert(t, hash, entry.key, entry), i, entry.(tag := Tag(hash, entry.key))) <==>
      !Crowded(t, h, Displacement(h, i, |t.psl|))
  {
    var h, e := Home(hash, entry.key, |t.psl|), entry.(tag := Tag(hash, entry.key));
    var d := Displacement(h, i, |t.psl|);
    ResidentRun(t, hash, i);
    if Crowded(t, h, d) {
      CrowdedUpdate(t, entry.key, h, d, e);
    } else {
      UncrowdedUpdate(t, entry.key, h, d, e);
    }
  }

  /** What a crowded update does instead: the table keeps every entry and the new one, except the one left
      over. That is the old version of the key, or else an entry of another key, whose lookup then fails. */
  lemma UpsertResidentKeyCrowded(t: Table, hash: Hash, entry: IndexEntry, i: nat)
    requires Inv(t, hash) && i < |t.psl| && t.psl[i] > 0 && t.entries[i].key == entry.key
    requires var h := Home(hash, entry.key, |t.psl|); Crowded(t, h, Displacement(h, i, |t.psl|))
    ensures var r, e := Upsert(t, hash, entry.key, entry), entry.(tag := Tag(hash, entry.key));
      && r.left.Some?
      && Exchanged(t, r.table, e, r.left.value)
      && (r.left == Some(t.entries[i]) ||
           (r.left.value.key != entry.key && Resident(t, r.left.value)
            && Find(r.table, hash, r.left.value.key) == None))
  {
    var key, n := entry.key, |t.psl|;
    var h, e := Home(hash, key, n), entry.(tag := Tag(hash, key));
    ResidentRun(t, hash, i);
    ProbeSwapsWhenCrowded(t, key, h, Displacement(h, i, n), 0, e);
    var r := Upsert(t, hash, key, entry);
    ProbeExchanges(t, key, h, 0, e);
    if r.left != Some(t.entries[i]) {
      LostKeyNotFound(t, r.table, hash, e, r.left.value);
    }
  }

  /** t' holds what t holds, plus e, minus y. */
  ghost predicate Exchanged(t: Table, t': Table, e: IndexEntry, y: IndexEntry)
    requires t.WellFormed() && t'.WellFormed()
  {
    forall x :: Count(t', x) + Is(Some(y), x) == Count(t, x) + Is(Some(e), x)
  }

  lemma ProbeExchanges(t: Table, key: Key, idx: nat, dist: u8, e: IndexEntry)
    requires t.WellFormed() && idx < |t.psl| && dist <= MAX_PROBE && NoGhosts(t)
    requires Probe(t, key, idx, dist, e).left.Some?
    ensures var r := Probe(t, key, idx, dist, e);
      NoGhosts(r.table) && Exchanged(t, r.table, e, r.left.value)
  {
    var r := Probe(t, key, idx, dist, e);
    ProbeConserves(t, key, idx, dist, e, e);
    forall x
      ensures Count(r.table, x) + Is(Some(r.left.value), x) == Count(t, x) + Is(Some(e), x)
    {
      ProbeConserves(t, key, idx, dist, e, x);
    }
  }

  lemma LostKeyNotFound(t: Table, t': Table, hash: Hash, e: IndexEntry, y: IndexEntry)
    requires Inv(t, hash) && t'.WellFormed() && NoGhosts(t') && y.key != e.key && Exchanged(t, t', e, y)
    ensures Resident(t, y) && Find(t', hash, y.key) == None
  {
    assert Count(t', y) + Is(Some(y), y) == Count(t, y) + Is(Some(e), y);
    ResidentIffCounted(t, y);
    var s := FindSlot(t', hash, y.key);
    if s.Some? {
      NoSlotForLostKey(t, t', hash, e, y, s.value);
    }
  }

  /** A table that holds the residents of t and e, but not the resident y of another key, has no slot
      that answers a search for y's key. */
  lemma NoSlotForLostKey(t: Table, t': Table, hash: Hash, e: IndexEntry, y: IndexEntry, s: nat)
    requires Inv(t, hash) && t'.WellFormed() && NoGhosts(t') && Resident(t, y) && y.key != e.key
    requires Exchanged(t, t', e, y) && s < |t'.psl|
    ensures !(t'.entries[s].key == y.key && t'.entries[s].tag == Tag(hash, y.key))
  {
    var z := t'.entries[s];
    if z.key == y.key && z.tag == Tag(hash, y.key) {
      assert t'.psl[s] > 0;
      assert Count(t', z) + Is(Some(y), z) == Count(t, z) + Is(Some(e), z);
      ResidentIffCounted(t', z);
      ResidentIffCounted(t, z);
      ResidentIffCounted(t, y);
      assert Resident(t', z);
    }
  }

  // ---------------------------------------------------------------------------------------------
  // Refinement: the table implements the index rule
  // ---------------------------------------------------------------------------------------------

  /** The residents of t are exactly the entries of the map ix. */
  ghost predicate Represents(t: Table, ix: IndexRule.Index)
    requires t.WellFormed()
  {
    forall x :: Resident(t, x) <==> x.key in ix && ix[x.key] == x
  }

  lemma RepresentsKeys(t: Table, ix: IndexRule.Index, key: Key)
    requires t.WellFormed() && Represents(t, ix) && forall k :: k in ix ==> ix[k].key == k
    ensures HasKey(t, key) <==> key in ix
  {
    if HasKey(t, key) {
      var i :| 0 <= i < |t.psl| && t.psl[i] > 0 && t.entries[i].key == key;
      assert Resident(t, t.entries[i]);
    }
    if key in ix {
      assert Resident(t, ix[key]);
    }
  }

  lemma FindRefines(t: Table, hash: Hash, ix: IndexRule.Index, key: Key)
    requires Inv(t, hash) && Represents(t, ix) && forall k :: k in ix ==> ix[k].key == k
    ensures Find(t, hash, key) == IndexRule.Find(ix, key)
  {
    FindIsExact(t, hash, key);
    if Find(t, hash, key).Some? {
      assert Resident(t, Find(t, hash, key).value);
    }
    if IndexRule.Find(ix, key).Some? {
      assert Resident(t, ix[key]);
    }
  }

  /** Overwriting the entry of an occupied slot by one with the same key and tag. */
  lemma ReplaceInPlace(t: Table, hash: Hash, ix: IndexRule.Index, i: nat, e: IndexEntry)
    requires Inv(t, hash) && Represents(t, ix) && i < |t.psl| && t.psl[i] > 0
    requires e.key == t.entries[i].key && e.tag == Tag(hash, e.key)
    ensures Inv(t.Write(i, e, t.psl[i]), hash) && Represents(t.Write(i, e, t.psl[i]), ix[e.key := e])
  {
    ReplaceKeepsInv(t, hash, i, e);
    forall x
      ensures Resident(t.Write(i, e, t.psl[i]), x) <==> x.key in ix[e.key := e] && ix[e.key := e][x.key] == x
    {
      ReplacedResidents(t, i, e, x);
      assert Resident(t, t.entries[i]);
      assert Resident(t, x) <==> x.key in ix && ix[x.key] == x;
    }
  }

  lemma ReplaceKeepsInv(t: Table, hash: Hash, i: nat, e: IndexEntry)
    requires Inv(t, hash) && i < |t.psl| && t.psl[i] > 0 && e.key == t.entries[i].key && e.tag == Tag(hash, e.key)
    ensures Inv(t.Write(i, e, t.psl[i]), hash)
  {
    var t' := t.Write(i, e, t.psl[i]);
    assert t'.psl == t.psl;
    forall k | 0 <= k < |t.psl| && t'.psl[k] > 0
      ensures Reachable(t'.psl, hash, t'.entries[k], k)
    {
      assert Reachable(t.psl, hash, t.entries[k], k);
    }
  }

  lemma ReplacedResidents(t: Table, i: nat, e: IndexEntry, x: IndexEntry)
    requires t.WellFormed() && UniqueKeys(t) && i < |t.psl| && t.psl[i] > 0 && e.key == t.entries[i].key
    ensures Resident(t.Write(i, e, t.psl[i]), x) <==> x == e || (x.key != e.key && Resident(t, x))
  {
    var t' := t.Write(i, e, t.psl[i]);
    if Resident(t', x) {
      var k :| 0 <= k < |t.psl| && t'.psl[k] > 0 && t'.entries[k] == x;
      assert k == i || t.entries[k] == x;
    }
    if Resident(t, x) {
      var k :| 0 <= k < |t.psl| && t.psl[k] > 0 && t.entries[k] == x;
      assert k == i || t'.entries[k] == x;
    }
    assert t'.entries[i] == e;
  }

  /** The condition under which an upsert is a clean map update, as a caller can check it. */
  ghost predicate Clean(t: Table, hash: Hash, key: Key)
    requires t.WellFormed()
  {
    && (!HasKey(t, key) ==> HasFreeSlot(t))
    && forall i :: 0 <= i < |t.psl| && t.psl[i] > 0 && t.entries[i].key == key ==>
         var h := Home(hash, key, |t.psl|); !Crowded(t, h, Displacement(h, i, |t.psl|))
  }

  /** The main refinement: a successful upsert of an absent key into a table with an empty slot, and any
      upsert of a resident key with no crowded slot before it, is the map update of the index rule. */
  lemma UpsertRefines(t: Table, hash: Hash, ix: IndexRule.Index, entry: IndexEntry)
    requires Inv(t, hash) && Represents(t, ix) && forall k :: k in ix ==> ix[k].key == k
    requires Clean(t, hash, entry.key)
    ensures var r, e := Upsert(t, hash, entry.key, entry), entry.(tag := Tag(hash, entry.key));
      && Inv(r.table, hash)
      && (entry.key in ix ==> r.ok)
      && (r.ok ==> Represents(r.table, IndexRule.Upsert(ix, entry.key, e)))
  {
    var key, e := entry.key, entry.(tag := Tag(hash, entry.key));
    var r := Upsert(t, hash, key, entry);
    RepresentsKeys(t, ix, key);
    if HasKey(t, key) {
      var i :| 0 <= i < |t.psl| && t.psl[i] > 0 && t.entries[i].key == key;
      UpsertResidentKeyIsCleanIff(t, hash, entry, i);
      assert Resident(t, t.entries[i]);
      if SequenceNewer(e.sequence, t.entries[i].sequence) {
        ReplaceInPlace(t, hash, ix, i, e);
      }
    } else {
      UpsertAbsentKey(t, hash, key, entry);
    }
  }

  /** Setting the deleted flag of the slot `find` returns. */
  function Remove(t: Table, hash: Hash, key: Key): (r: (bool, Table))
    requires t.WellFormed()
    ensures r.1.WellFormed()
  {
    var s := FindSlot(t, hash, key);
    if s.Some? then (true, t.Write(s.value, t.entries[s.value].(deleted := true), t.psl[s.value])) else (false, t)
  }

  lemma RemoveRefines(t: Table, hash: Hash, ix: IndexRule.Index, key: Key)
    requires Inv(t, hash) && Represents(t, ix) && forall k :: k in ix ==> ix[k].key == k
    ensures var r := Remove(t, hash, key);
      Inv(r.1, hash) && Represents(r.1, IndexRule.Remove(ix, key)) && (r.0 <==> IndexRule.Find(ix, key).Some?)
  {
    FindRefines(t, hash, ix, key);
    var s := FindSlot(t, hash, key);
    if s.Some? {
      assert t.psl[s.value] > 0;
      assert Resident(t, t.entries[s.value]);
      ReplaceInPlace(t, hash, ix, s.value, t.entries[s.value].(deleted := true));
    }
  }

  // ---------------------------------------------------------------------------------------------
  // How many slots are taken
  // ---------------------------------------------------------------------------------------------

  function PopulationTo(psl: seq<u8>, n: nat): (c: nat)
    requires n <= |psl|
    ensures c <= n
  {
    if n == 0 then 0 else PopulationTo(psl, n - 1) + (if psl[n - 1] > 0 then 1 else 0)
  }

  function Population(psl: seq<u8>): nat {
    PopulationTo(psl, |psl|)
  }

  lemma {:induction false} PopulationAfterUpdate(psl: seq<u8>, n: nat, i: nat, p: u8)
    requires n <= |psl| && i < |psl|
    ensures PopulationTo(psl[i := p], n) + (if i < n && psl[i] > 0 then 1 else 0) ==
            PopulationTo(psl, n) + (if i < n && p > 0 then 1 else 0)
  {
    if n > 0 {
      PopulationAfterUpdate(psl, n - 1, i, p);
    }
  }

  lemma {:induction false} FullPopulation(psl: seq<u8>, n: nat)
    requires n <= |psl|
    ensures PopulationTo(psl, n) == n <==> forall i :: 0 <= i < n ==> psl[i] > 0
  {
    if n > 0 {
      FullPopulation(psl, n - 1);
    }
  }

  /** The number of taken slots grows by one exactly when an empty slot is filled. */
  lemma {:induction false} ProbePopulation(t: Table, key: Key, idx: nat, dist: u8, e: IndexEntry)
    requires t.WellFormed() && idx < |t.psl| && dist <= MAX_PROBE && NoGhosts(t)
    ensures var r := Probe(t, key, idx, dist, e);
      Population(r.table.psl) == Population(t.psl) + (if r.left == None then 1 else 0)
    decreases Slack(t.psl), 129 - dist as int
  {
    if t.Free(idx) {
      PopulationAfterUpdate(t.psl, |t.psl|, idx, dist + 1);
    } else if t.entries[idx].key == key {
      PopulationAfterUpdate(t.psl, |t.psl|, idx, t.psl[idx]);
    } else if t.psl[idx] < dist + 1 {
      SlackAfterUpdate(t.psl, idx, dist);
      PopulationAfterUpdate(t.psl, |t.psl|, idx, dist);
      if t.psl[idx] + 2 <= MAX_PROBE {
        ProbePopulation(t.Write(idx, e, dist), key, Next(idx, |t.psl|), t.psl[idx] + 2, t.entries[idx]);
      }
    } else if dist + 1 <= MAX_PROBE {
      ProbePopulation(t, key, Next(idx, |t.psl|), dist + 1, e);
    }
  }

  // ---------------------------------------------------------------------------------------------
  // A key lost: four puts completing out of order, then an update of a resident key
  // ---------------------------------------------------------------------------------------------

  function ExampleHash(key: Key): u64 {
    0x100_0000_0000_0000 + key % 8
  }

  function ExampleEntry(key: Key, sequence: u32): IndexEntry {
    IndexEntry(key, 0, 1, false, sequence, 1, 1)
  }

  /** A table of eight slots, the last four of them empty. */
  function ExampleTable(e0: IndexEntry, e1: IndexEntry, e2: IndexEntry, e3: IndexEntry, p: seq<u8>): Table
    requires |p| == 4
  {
    Table([e0, e1, e2, e3, ZERO_ENTRY, ZERO_ENTRY, ZERO_ENTRY, ZERO_ENTRY], p + [0, 0, 0, 0])
  }

  /** The homes of the example keys, and the tag they share. */
  lemma ExampleHome(hash: Hash, key: Key)
    requires hash == (k => ExampleHash(k))
    ensures Tag(hash, key) == 1 && Home(hash, key, 4) == key % 4 && Home(hash, key, 2) == key % 2
  {
  }

  lemma ExampleFirst(hash: Hash)
    requires hash == (k => ExampleHash(k))
    ensures var z, a := ZERO_ENTRY, ExampleEntry(8, 1);
      Upsert(ExampleTable(z, z, z, z, [0, 0, 0, 0]), hash, 8, a).table == ExampleTable(a, z, z, z, [1, 0, 0, 0])
  {
    var z, a := ZERO_ENTRY, ExampleEntry(8, 1);
    ExampleHome(hash, 8);
    ProbeStep(ExampleTable(z, z, z, z, [0, 0, 0, 0]), 8, 0, 0, a);
    hide Probe, Home, Tag;
  }

  lemma ExampleSecond(hash: Hash)
    requires hash == (k => ExampleHash(k))
    ensures var z, a, b := ZERO_ENTRY, ExampleEntry(8, 1), ExampleEntry(9, 2);
      Upsert(ExampleTable(a, z, z, z, [1, 0, 0, 0]), hash, 9, b).table == ExampleTable(a, b, z, z, [1, 1, 0, 0])
  {
    var z, a, b := ZERO_ENTRY, ExampleEntry(8, 1), ExampleEntry(9, 2);
    ExampleHome(hash, 9);
    ProbeStep(ExampleTable(a, z, z, z, [1, 0, 0, 0]), 9, 1, 0, b);
    hide Probe, Home, Tag;
  }

  lemma ExampleSwap(hash: Hash)
    requires hash == (k => ExampleHash(k))
    ensures var z := ZERO_ENTRY; var a, b, c := ExampleEntry(8, 1), ExampleEntry(9, 2), ExampleEntry(16, 10);
      Upsert(ExampleTable(a, b, z, z, [1, 1, 0, 0]), hash, 16, c).table == ExampleTable(a, c, b, z, [1, 1, 4, 0])
  {
    var z := ZERO_ENTRY;
    var a, b, c := ExampleEntry(8, 1), ExampleEntry(9, 2), ExampleEntry(16, 10);
    var t := ExampleTable(a, b, z, z, [1, 1, 0, 0]);
    assert Upsert(t, hash, 16, c) == Probe(t, 16, 1, 1, c);
    assert Probe(t, 16, 1, 1, c) == Probe(t.Write(1, c, 1), 16, 2, 3, b);
  }

  lemma ExampleSecondSwap(hash: Hash)
    requires hash == (k => ExampleHash(k))
    ensures var z := ZERO_ENTRY;
      var a, b, c, d := ExampleEntry(8, 1), ExampleEntry(9, 2), ExampleEntry(16, 10), ExampleEntry(24, 5);
      Upsert(ExampleTable(a, c, b, z, [1, 1, 4, 0]), hash, 24, d).table == ExampleTable(a, d, b, c, [1, 1, 4, 5])
  {
    var z := ZERO_ENTRY;
    var a, b, c, d := ExampleEntry(8, 1), ExampleEntry(9, 2), ExampleEntry(16, 10), ExampleEntry(24, 5);
    var t := ExampleTable(a, c, b, z, [1, 1, 4, 0]);
    assert Upsert(t, hash, 24, d) == Probe(t, 24, 1, 1, d);
    assert Probe(t, 24, 1, 1, d) == Probe(t.Write(1, d, 1), 24, 2, 3, c);
    assert Probe(t.Write(1, d, 1), 24, 2, 3, c) == Probe(t.Write(1, d, 1), 24, 3, 4, c);
  }

  lemma ExampleLoss(hash: Hash)
    requires hash == (k => ExampleHash(k))
    ensures var a, b, c, d := ExampleEntry(8, 1), ExampleEntry(9, 2), ExampleEntry(16, 10), ExampleEntry(24, 5);
      var t, e := ExampleTable(a, d, b, c, [1, 1, 4, 5]), ExampleEntry(16, 11);
      Upsert(t, hash, 16, e) == Outcome(true, ExampleTable(a, e, b, c, [1, 1, 4, 5]), Some(d))
  {
    var a, b, c, d := ExampleEntry(8, 1), ExampleEntry(9, 2), ExampleEntry(16, 10), ExampleEntry(24, 5);
    var t, e := ExampleTable(a, d, b, c, [1, 1, 4, 5]), ExampleEntry(16, 11);
    assert Upsert(t, hash, 16, e) == Probe(t, 16, 1, 1, e);
    assert Probe(t, 16, 1, 1, e) == Probe(t.Write(1, e, 1), 16, 2, 3, d);
    assert Probe(t.Write(1, e, 1), 16, 2, 3, d) == Probe(t.Write(1, e, 1), 16, 3, 4, d);
  }

  /** Keys 8, 16 and 24 share a home, key 9 lives next to it. The put of 24 is older than that of 16 but
      completes after it; the next put of 16 then succeeds and removes 24 from the table. */
  lemma UpdateCanLoseAnotherKey(hash: Hash)
    requires hash == (k => ExampleHash(k))
    ensures var z := ZERO_ENTRY;
      var t0 := ExampleTable(z, z, z, z, [0, 0, 0, 0]);
      var t1 := Upsert(t0, hash, 8, ExampleEntry(8, 1)).table;
      var t2 := Upsert(t1, hash, 9, ExampleEntry(9, 2)).table;
      var t3 := Upsert(t2, hash, 16, ExampleEntry(16, 10)).table;
      var t4 := Upsert(t3, hash, 24, ExampleEntry(24, 5)).table;
      var r := Upsert(t4, hash, 16, ExampleEntry(16, 11));
      && Find(t4, hash, 24) == Some(ExampleEntry(24, 5))
      && r.ok && Find(r.table, hash, 24) == None
  {
    ExampleFirst(hash);
    ExampleSecond(hash);
    ExampleSwap(hash);
    ExampleSecondSwap(hash);
    ExampleLoss(hash);
    var a, b, c, d := ExampleEntry(8, 1), ExampleEntry(9, 2), ExampleEntry(16, 10), ExampleEntry(24, 5);
    var t := ExampleTable(a, ExampleEntry(16, 11), b, c, [1, 1, 4, 5]);
    assert FindFrom(t, 24, 1, 0, 0) == FindFrom(t, 24, 1, 1, 1);
    assert FindFrom(t, 24, 1, 1, 1) == FindFrom(t, 24, 1, 2, 2);
    assert FindFrom(t, 24, 1, 2, 2) == FindFrom(t, 24, 1, 3, 3);
    assert FindFrom(t, 24, 1, 3, 3) == FindFrom(t, 24, 1, 4, 4) == None;
  }

  // ---------------------------------------------------------------------------------------------
  // An insertion into a full table that reports success
  // ---------------------------------------------------------------------------------------------

  /** A table of two slots with an entry in each. */
  function PairTable(a: IndexEntry, b: IndexEntry, p: u8, q: u8): Table {
    Table([a, b], [p, q])
  }

  /** Key 4 takes the place of key 3, which takes that of key 2, and key 2 is carried on until the loop meets key 4. */
  lemma PairProbe(a: IndexEntry, b: IndexEntry, c: IndexEntry)
    requires a.key == 2 && b.key == 3 && c.key == 4 && !SequenceNewer(a.sequence, c.sequence)
    ensures Probe(PairTable(a, b, 1, 1), 4, 0, 0, c) == Outcome(true, PairTable(b, c, 3, 1), Some(a))
  {
    var t0, t1, t2 := PairTable(a, b, 1, 1), PairTable(a, c, 1, 1), PairTable(b, c, 3, 1);
    ProbeStep(t0, 4, 0, 0, c);
    ProbeStep(t0, 4, 1, 1, c);
    assert t0.Write(1, c, 1) == t1;
    ProbeStep(t1, 4, 0, 3, b);
    assert t1.Write(0, b, 3) == t2;
    ProbeStep(t2, 4, 1, 3, a);
    hide Probe;
  }

  /**
   Three insertions into an empty table of two slots: all report success, and the third removes the first key, which
   a lookup found before.
   */
  lemma FullTableReportsSuccess(hash: Hash)
    requires hash == (k => ExampleHash(k))
    ensures var z := ZERO_ENTRY;
      var r1 := Upsert(PairTable(z, z, 0, 0), hash, 2, ExampleEntry(2, 1));
      var r2 := Upsert(r1.table, hash, 3, ExampleEntry(3, 2));
      var r3 := Upsert(r2.table, hash, 4, ExampleEntry(4, 3));
      && r1.ok && r2.ok && r3.ok && !HasFreeSlot(r2.table)
      && Find(r2.table, hash, 2) == Some(ExampleEntry(2, 1)) && r3.left == Some(ExampleEntry(2, 1))
      && Find(r3.table, hash, 2) == None
  {
    var a, b, c := ExampleEntry(2, 1), ExampleEntry(3, 2), ExampleEntry(4, 3);
    FirstTwo(hash);
    PairProbe(a, b, c);
    ExampleHome(hash, 4);
    FirstIsLost(hash);
    hide Probe, Find, Home, Tag;
  }

  lemma FirstTwo(hash: Hash)
    requires hash == (k => ExampleHash(k))
    ensures var z, a, b := ZERO_ENTRY, ExampleEntry(2, 1), ExampleEntry(3, 2);
      && Upsert(PairTable(z, z, 0, 0), hash, 2, a) == Outcome(true, PairTable(a, z, 1, 0), None)
      && Upsert(PairTable(a, z, 1, 0), hash, 3, b) == Outcome(true, PairTable(a, b, 1, 1), None)
  {
    var z, a, b := ZERO_ENTRY, ExampleEntry(2, 1), ExampleEntry(3, 2);
    ProbeStep(PairTable(z, z, 0, 0), 2, 0, 0, a);
    ProbeStep(PairTable(a, z, 1, 0), 3, 1, 0, b);
    assert PairTable(z, z, 0, 0).Write(0, a, 1) == PairTable(a, z, 1, 0);
    assert PairTable(a, z, 1, 0).Write(1, b, 1) == PairTable(a, b, 1, 1);
    hide Probe;
  }

  lemma FirstIsLost(hash: Hash)
    requires hash == (k => ExampleHash(k))
    ensures var a, b, c := ExampleEntry(2, 1), ExampleEntry(3, 2), ExampleEntry(4, 3);
      Find(PairTable(a, b, 1, 1), hash, 2) == Some(a) && Find(PairTable(b, c, 3, 1), hash, 2) == None
  {
    var t := PairTable(ExampleEntry(3, 2), ExampleEntry(4, 3), 3, 1);
    var tag := Tag(hash, 2);
    assert FindFrom(t, 2, tag, 1, 3) == None;
    assert FindFrom(t, 2, tag, 0, 2) == None;
  }
}
