/** The byte format in which the index is written to a checkpoint, and the loading of such a dump. */
module IndexDump {
  import opened Types
  import opened Bytes
  import opened RobinHood
  import IndexRule

  const MEM_INDEX_MAGIC: u32 := 0x4D494458
  const HEADER_SIZE: nat := 64
  const ENTRY_SIZE: nat := 20

  // ---------------------------------------------------------------------------------------------
  // One entry in 20 bytes: key, the packed word (file id, offset, deleted), sequence, pages, tag
  // ---------------------------------------------------------------------------------------------

  function PackWord(e: IndexEntry): nat {
    e.fileId + 0x400 * e.offsetIndex + (if e.deleted then 0x8000_0000 else 0)
  }

  function EntryCells(e: IndexEntry): (cells: seq<Cell>)
    ensures |cells| == 6 && Offset(cells, 0) == 0 && Offset(cells, 1) == 8 && Offset(cells, 2) == 12
    ensures Offset(cells, 3) == 16 && Offset(cells, 4) == 18 && Offset(cells, 6) == ENTRY_SIZE
  {
    var cells := [Cell(e.key, 8), Cell(PackWord(e), 4), Cell(e.sequence, 4), Cell(e.pageCount, 2),
                  Cell(e.tag as nat, 1), Cell(0, 1)];
    assert Offset(cells, 1) == 8 && Offset(cells, 2) == 12;
    assert Offset(cells, 3) == 16 && Offset(cells, 4) == 18;
    assert Offset(cells, 5) == 19;
    cells
  }

  function Encode(e: IndexEntry): (s: seq<Byte>)
    ensures |s| == ENTRY_SIZE
  {
    Layout(EntryCells(e))
  }

  function Decode(s: seq<Byte>): IndexEntry
    requires |s| == ENTRY_SIZE
  {
    FieldBound(s, 0, 8); FieldBound(s, 8, 4); FieldBound(s, 12, 4); FieldBound(s, 16, 2);
    FieldBound(s, 18, 1); Powers();
    var w := Field(s, 8, 4);
    IndexEntry(Field(s, 0, 8), w % 0x400, w / 0x400 % 0x20_0000, w / 0x8000_0000 == 1,
               Field(s, 12, 4), Field(s, 16, 2), Field(s, 18, 1) as u8)
  }

  lemma PackedFields(e: IndexEntry)
    requires e.Packable()
    ensures var w := PackWord(e);
      && w < 0x1_0000_0000 && w % 0x400 == e.fileId
      && w / 0x400 % 0x20_0000 == e.offsetIndex && (w / 0x8000_0000 == 1 <==> e.deleted)
  {
    var w := PackWord(e);
    assert w / 0x400 == e.offsetIndex + (if e.deleted then 0x20_0000 else 0);
  }

  lemma EntryRoundTrip(e: IndexEntry)
    requires e.Packable()
    ensures Decode(Encode(e)) == e
  {
    PackedFields(e);
    Powers();
    var cells := EntryCells(e);
    LayoutReadsBack(cells, 0, []);
    LayoutReadsBack(cells, 1, []);
    LayoutReadsBack(cells, 2, []);
    LayoutReadsBack(cells, 3, []);
    LayoutReadsBack(cells, 4, []);
    assert Encode(e) + [] == Encode(e);
  }

  function EncodeAll(es: seq<IndexEntry>): (s: seq<Byte>)
    ensures |s| == ENTRY_SIZE * |es|
  {
    if es == [] then [] else EncodeAll(es[..|es| - 1]) + Encode(es[|es| - 1])
  }

  lemma EncodeOneMore(es: seq<IndexEntry>, e: IndexEntry)
    ensures EncodeAll(es + [e]) == EncodeAll(es) + Encode(e)
  {
    assert (es + [e])[..|es|] == es;
  }

  lemma {:induction false} EncodeAllAt(es: seq<IndexEntry>, i: nat)
    requires i < |es|
    ensures EncodeAll(es)[ENTRY_SIZE * i..ENTRY_SIZE * (i + 1)] == Encode(es[i])
  {
    if i < |es| - 1 {
      var front := es[..|es| - 1];
      EncodeAllAt(front, i);
      assert EncodeAll(es)[ENTRY_SIZE * i..ENTRY_SIZE * (i + 1)]
          == EncodeAll(front)[ENTRY_SIZE * i..ENTRY_SIZE * (i + 1)];
    }
  }

  // ---------------------------------------------------------------------------------------------
  // The dump: a 64-byte header, then the occupied slots in slot order
  // ---------------------------------------------------------------------------------------------

  /** The entries of the occupied slots among the first n, at most max of them. */
  function Occupants(t: Table, n: nat, max: nat): (es: seq<IndexEntry>)
    requires t.WellFormed() && n <= |t.psl|
    ensures |es| <= max && |es| <= PopulationTo(t.psl, n)
  {
    if n == 0 then []
    else
      var es := Occupants(t, n - 1, max);
      if t.psl[n - 1] > 0 && |es| < max then es + [t.entries[n - 1]] else es
  }

  /** Once max entries are collected, the remaining slots are not looked at. */
  lemma {:induction false} OccupantsFull(t: Table, n: nat, max: nat)
    requires t.WellFormed() && n <= |t.psl| && (n == |t.psl| || |Occupants(t, n, max)| == max)
    ensures Occupants(t, |t.psl|, max) == Occupants(t, n, max)
    decreases |t.psl| - n
  {
    if n < |t.psl| {
      OccupantsFull(t, n + 1, max);
    }
  }

  function HeaderCells(count: nat, capacity: nat, sequence: u32, checksum: u32): (cells: seq<Cell>)
    ensures |cells| == 7 && Offset(cells, 0) == 0 && Offset(cells, 2) == 8
    ensures Offset(cells, 4) == 24 && Offset(cells, 5) == 32 && Offset(cells, 7) == HEADER_SIZE
  {
    var cells := [Cell(MEM_INDEX_MAGIC, 4), Cell(1, 4), Cell(count, 8), Cell(capacity, 8),
                  Cell(sequence, 8), Cell(checksum, 4), Cell(0, 28)];
    assert Offset(cells, 1) == 4 && Offset(cells, 2) == 8;
    assert Offset(cells, 3) == 16 && Offset(cells, 4) == 24;
    assert Offset(cells, 5) == 32 && Offset(cells, 6) == 36;
    cells
  }

  function Header(count: nat, capacity: nat, sequence: u32, checksum: u32): (s: seq<Byte>)
    ensures |s| == HEADER_SIZE
  {
    Layout(HeaderCells(count, capacity, sequence, checksum))
  }

  function Dump(t: Table, sequence: u32, bufferSize: nat, checksum: Checksum): seq<Byte>
    requires t.WellFormed()
  {
    if bufferSize < HEADER_SIZE then []
    else
      var es := Occupants(t, |t.psl|, (bufferSize - HEADER_SIZE) / ENTRY_SIZE);
      Header(|es|, |t.psl|, sequence, checksum(EncodeAll(es))) + EncodeAll(es)
  }

  lemma HeaderFields(count: nat, capacity: nat, sequence: u32, checksum: u32, post: seq<Byte>)
    requires count < Pow256(8) && capacity < Pow256(8)
    ensures var s := Header(count, capacity, sequence, checksum) + post;
      && Field(s, 0, 4) == MEM_INDEX_MAGIC && Field(s, 8, 8) == count
      && Field(s, 24, 8) == sequence && Field(s, 32, 4) == checksum
  {
    Powers();
    var cells := HeaderCells(count, capacity, sequence, checksum);
    LayoutReadsBack(cells, 0, post);
    LayoutReadsBack(cells, 2, post);
    LayoutReadsBack(cells, 4, post);
    LayoutReadsBack(cells, 5, post);
  }

  // ---------------------------------------------------------------------------------------------
  // Loading
  // ---------------------------------------------------------------------------------------------

  /** Upserting the entries that are not deleted, one after the other. */
  function Load(t: Table, hash: Hash, es: seq<IndexEntry>): (t': Table)
    requires t.WellFormed()
    ensures t'.WellFormed() && |t'.psl| == |t.psl|
  {
    if es == [] then t
    else
      var t', e := Load(t, hash, es[..|es| - 1]), es[|es| - 1];
      if e.deleted then t' else Upsert(t', hash, e.key, e).table
  }

  /** Every one of these upserts reports success. */
  ghost predicate LoadSucceeds(t: Table, hash: Hash, es: seq<IndexEntry>)
    requires t.WellFormed()
  {
    es == [] ||
    var front, e := es[..|es| - 1], es[|es| - 1];
    LoadSucceeds(t, hash, front) && (e.deleted || Upsert(Load(t, hash, front), hash, e.key, e).ok)
  }

  ghost predicate DistinctKeys(es: seq<IndexEntry>) {
    forall i, j :: 0 <= i < j < |es| ==> es[i].key != es[j].key
  }

  /** The index the live entries of es describe. */
  function Live(es: seq<IndexEntry>): (ix: IndexRule.Index)
    ensures forall k :: k in ix ==> ix[k].key == k && ix[k] in es
  {
    if es == [] then map[]
    else
      var ix, e := Live(es[..|es| - 1]), es[|es| - 1];
      if e.deleted then ix else ix[e.key := e]
  }

  lemma LastKeyIsNew(front: seq<IndexEntry>, e: IndexEntry)
    requires DistinctKeys(front + [e])
    ensures forall x :: x in front ==> x.key != e.key
  {
    var es := front + [e];
    forall x | x in front
      ensures x.key != e.key
    {
      var i :| 0 <= i < |front| && front[i] == x;
      assert es[i].key != es[|front|].key;
    }
  }

  lemma {:induction false} LiveIs(es: seq<IndexEntry>)
    requires DistinctKeys(es)
    ensures forall x: IndexEntry :: (x.key in Live(es) && Live(es)[x.key] == x) <==> x in es && !x.deleted
    ensures |Live(es)| <= |es|
  {
    if es != [] {
      var front, e := es[..|es| - 1], es[|es| - 1];
      assert es == front + [e];
      LiveIs(front);
      LastKeyIsNew(front, e);
    }
  }

  lemma LiveOneMore(front: seq<IndexEntry>, e: IndexEntry)
    requires DistinctKeys(front + [e])
    ensures DistinctKeys(front) && e.key !in Live(front)
    ensures Live(front + [e]) == if e.deleted then Live(front) else Live(front)[e.key := e]
    ensures |Live(front + [e])| == |Live(front)| + (if e.deleted then 0 else 1)
  {
    assert (front + [e])[..|front|] == front;
    LastKeyIsNew(front, e);
  }

  ghost predicate Tagged(es: seq<IndexEntry>, hash: Hash) {
    forall i :: 0 <= i < |es| ==> es[i].tag == Tag(hash, es[i].key)
  }

  /** Loading distinct keys into an empty table with room for all of them gives the live map. */
  lemma {:induction false} LoadRepresentsLive(t: Table, hash: Hash, es: seq<IndexEntry>)
    requires t.WellFormed() && LoadedAs(t, hash, map[]) && DistinctKeys(es) && Tagged(es, hash)
    requires |Live(es)| <= |t.psl| && LoadSucceeds(t, hash, es)
    ensures LoadedAs(Load(t, hash, es), hash, Live(es))
  {
    hide LoadedAs, Live, Upsert, Population;
    if es != [] {
      var front, e := es[..|es| - 1], es[|es| - 1];
      assert es == front + [e];
      LiveOneMore(front, e);
      LoadRepresentsLive(t, hash, front);
      if !e.deleted {
        LoadOneMore(Load(t, hash, front), hash, Live(front), e);
      }
    }
  }

  ghost predicate LoadedAs(t: Table, hash: Hash, ix: IndexRule.Index)
    requires t.WellFormed()
  {
    Inv(t, hash) && Represents(t, ix) && Population(t.psl) == |ix|
  }

  lemma LoadOneMore(t: Table, hash: Hash, ix: IndexRule.Index, e: IndexEntry)
    requires t.WellFormed() && LoadedAs(t, hash, ix) && forall k :: k in ix ==> ix[k].key == k
    requires e.key !in ix && e.tag == Tag(hash, e.key) && |ix| < |t.psl|
    requires Upsert(t, hash, e.key, e).ok
    ensures LoadedAs(Upsert(t, hash, e.key, e).table, hash, ix[e.key := e])
  {
    RepresentsKeys(t, ix, e.key);
    FullPopulation(t.psl, |t.psl|);
    UpsertAbsentKey(t, hash, e.key, e);
    UpsertRefines(t, hash, ix, e);
    ProbePopulation(t, e.key, Home(hash, e.key, |t.psl|), 0, e);
  }

  /** x is in one of the first n slots. */
  ghost predicate ResidentTo(t: Table, n: nat, x: IndexEntry)
    requires t.WellFormed() && n <= |t.psl|
  {
    exists i :: 0 <= i < n && t.psl[i] > 0 && t.entries[i] == x
  }

  /** With room for all, the dump holds each resident once. */
  lemma {:induction false} OccupantsAre(t: Table, n: nat, max: nat)
    requires t.WellFormed() && UniqueKeys(t) && n <= |t.psl| && PopulationTo(t.psl, n) <= max
    ensures |Occupants(t, n, max)| == PopulationTo(t.psl, n)
    ensures DistinctKeys(Occupants(t, n, max))
    ensures forall x :: x in Occupants(t, n, max) <==> ResidentTo(t, n, x)
  {
    if n > 0 {
      OccupantsAre(t, n - 1, max);
      var front := Occupants(t, n - 1, max);
      assert forall x :: ResidentTo(t, n, x) <==>
        (ResidentTo(t, n - 1, x) || (t.psl[n - 1] > 0 && x == t.entries[n - 1]));
      if t.psl[n - 1] > 0 {
        assert forall x :: x in front ==> x.key != t.entries[n - 1].key;
      }
    }
  }

  lemma OccupantsTagged(t: Table, hash: Hash, max: nat)
    requires Inv(t, hash) && Population(t.psl) <= max
    ensures Tagged(Occupants(t, |t.psl|, max), hash)
  {
    OccupantsAre(t, |t.psl|, max);
    var es := Occupants(t, |t.psl|, max);
    forall k | 0 <= k < |es|
      ensures es[k].tag == Tag(hash, es[k].key)
    {
      var e := es[k];
      assert ResidentTo(t, |t.psl|, e);
      var i :| 0 <= i < |t.psl| && t.psl[i] > 0 && t.entries[i] == e;
      assert Reachable(t.psl, hash, t.entries[i], i);
    }
  }

  /** A dump with room for all entries, loaded into an empty table of any capacity that can hold the live
      ones, answers every lookup as the original does, provided every upsert succeeds. */
  lemma DumpLoadsBack(t: Table, hash: Hash, max: nat, t0: Table, q: Key)
    requires Inv(t, hash) && Population(t.psl) <= max
    requires t0.WellFormed() && LoadedAs(t0, hash, map[])
    requires var es := Occupants(t, |t.psl|, max); |Live(es)| <= |t0.psl| && LoadSucceeds(t0, hash, es)
    ensures var t' := Load(t0, hash, Occupants(t, |t.psl|, max));
      Inv(t', hash) && Find(t', hash, q) == Find(t, hash, q)
  {
    var es := Occupants(t, |t.psl|, max);
    OccupantsAre(t, |t.psl|, max);
    OccupantsTagged(t, hash, max);
    LoadRepresentsLive(t0, hash, es);
    var t' := Load(t0, hash, es);
    FindRefines(t', hash, Live(es), q);
    SameLiveKey(t, hash, es, q);
  }

  lemma SameLiveKey(t: Table, hash: Hash, es: seq<IndexEntry>, q: Key)
    requires Inv(t, hash) && DistinctKeys(es) && forall x :: x in es <==> ResidentTo(t, |t.psl|, x)
    ensures IndexRule.Find(Live(es), q) == Find(t, hash, q)
  {
    LiveIs(es);
    FindIsExact(t, hash, q);
    var x, x' := Find(t, hash, q), IndexRule.Find(Live(es), q);
    if x.Some? {
      assert ResidentTo(t, |t.psl|, x.value);
    }
    if x'.Some? {
      assert x'.value in es;
      assert Resident(t, x'.value);
    }
  }

  // ---------------------------------------------------------------------------------------------
  // Reading a dump back from its bytes
  // ---------------------------------------------------------------------------------------------

  function EntryAt(data: seq<Byte>, i: nat): IndexEntry
    requires ENTRY_SIZE * (i + 1) <= |data|
  {
    Decode(data[ENTRY_SIZE * i..ENTRY_SIZE * (i + 1)])
  }

  function EntriesIn(data: seq<Byte>, count: nat): (es: seq<IndexEntry>)
    requires count * ENTRY_SIZE <= |data|
    ensures |es| == count && forall i :: 0 <= i < count ==> es[i] == EntryAt(data, i)
  {
    seq(count, i requires 0 <= i < count => EntryAt(data, i))
  }

  /** The entries and the global sequence a buffer holds, if its magic, checksum and count are right. */
  function Undump(buffer: seq<Byte>, checksum: Checksum): Option<(seq<IndexEntry>, u32)> {
    if |buffer| < HEADER_SIZE then None
    else
      var data := buffer[HEADER_SIZE..];
      var count := Field(buffer, 8, 8);
      if Field(buffer, 0, 4) != MEM_INDEX_MAGIC then None
      else if checksum(data) != Field(buffer, 32, 4) then None
      else if count * ENTRY_SIZE > |data| then None
      else Some((EntriesIn(data, count), Field(buffer, 24, 8) % TWO32))
  }

  /** A buffer is refused exactly if it is shorter than the header, or its magic, its checksum or its count is wrong. */
  lemma UndumpRefusesIff(buffer: seq<Byte>, checksum: Checksum)
    ensures Undump(buffer, checksum) == None <==>
      || |buffer| < 64
      || Field(buffer, 0, 4) != 0x4D494458
      || Field(buffer, 32, 4) != checksum(buffer[64..])
      || 64 + 20 * Field(buffer, 8, 8) > |buffer|
    ensures Undump(buffer, checksum).Some? ==> |Undump(buffer, checksum).value.0| == Field(buffer, 8, 8)
  {
  }

  /** Reading what was dumped gives the dumped entries and sequence, whatever the size of the buffer. */
  lemma UndumpOfDump(t: Table, sequence: u32, bufferSize: nat, checksum: Checksum)
    requires t.WellFormed() && |t.psl| < Pow256(8) && bufferSize >= HEADER_SIZE
    requires forall i :: 0 <= i < |t.psl| ==> t.entries[i].Packable()
    ensures Undump(Dump(t, sequence, bufferSize, checksum), checksum) ==
            Some((Occupants(t, |t.psl|, (bufferSize - HEADER_SIZE) / ENTRY_SIZE), sequence))
  {
    var max := (bufferSize - HEADER_SIZE) / ENTRY_SIZE;
    OccupantsPackable(t, |t.psl|, max);
    hide Undump, Occupants, EncodeAll, Header;
    UndumpOfEntries(Occupants(t, |t.psl|, max), |t.psl|, sequence, checksum);
  }

  lemma UndumpOfEntries(es: seq<IndexEntry>, capacity: nat, sequence: u32, checksum: Checksum)
    requires |es| <= capacity < Pow256(8) && forall e :: e in es ==> e.Packable()
    ensures var data := EncodeAll(es);
      Undump(Header(|es|, capacity, sequence, checksum(data)) + data, checksum) == Some((es, sequence))
  {
    hide EncodeAll, Header, Field, EntriesIn, Pow256;
    var data := EncodeAll(es);
    HeaderFields(|es|, capacity, sequence, checksum(data), data);
    var buffer := Header(|es|, capacity, sequence, checksum(data)) + data;
    assert buffer[HEADER_SIZE..] == data;
    EntriesReadBack(es);
  }

  lemma {:induction false} OccupantsPackable(t: Table, n: nat, max: nat)
    requires t.WellFormed() && n <= |t.psl| && forall i :: 0 <= i < n ==> t.entries[i].Packable()
    ensures forall e :: e in Occupants(t, n, max) ==> e.Packable()
  {
    if n > 0 {
      OccupantsPackable(t, n - 1, max);
    }
  }

  lemma EntriesReadBack(es: seq<IndexEntry>)
    requires forall e :: e in es ==> e.Packable()
    ensures |EncodeAll(es)| == |es| * ENTRY_SIZE && EntriesIn(EncodeAll(es), |es|) == es
  {
    forall i | 0 <= i < |es|
      ensures EntryAt(EncodeAll(es), i) == es[i]
    {
      EncodeAllAt(es, i);
      EntryRoundTrip(es[i]);
    }
  }
}
