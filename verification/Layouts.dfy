/** The fields of everything the engine writes, byte by byte. */
module Layouts {
  import opened Types
  import opened Bytes
  import EntryFormat
  import Superblocks
  import RobinHood
  import IndexDump
  import AllocLog
  import Damage

  predicate AllZero(s: seq<Byte>, from: nat, to: nat)
    requires from <= to <= |s|
  {
    forall i :: from <= i < to ==> s[i] == 0
  }

  /** A record: version 1, the flag and the reserved bytes, the value behind a prefix of 28 bytes, and zeros up to the
      checksum, which ends the first page boundary that leaves room for it. */
  lemma RecordLayout(r: EntryFormat.Rec, crc: Checksum)
    requires EntryFormat.Storable(r)
    ensures var s := EntryFormat.Build(r, crc); var n := |r.value|;
      && |s| % 4096 == 0 && n + 32 <= |s| < n + 32 + 4096
      && Field(s, 0, 4) == 0x5350444B && Field(s, 4, 2) == 1 && Field(s, 6, 1) == (if r.tombstone then 1 else 0)
      && Field(s, 7, 1) == 0 && Field(s, 8, 4) == r.sequence && Field(s, 12, 4) == 0 && Field(s, 16, 8) == r.key
      && Field(s, 24, 4) == n && s[28..28 + n] == r.value && AllZero(s, 28 + n, |s| - 4)
      && Field(s, |s| - 4, 4) == crc(s[..|s| - 4])
  {
    var s, n := EntryFormat.Build(r, crc), |r.value|;
    RecordPrefix(r, crc);
    RecordRest(r, crc);
    RecordChecksum(r, crc);
  }

  lemma RecordPrefix(r: EntryFormat.Rec, crc: Checksum)
    requires EntryFormat.Storable(r)
    ensures var s := EntryFormat.Build(r, crc);
      && Field(s, 0, 4) == 0x5350444B && Field(s, 4, 2) == 1 && Field(s, 6, 1) == (if r.tombstone then 1 else 0)
      && Field(s, 7, 1) == 0 && Field(s, 8, 4) == r.sequence && Field(s, 12, 4) == 0 && Field(s, 16, 8) == r.key
      && Field(s, 24, 4) == |r.value|
  {
    Powers();
    var cells := EntryFormat.PrefixCells(r);
    var post := r.value + EntryFormat.Zeros(EntryFormat.Size(r) - 4 - 28 - |r.value|)
      + LE(crc(EntryFormat.Body(r)), 4);
    assert EntryFormat.Build(r, crc) == Layout(cells) + post;
    assert Offset(cells, 1) == 4 && Offset(cells, 3) == 7 && Offset(cells, 5) == 12;
    hide Layout, Field, Offset, EntryFormat.Build, EntryFormat.Body;
    LayoutReadsBack(cells, 0, post);
    LayoutReadsBack(cells, 1, post);
    LayoutReadsBack(cells, 2, post);
    LayoutReadsBack(cells, 3, post);
    LayoutReadsBack(cells, 4, post);
    LayoutReadsBack(cells, 5, post);
    LayoutReadsBack(cells, 6, post);
    LayoutReadsBack(cells, 7, post);
  }

  lemma RecordRest(r: EntryFormat.Rec, crc: Checksum)
    ensures var s := EntryFormat.Build(r, crc); var n := |r.value|;
      && |s| % 4096 == 0 && n + 32 <= |s| < n + 32 + 4096
      && s[28..28 + n] == r.value && AllZero(s, 28 + n, |s| - 4)
  {
    hide Layout;
  }

  lemma RecordChecksum(r: EntryFormat.Rec, crc: Checksum)
    requires EntryFormat.Storable(r)
    ensures var s := EntryFormat.Build(r, crc); Field(s, |s| - 4, 4) == crc(s[..|s| - 4])
  {
    var s := EntryFormat.Build(r, crc);
    hide EntryFormat.Build, Field, EntryFormat.SizeFor;
    Damage.BuiltChecks(r, s, crc);
  }

  lemma SuperblockLayout(b: Superblocks.Super, crc: Checksum)
    ensures var s := Superblocks.Image(b, crc);
      && |s| == 20 + |b.rest| && Field(s, 0, 4) == 0x53504B56 && Field(s, 4, 4) == 1 && Field(s, 8, 8) == b.sequence
      && s[16..|s| - 4] == b.rest && Field(s, |s| - 4, 4) == crc(s[..|s| - 4])
  {
    Powers();
    Superblocks.ImageChecks(b, crc);
    var cells := Superblocks.HeadCells(b);
    var post := b.rest + LE(crc(Superblocks.Body(b)), 4);
    assert Superblocks.Image(b, crc) == Layout(cells) + post;
    assert Offset(cells, 1) == 4;
    LayoutReadsBack(cells, 1, post);
  }

  /** The dump of an index: a header of 64 bytes, then 20 bytes for each entry. */
  lemma DumpLayout(t: RobinHood.Table, sequence: u32, bufferSize: nat, checksum: Checksum)
    requires t.WellFormed() && |t.psl| < 0x1_0000_0000_0000_0000 && bufferSize >= 64
    ensures var s := IndexDump.Dump(t, sequence, bufferSize, checksum);
      && 64 <= |s| <= bufferSize && (|s| - 64) % 20 == 0
      && Field(s, 0, 4) == 0x4D494458 && Field(s, 4, 4) == 1 && Field(s, 8, 8) == (|s| - 64) / 20
      && Field(s, 16, 8) == |t.psl| && Field(s, 24, 8) == sequence && Field(s, 32, 4) == checksum(s[64..])
      && AllZero(s, 36, 64)
  {
    hide *;
    var es := DumpIs(t, sequence, bufferSize, checksum);
    EntriesFit(|es|, bufferSize);
    DumpOf(es, |t.psl|, sequence, checksum);
  }

  lemma DumpIs(t: RobinHood.Table, sequence: u32, bufferSize: nat, checksum: Checksum) returns (es: seq<IndexEntry>)
    requires t.WellFormed() && bufferSize >= 64
    ensures IndexDump.Dump(t, sequence, bufferSize, checksum)
         == IndexDump.Header(|es|, |t.psl|, sequence, checksum(IndexDump.EncodeAll(es))) + IndexDump.EncodeAll(es)
    ensures |es| <= |t.psl| && |es| <= (bufferSize - 64) / 20
  {
    hide IndexDump.Occupants, IndexDump.Header, IndexDump.EncodeAll;
    es := IndexDump.Occupants(t, |t.psl|, (bufferSize - 64) / 20);
    PopulationBelow(t, |t.psl|);
  }

  lemma EntriesFit(n: nat, bufferSize: nat)
    requires bufferSize >= 64 && n <= (bufferSize - 64) / 20
    ensures 64 + 20 * n <= bufferSize
  {
  }

  lemma DumpOf(es: seq<IndexEntry>, capacity: nat, sequence: u32, checksum: Checksum)
    requires |es| <= capacity < 0x1_0000_0000_0000_0000
    ensures var data := IndexDump.EncodeAll(es);
      var s := IndexDump.Header(|es|, capacity, sequence, checksum(data)) + data;
      && |s| == 64 + 20 * |es| && (|s| - 64) % 20 == 0 && (|s| - 64) / 20 == |es|
      && Field(s, 0, 4) == 0x4D494458 && Field(s, 4, 4) == 1 && Field(s, 8, 8) == |es|
      && Field(s, 16, 8) == capacity && Field(s, 24, 8) == sequence && Field(s, 32, 4) == checksum(s[64..])
      && AllZero(s, 36, 64)
  {
    var data := IndexDump.EncodeAll(es);
    hide IndexDump.Header, IndexDump.EncodeAll, Field;
    var s := IndexDump.Header(|es|, capacity, sequence, checksum(data)) + data;
    HeaderLayout(|es|, capacity, sequence, checksum(data), data);
    assert s[64..] == data;
  }

  lemma {:induction false} PopulationBelow(t: RobinHood.Table, n: nat)
    requires t.WellFormed() && n <= |t.psl|
    ensures RobinHood.PopulationTo(t.psl, n) <= n
  {
    if n > 0 {
      PopulationBelow(t, n - 1);
    }
  }

  lemma HeaderLayout(count: nat, capacity: nat, sequence: u32, checksum: u32, post: seq<Byte>)
    requires count < 0x1_0000_0000_0000_0000 && capacity < 0x1_0000_0000_0000_0000
    ensures var s := IndexDump.Header(count, capacity, sequence, checksum) + post;
      && Field(s, 0, 4) == 0x4D494458 && Field(s, 4, 4) == 1 && Field(s, 8, 8) == count && Field(s, 16, 8) == capacity
      && Field(s, 24, 8) == sequence && Field(s, 32, 4) == checksum && AllZero(s, 36, 64)
  {
    Powers();
    var cells := IndexDump.HeaderCells(count, capacity, sequence, checksum);
    assert Offset(cells, 1) == 4 && Offset(cells, 3) == 16 && Offset(cells, 6) == 36;
    HeaderZeros(cells, post);
    hide Layout, Field, Offset, LayoutTo;
    LayoutReadsBack(cells, 0, post);
    LayoutReadsBack(cells, 1, post);
    LayoutReadsBack(cells, 2, post);
    LayoutReadsBack(cells, 3, post);
    LayoutReadsBack(cells, 4, post);
    LayoutReadsBack(cells, 5, post);
  }

  lemma HeaderZeros(cells: seq<Cell>, post: seq<Byte>)
    requires |cells| == 7 && cells[6] == Cell(0, 28) && Offset(cells, 6) == 36 && Offset(cells, 7) == 64
    ensures AllZero(Layout(cells) + post, 36, 64)
  {
    ZeroBytes(28);
    hide LE;
    assert LayoutTo(cells, 7) == LayoutTo(cells, 6) + LE(0, 28);
  }

  lemma {:induction false} ZeroBytes(n: nat)
    ensures forall i :: 0 <= i < n ==> LE(0, n)[i] == 0
  {
    if n > 0 {
      ZeroBytes(n - 1);
    }
  }

  /** A record of the allocation log as it is made: its kind is an allocation. */
  lemma LogEntryLayout(sequence: u32, what: AllocLog.Allocation, crc: Checksum)
    ensures var e := AllocLog.MakeEntry(sequence, what, crc); var s := AllocLog.Covered(e);
      && |s| == 60 && Field(s, 0, 4) == 0x414C4F47 && Field(s, 4, 4) == sequence && Field(s, 8, 8) == what.blobId
      && Field(s, 16, 2) == what.fileId && Field(s, 18, 1) == 1 && Field(s, 24, 8) == what.createTime
      && Field(s, 32, 8) == what.fileSize && e.checksum == crc(s)
  {
    var e := AllocLog.MakeEntry(sequence, what, crc);
    Damage.CoveredFields(e);
    AllocLog.MadeEntryIsValid(sequence, what, crc);
    hide AllocLog.Covered, Field;
  }
}
