/** What a load takes and refuses, and what damage the engine's checksum is sure to notice. */
module Damage {
  import opened Types
  import opened Bytes
  import opened EntryFormat
  import opened AllocLog
  import Recovery
  import Superblocks
  import IndexDump
  import Crc32
  import CrcBursts

  // ---------------------------------------------------------------------------------------------
  // The allocation log
  // ---------------------------------------------------------------------------------------------

  /** No two records have the same covered bytes, so whichever field is damaged, the bytes are. */
  lemma CoveredIsInjective(e: LogEntry, e': LogEntry)
    requires Covered(e) == Covered(e') && e.op < 0x100 && e'.op < 0x100
    ensures e.magic == e'.magic && e.sequence == e'.sequence && e.op == e'.op && e.what == e'.what
  {
    CoveredFields(e);
    CoveredFields(e');
    hide Covered, Field;
  }

  /** Where the fields are in the 60 bytes. */
  lemma CoveredFields(e: LogEntry)
    requires e.op < 0x100
    ensures var s := Covered(e);
      && |s| == 60 && Field(s, 0, 4) == e.magic && Field(s, 4, 4) == e.sequence && Field(s, 8, 8) == e.what.blobId
      && Field(s, 16, 2) == e.what.fileId && Field(s, 18, 1) == e.op && Field(s, 24, 8) == e.what.createTime
      && Field(s, 32, 8) == e.what.fileSize
  {
    Powers();
    var cells := [Cell(e.magic, 4), Cell(e.sequence, 4), Cell(e.what.blobId, 8), Cell(e.what.fileId, 2),
                  Cell(e.op, 1), Cell(0, 1), Cell(0, 4), Cell(e.what.createTime, 8), Cell(e.what.fileSize, 8),
                  Cell(0, 20)];
    assert Offset(cells, 1) == 4 && Offset(cells, 2) == 8;
    assert Offset(cells, 3) == 16 && Offset(cells, 4) == 18;
    assert Offset(cells, 5) == 19 && Offset(cells, 6) == 20;
    assert Offset(cells, 7) == 24 && Offset(cells, 8) == 32;
    assert Offset(cells, 9) == 40 && Offset(cells, 10) == 60;
    assert Covered(e) == Layout(cells) + [];
    hide Layout, Field, Offset;
    LayoutReadsBack(cells, 0, []);
    LayoutReadsBack(cells, 1, []);
    LayoutReadsBack(cells, 2, []);
    LayoutReadsBack(cells, 3, []);
    LayoutReadsBack(cells, 4, []);
    LayoutReadsBack(cells, 7, []);
    LayoutReadsBack(cells, 8, []);
  }

  /** A record with the magic and the checksum of its own 60 bytes that is newer than the one before it. */
  predicate Readable(e: LogEntry, last: u32, crc: Checksum) {
    e.magic == 0x414C4F47 && e.checksum == crc(Covered(e)) && e.sequence > last
  }

  /** The sequence the record in place j must exceed. */
  function Before(es: seq<LogEntry>, j: nat, last: u32): u32
    requires j <= |es|
  {
    if j == 0 then last else es[j - 1].sequence
  }

  /** Place j after head holds the record found there, and it is readable. */
  predicate FoundAt(page: Page, head: u32, i: nat, last: u32, es: seq<LogEntry>, j: nat, crc: Checksum)
    requires j < |es|
  {
    es[j] == page[SlotOf(head, i + j)] && Readable(es[j], Before(es, j, last), crc)
  }

  lemma FoundLater(page: Page, head: u32, i: nat, last: u32, e: LogEntry, rest: seq<LogEntry>, j: nat, crc: Checksum)
    requires j < |rest| && FoundAt(page, head, i + 1, e.sequence, rest, j, crc)
    ensures FoundAt(page, head, i, last, [e] + rest, j + 1, crc)
  {
    hide SlotOf, Readable;
    assert i + 1 + j == i + (j + 1);
    assert ([e] + rest)[j + 1] == rest[j] && Before([e] + rest, j + 1, last) == Before(rest, j, e.sequence);
  }

  lemma FoundFirst(page: Page, head: u32, i: nat, last: u32, e: LogEntry, rest: seq<LogEntry>, crc: Checksum)
    requires i < 64 && e == page[SlotOf(head, i)] && ValidEntry(e, crc) && e.sequence > last
    ensures FoundAt(page, head, i, last, [e] + rest, 0, crc)
  {
    hide Covered, SlotOf;
  }

  /** A load goes on exactly at a readable record. */
  lemma LoadUnfolds(page: Page, head: u32, i: nat, last: u32, crc: Checksum)
    requires i < 64
    ensures var e := page[SlotOf(head, i)];
      && (ValidEntry(e, crc) && e.sequence > last <==> Readable(e, last, crc))
      && LoadFrom(page, head, i, last, crc) ==
           if Readable(e, last, crc) then [e] + LoadFrom(page, head, i + 1, e.sequence, crc) else []
  {
    hide Covered, SlotOf;
  }

  /** The records a load finds are all readable, and it stops only at the end of the page or at one that is not. */
  lemma {:induction false} LoadIsLongest(page: Page, head: u32, i: nat, last: u32, crc: Checksum)
    requires i <= 64
    ensures var es := LoadFrom(page, head, i, last, crc);
      && i + |es| <= 64 && (forall j :: 0 <= j < |es| ==> FoundAt(page, head, i, last, es, j, crc))
      && (i + |es| < 64 ==> !Readable(page[SlotOf(head, i + |es|)], Before(es, |es|, last), crc))
    decreases 64 - i
  {
    hide SlotOf, Readable, FoundAt, ValidEntry, LoadFrom;
    if i < 64 {
      var e := page[SlotOf(head, i)];
      LoadUnfolds(page, head, i, last, crc);
      if Readable(e, last, crc) {
        LoadIsLongest(page, head, i + 1, e.sequence, crc);
        var rest := LoadFrom(page, head, i + 1, e.sequence, crc);
        FoundFirst(page, head, i, last, e, rest, crc);
        forall j | 0 <= j < |[e] + rest|
          ensures FoundAt(page, head, i, last, [e] + rest, j, crc)
        {
          if j > 0 {
            FoundLater(page, head, i, last, e, rest, j - 1, crc);
          }
        }
        assert Before([e] + rest, |[e] + rest|, last) == Before(rest, |rest|, e.sequence);
        assert i + 1 + |rest| == i + |[e] + rest|;
      }
    }
  }

  // ---------------------------------------------------------------------------------------------
  // A data file
  // ---------------------------------------------------------------------------------------------

  /** No page of the gap begins like a record. */
  predicate NoRecords(gap: seq<Byte>, n: nat)
    requires n * 4096 <= |gap|
  {
    forall k :: 0 <= k < n ==> Field(gap, k * 4096, 4) != 0x5350444B
  }

  lemma NextPage(k: nat)
    ensures AlignUp(k * 4096 + 1) == (k + 1) * 4096
  {
  }

  lemma PageSkipped(b: seq<Byte>, o: nat, next: nat, crc: Checksum)
    requires o + PREFIX_SIZE <= |b| && Field(b, o, 4) != ENTRY_MAGIC && AlignUp(o + 1) == next < |b|
    ensures Recovery.Scan(b, o, crc) == Recovery.Scan(b, next, crc)
  {
    Recovery.ScanMovesOn(b, o, crc);
    hide Recovery.Scan, Field;
  }

  lemma {:induction false} GapSkipped(gap: seq<Byte>, rest: seq<Byte>, k: nat, n: nat, crc: Checksum)
    requires k <= n && |gap| == n * 4096 && NoRecords(gap, n) && |rest| >= 4096
    ensures Recovery.Scan(gap + rest, k * 4096, crc) == Recovery.Scan(gap + rest, n * 4096, crc)
    decreases n - k
  {
    hide Recovery.Scan, Field, AlignUp;
    if k < n {
      FieldOfPrefix(gap, rest, k * 4096, 4);
      NextPage(k);
      PageSkipped(gap + rest, k * 4096, (k + 1) * 4096, crc);
      GapSkipped(gap, rest, k + 1, n, crc);
    }
  }

  /** A scan goes over pages that do not begin like a record, and finds the records behind them. */
  lemma ScanSkipsGap(gap: seq<Byte>, n: nat, rs: seq<Rec>, zeros: nat, crc: Checksum)
    requires |gap| == n * 4096 && NoRecords(gap, n) && rs != [] && forall r :: r in rs ==> Storable(r)
    ensures Recovery.Scan(gap + (Recovery.BuildAll(rs, crc) + Zeros(zeros)), 0, crc) == Recovery.Expected(rs, |gap|)
  {
    var rest := Recovery.BuildAll(rs, crc) + Zeros(zeros);
    Recovery.BuildAllSize(rs, crc);
    assert |rest| >= Size(rs[0]) >= 4096;
    hide Recovery.Scan, Field, Recovery.Expected, Recovery.BuildAll, Build, Size;
    GapSkipped(gap, rest, 0, n, crc);
    var b := gap + Recovery.BuildAll(rs, crc) + Zeros(zeros);
    assert gap + rest == b;
    Recovery.ScanRecords(gap, rs, Zeros(zeros), crc);
    Recovery.ScanZeros(b, |gap| + Recovery.TotalSize(rs), crc);
    assert Recovery.Expected(rs, |gap|) + [] == Recovery.Expected(rs, |gap|);
  }

  // ---------------------------------------------------------------------------------------------
  // The engine's checksum
  // ---------------------------------------------------------------------------------------------

  function Octets(s: seq<Byte>): (r: seq<bv8>)
    ensures |r| == |s|
  {
    seq(|s|, i requires 0 <= i < |s| => s[i] as int as bv8)
  }

  /** The checksum every format uses: that of the table as it is, with its wrong entry. */
  function EngineCrc(s: seq<Byte>): u32 {
    Crc32.Checksum(Octets(s)) as int
  }

  /** The bytes differ, and only within 32 consecutive bits. */
  ghost predicate Burst(a: seq<Byte>, b: seq<Byte>) {
    a != b && exists k :: CrcBursts.DifferWithin(Octets(a), Octets(b), k)
  }

  lemma NextOctet(b: bv8)
    requires b != 255
    ensures (b + 1) as int == b as int + 1
  {
  }

  lemma OctetBack(b: bv8)
    ensures (b as int) as bv8 == b
  {
  }

  lemma {:induction false} OctetOf(x: int) returns (b: bv8)
    requires 0 <= x < 256
    ensures b as int == x
  {
    if x == 0 {
      b := 0;
    } else {
      var c := OctetOf(x - 1);
      NextOctet(c);
      b := c + 1;
    }
  }

  lemma OctetIs(x: int)
    requires 0 <= x < 256
    ensures (x as bv8) as int == x
  {
    var b := OctetOf(x);
    OctetBack(b);
  }

  lemma SameOctet(x: Byte, y: Byte)
    requires x as int as bv8 == y as int as bv8
    ensures x == y
  {
    OctetIs(x as int);
    OctetIs(y as int);
  }

  lemma OctetsDiffer(a: seq<Byte>, b: seq<Byte>)
    requires |a| == |b| && a != b
    ensures Octets(a) != Octets(b)
  {
    var i :| 0 <= i < |a| && a[i] != b[i];
    if Octets(a)[i] == Octets(b)[i] {
      SameOctet(a[i], b[i]);
    }
  }

  lemma WordIs(x: bv32)
    ensures (x as int) as bv32 == x
  {
  }

  lemma SameWord(x: bv32, y: bv32)
    requires x as int == y as int
    ensures x == y
  {
    WordIs(x);
    WordIs(y);
  }

  /** Every such change changes the checksum. */
  lemma BurstChangesCrc(a: seq<Byte>, b: seq<Byte>)
    requires Burst(a, b)
    ensures |a| == |b| && EngineCrc(a) != EngineCrc(b)
  {
    var k :| CrcBursts.DifferWithin(Octets(a), Octets(b), k);
    assert |a| == |b|;
    OctetsDiffer(a, b);
    CrcBursts.BurstDetected(Octets(a), Octets(b), k);
    hide Crc32.Checksum;
    if EngineCrc(a) == EngineCrc(b) {
      SameWord(Crc32.Checksum(Octets(a)), Crc32.Checksum(Octets(b)));
    }
  }

  // ---------------------------------------------------------------------------------------------
  // So a burst of up to 32 bits is noticed in every format
  // ---------------------------------------------------------------------------------------------

  /** A stored checksum that was right is wrong for bytes with another checksum. */
  lemma TailIsWrong(image: seq<Byte>, torn: seq<Byte>, n: nat, crc: Checksum)
    requires |torn| == |image| == n + 4 && torn[n..] == image[n..]
    requires Field(image, n, 4) == crc(image[..n]) != crc(torn[..n])
    ensures Field(torn, n, 4) != crc(torn[..n])
  {
    assert torn[n..] == torn[n..n + 4] && image[n..] == image[n..n + 4];
  }

  lemma TornSuperblock(s: Superblocks.Super, torn: seq<Byte>, crc: Checksum)
    requires var image := Superblocks.Image(s, crc); var n := |image| - 4;
      |torn| == |image| && torn[n..] == image[n..] && crc(image[..n]) != crc(torn[..n])
    ensures Superblocks.Damaged(torn, crc)
  {
    var image := Superblocks.Image(s, crc);
    Superblocks.ImageChecks(s, crc);
    hide Field, Superblocks.Image;
    TailIsWrong(image, torn, |image| - 4, crc);
  }

  /** In a superblock copy: the load goes on to the other copy. */
  lemma BurstInSuperblock(s: Superblocks.Super, torn: seq<Byte>, c: Superblocks.Copies)
    requires var image := Superblocks.Image(s, EngineCrc); var n := |image| - 4;
      |torn| == |image| && torn[n..] == image[n..] && Burst(image[..n], torn[..n])
    ensures Superblocks.Load(c.(primary := torn), EngineCrc) == Superblocks.Load(c.(primary := []), EngineCrc)
    ensures Superblocks.Load(c.(backup := torn), EngineCrc) == Superblocks.Load(c.(backup := []), EngineCrc)
  {
    hide Superblocks.Damaged, Superblocks.Load, EngineCrc, Superblocks.Body;
    var image := Superblocks.Image(s, EngineCrc);
    assert |image| >= 4;
    BurstChangesCrc(image[..|image| - 4], torn[..|image| - 4]);
    TornSuperblock(s, torn, EngineCrc);
    Superblocks.DamagedIsPassedOver(c.(primary := torn), EngineCrc);
    Superblocks.DamagedIsPassedOver(c.(backup := torn), EngineCrc);
  }

  /** In a record of the allocation log: a load that comes to it ends there. */
  lemma BurstInLogEntry(e: LogEntry, torn: LogEntry, page: Page, head: u32, i: nat, last: u32)
    requires ValidEntry(e, EngineCrc) && torn.checksum == e.checksum && Burst(Covered(e), Covered(torn))
    requires i < 64 && page[SlotOf(head, i)] == torn
    ensures LoadFrom(page, head, i, last, EngineCrc) == []
  {
    BurstChangesCrc(Covered(e), Covered(torn));
    hide EngineCrc, Covered, SlotOf;
  }

  lemma TornDump(buffer: seq<Byte>, torn: seq<Byte>, crc: Checksum)
    requires |torn| == |buffer| >= 64 && torn[..64] == buffer[..64]
    requires Field(buffer, 32, 4) == crc(buffer[64..]) != crc(torn[64..])
    ensures IndexDump.Undump(torn, crc) == None
  {
    IndexDump.UndumpRefusesIff(torn, crc);
    hide Field, IndexDump.Undump;
    FieldOfStart(buffer, torn);
  }

  lemma FieldOfStart(buffer: seq<Byte>, torn: seq<Byte>)
    requires |torn| == |buffer| >= 64 && torn[..64] == buffer[..64]
    ensures Field(torn, 32, 4) == Field(buffer, 32, 4)
  {
    assert torn[32..36] == torn[..64][32..36] && buffer[32..36] == buffer[..64][32..36];
  }

  /** In the entries of an index dump: it is refused. */
  lemma BurstInDump(buffer: seq<Byte>, torn: seq<Byte>)
    requires IndexDump.Undump(buffer, EngineCrc).Some?
    requires |torn| == |buffer| && torn[..64] == buffer[..64] && Burst(buffer[64..], torn[64..])
    ensures IndexDump.Undump(torn, EngineCrc) == None
  {
    IndexDump.UndumpRefusesIff(buffer, EngineCrc);
    hide EngineCrc, IndexDump.Undump, Field;
    BurstChangesCrc(buffer[64..], torn[64..]);
    TornDump(buffer, torn, EngineCrc);
  }

  lemma TornRecord(rs: seq<Rec>, r: Rec, torn: seq<Byte>, rest: seq<Byte>, crc: Checksum)
    requires Storable(r) && forall x :: x in rs ==> Storable(x)
    requires var n := Size(r) - 4; var built := Build(r, crc);
      |torn| == Size(r) && torn[n..] == built[n..] && crc(built[..n]) != crc(torn[..n])
    requires Field(torn, 0, 4) == ENTRY_MAGIC && Field(torn, 24, 4) == |r.value|
    ensures Recovery.Scan(Recovery.BuildAll(rs, crc) + (torn + rest), 0, crc) == Recovery.Expected(rs, 0)
  {
    var n, built := Size(r) - 4, Build(r, crc);
    BuiltChecks(r, built, crc);
    hide Field, Build, Size;
    TailIsWrong(built, torn, n, crc);
    var o := Recovery.TotalSize(rs);
    Recovery.BuildAllSize(rs, crc);
    TornAt(Recovery.BuildAll(rs, crc), torn, rest, o, n);
    TornIsDamaged(Recovery.BuildAll(rs, crc) + (torn + rest), o, r, torn, crc);
    Recovery.ScanStopsAtDamage(rs, torn + rest, crc);
  }

  lemma TornIsDamaged(b: seq<Byte>, o: nat, r: Rec, torn: seq<Byte>, crc: Checksum)
    requires var n := Size(r) - 4;
      && n + 4 == |torn| && o + n + 4 <= |b| && b[o..o + n] == torn[..n]
      && Field(b, o, 4) == ENTRY_MAGIC && Field(b, o + 24, 4) == |r.value|
      && Field(b, o + n, 4) == Field(torn, n, 4) != crc(torn[..n])
    ensures Recovery.Damaged(b, o, crc)
  {
    hide Field;
  }

  lemma BuiltChecks(r: Rec, built: seq<Byte>, crc: Checksum)
    requires Storable(r) && built == Build(r, crc)
    ensures |built| == Size(r) && Field(built, Size(r) - 4, 4) == crc(built[..Size(r) - 4])
  {
    hide Field, Build;
    assert built[0..0 + |built|] == built;
    RecordReadsBack(built, 0, r, crc);
    assert built[0..0 + Size(r) - 4] == built[..Size(r) - 4];
  }

  /** The fields of the damaged record, found where it lies. */
  lemma TornAt(pre: seq<Byte>, torn: seq<Byte>, rest: seq<Byte>, o: nat, n: nat)
    requires |pre| == o && n + 4 == |torn| && n >= PREFIX_SIZE
    ensures var b := pre + (torn + rest);
      && Field(b, o, 4) == Field(torn, 0, 4) && Field(b, o + 24, 4) == Field(torn, 24, 4)
      && Field(b, o + n, 4) == Field(torn, n, 4) && b[o..o + n] == torn[..n]
  {
    var b := pre + (torn + rest);
    assert HoldsAt(b, o, torn) by {
      assert b[o..o + |torn|] == torn;
    }
    FieldShift(b, o, torn, 0, 4);
    FieldShift(b, o, torn, 24, 4);
    FieldShift(b, o, torn, n, 4);
    SubSlice(b, o, |torn|, 0, n);
  }

  /** In a record of a data file, behind its magic and length: the scan finds the records before it, and ends. */
  lemma BurstInRecord(rs: seq<Rec>, r: Rec, torn: seq<Byte>, rest: seq<Byte>)
    requires Storable(r) && forall x :: x in rs ==> Storable(x)
    requires var n := Size(r) - 4; var built := Build(r, EngineCrc);
      |torn| == Size(r) && torn[n..] == built[n..] && Burst(built[..n], torn[..n])
    requires Field(torn, 0, 4) == 0x5350444B && Field(torn, 24, 4) == |r.value|
    ensures Recovery.Scan(Recovery.BuildAll(rs, EngineCrc) + (torn + rest), 0, EngineCrc) == Recovery.Expected(rs, 0)
  {
    hide EngineCrc, Field, SizeFor, Recovery.Scan, Recovery.BuildAll, Recovery.Expected;
    var n, built := Size(r) - 4, Build(r, EngineCrc);
    BurstChangesCrc(built[..n], torn[..n]);
    TornRecord(rs, r, torn, rest, EngineCrc);
  }
}
