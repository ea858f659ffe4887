/** The on-disk record: a 16-byte header, key, value length, value, zero padding and checksum, page aligned. */
module EntryFormat {
  import opened Types
  import opened Bytes

  const ENTRY_MAGIC: u32 := 0x5350444B
  const PREFIX_SIZE: nat := 28
  const FLAG_DELETED: nat := 1

  /** What a record stores. */
  datatype Rec = Rec(key: Key, sequence: u32, tombstone: bool, value: seq<Byte>)

  function SizeFor(len: nat): (n: nat)
    ensures n % PAGE_SIZE == 0 && n >= PREFIX_SIZE + len + 4 && n >= PAGE_SIZE
  {
    AlignUp(PREFIX_SIZE + len + 4)
  }

  function Size(r: Rec): nat {
    SizeFor(|r.value|)
  }

  function PrefixCells(r: Rec): (cells: seq<Cell>)
    ensures |cells| == 8 && Offset(cells, 0) == 0 && Offset(cells, 2) == 6 && Offset(cells, 4) == 8
    ensures Offset(cells, 6) == 16 && Offset(cells, 7) == 24 && Offset(cells, 8) == PREFIX_SIZE
  {
    var cells := [Cell(ENTRY_MAGIC, 4), Cell(1, 2), Cell(if r.tombstone then FLAG_DELETED else 0, 1), Cell(0, 1),
                  Cell(r.sequence, 4), Cell(0, 4), Cell(r.key, 8), Cell(|r.value|, 4)];
    assert Offset(cells, 1) == 4 && Offset(cells, 2) == 6;
    assert Offset(cells, 3) == 7 && Offset(cells, 4) == 8;
    assert Offset(cells, 5) == 12 && Offset(cells, 6) == 16;
    assert Offset(cells, 7) == 24;
    cells
  }

  function Zeros(n: nat): seq<Byte> {
    seq(n, _ => 0)
  }

  /** The record without its checksum. */
  function Body(r: Rec): (s: seq<Byte>)
    ensures |s| == Size(r) - 4
  {
    Layout(PrefixCells(r)) + r.value + Zeros(Size(r) - 4 - PREFIX_SIZE - |r.value|)
  }

  function Build(r: Rec, crc: Checksum): (s: seq<Byte>)
    ensures |s| == Size(r)
  {
    Body(r) + LE(crc(Body(r)), 4)
  }

  /** Value lengths are stored in 32 bits. */
  predicate Storable(r: Rec) {
    |r.value| < TWO32
  }

  // ---------------------------------------------------------------------------------------------
  // Reading the fields of a record at an offset
  // ---------------------------------------------------------------------------------------------

  function MagicAt(b: seq<Byte>, o: nat): nat requires o + PREFIX_SIZE <= |b| { Field(b, o, 4) }
  function FlagsAt(b: seq<Byte>, o: nat): nat requires o + PREFIX_SIZE <= |b| { Field(b, o + 6, 1) }
  function SequenceAt(b: seq<Byte>, o: nat): u32
    requires o + PREFIX_SIZE <= |b|
  {
    FieldBound(b, o + 8, 4); Powers();
    Field(b, o + 8, 4)
  }
  function KeyAt(b: seq<Byte>, o: nat): Key
    requires o + PREFIX_SIZE <= |b|
  {
    FieldBound(b, o + 16, 8); Powers();
    Field(b, o + 16, 8)
  }
  function LengthAt(b: seq<Byte>, o: nat): nat requires o + PREFIX_SIZE <= |b| { Field(b, o + 24, 4) }

  /** The stored checksum of a record of the given size matches its contents. */
  predicate ChecksumOk(b: seq<Byte>, o: nat, size: nat, crc: Checksum)
    requires 4 <= size && o + size <= |b|
  {
    Field(b, o + size - 4, 4) == crc(b[o..o + size - 4])
  }

  /** Buffer b holds the bytes s at offset o. */
  predicate HoldsAt(b: seq<Byte>, o: nat, s: seq<Byte>) {
    o + |s| <= |b| && b[o..o + |s|] == s
  }

  lemma SubSlice(b: seq<Byte>, o: nat, n: nat, i: nat, j: nat)
    requires o + n <= |b| && i <= j <= n
    ensures b[o..o + n][i..j] == b[o + i..o + j]
  {
    var x, y := b[o..o + n][i..j], b[o + i..o + j];
    forall k | 0 <= k < |x|
      ensures x[k] == y[k]
    {
    }
  }

  lemma FieldShift(b: seq<Byte>, o: nat, s: seq<Byte>, i: nat, w: nat)
    requires HoldsAt(b, o, s) && i + w <= |s|
    ensures Field(b, o + i, w) == Field(s, i, w)
  {
    SubSlice(b, o, |s|, i, i + w);
  }

  /** The prefix of a built record reads back. */
  lemma PrefixReadsBack(r: Rec, crc: Checksum)
    requires Storable(r)
    ensures var s := Build(r, crc);
      && Field(s, 0, 4) == ENTRY_MAGIC && Field(s, 6, 1) == (if r.tombstone then FLAG_DELETED else 0)
      && Field(s, 8, 4) == r.sequence && Field(s, 16, 8) == r.key && Field(s, 24, 4) == |r.value|
  {
    Powers();
    var cells := PrefixCells(r);
    var post := r.value + Zeros(Size(r) - 4 - PREFIX_SIZE - |r.value|) + LE(crc(Body(r)), 4);
    assert Build(r, crc) == Layout(cells) + post;
    LayoutReadsBack(cells, 0, post);
    LayoutReadsBack(cells, 2, post);
    LayoutReadsBack(cells, 4, post);
    LayoutReadsBack(cells, 6, post);
    LayoutReadsBack(cells, 7, post);
  }

  lemma ChecksumReadsBack(r: Rec, crc: Checksum)
    ensures var s := Build(r, crc); Field(s, |s| - 4, 4) == crc(s[..|s| - 4])
  {
    Powers();
    FieldReadsBack(Body(r), crc(Body(r)), 4, []);
    assert Body(r) + LE(crc(Body(r)), 4) + [] == Build(r, crc);
    assert Build(r, crc)[..Size(r) - 4] == Body(r);
  }

  lemma ValueReadsBack(r: Rec, crc: Checksum)
    ensures Build(r, crc)[PREFIX_SIZE..PREFIX_SIZE + |r.value|] == r.value
  {
    var l := Layout(PrefixCells(r));
    assert |l| == PREFIX_SIZE;
  }

  /** Every field of a record built into a buffer reads back at its place, and its checksum is right. */
  lemma RecordReadsBack(b: seq<Byte>, o: nat, r: Rec, crc: Checksum)
    requires Storable(r) && HoldsAt(b, o, Build(r, crc))
    ensures o + Size(r) <= |b| && o + PREFIX_SIZE + |r.value| + 4 <= |b|
    ensures MagicAt(b, o) == ENTRY_MAGIC && FlagsAt(b, o) == (if r.tombstone then FLAG_DELETED else 0)
    ensures SequenceAt(b, o) == r.sequence && KeyAt(b, o) == r.key && LengthAt(b, o) == |r.value|
    ensures ChecksumOk(b, o, Size(r), crc)
    ensures b[o + PREFIX_SIZE..o + PREFIX_SIZE + |r.value|] == r.value
  {
    var s := Build(r, crc);
    PrefixReadsBack(r, crc);
    ChecksumReadsBack(r, crc);
    ValueReadsBack(r, crc);
    FieldShift(b, o, s, 0, 4);
    FieldShift(b, o, s, 6, 1);
    FieldShift(b, o, s, 8, 4);
    FieldShift(b, o, s, 16, 8);
    FieldShift(b, o, s, 24, 4);
    FieldShift(b, o, s, |s| - 4, 4);
    SubSlice(b, o, |s|, 0, |s| - 4);
    SubSlice(b, o, |s|, PREFIX_SIZE, PREFIX_SIZE + |r.value|);
  }

  // ---------------------------------------------------------------------------------------------
  // Building in place
  // ---------------------------------------------------------------------------------------------

  lemma BodyAt(r: Rec, i: nat)
    requires i < Size(r) - 4
    ensures |Layout(PrefixCells(r))| == PREFIX_SIZE && |Body(r)| == Size(r) - 4
    ensures Body(r)[i] ==
      if i < PREFIX_SIZE then Layout(PrefixCells(r))[i]
      else if i < PREFIX_SIZE + |r.value| then r.value[i - PREFIX_SIZE] else 0
  {
    hide Layout, PrefixCells;
  }

  /** Writes a record into a slot of the buffer, field by field, and touches nothing else. */
  method BuildEntryInplace(buffer: array<Byte>, slot: nat, key: Key, value: seq<Byte>, sequence: u32, tombstone: bool,
                           crc: Checksum)
    requires slot + SizeFor(|value|) <= buffer.Length
    modifies buffer
    ensures buffer[..] == old(buffer[..slot]) + Build(Rec(key, sequence, tombstone, value), crc)
                          + old(buffer[slot + SizeFor(|value|)..])
  {
    ghost var was := buffer[..];
    var r := Rec(key, sequence, tombstone, value);
    var prefix := Layout(PrefixCells(r));
    var n := SizeFor(|value|);
    var size := n;
    forall i | 0 <= i < PREFIX_SIZE {
      buffer[slot + i] := prefix[i];
    }
    forall i | 0 <= i < |value| {
      buffer[slot + PREFIX_SIZE + i] := value[i];
    }
    forall i | PREFIX_SIZE + |value| <= i < size - 4 {
      buffer[slot + i] := 0;
    }
    assert |Body(r)| == size - 4;
    forall i | 0 <= i < size - 4
      ensures buffer[slot + i] == Body(r)[i]
    {
      BodyAt(r, i);
    }
    assert buffer[slot..slot + size - 4] == Body(r);
    var sum := LE(crc(buffer[slot..slot + size - 4]), 4);
    ghost var bodied := buffer[..];
    forall i | 0 <= i < 4 {
      buffer[slot + size - 4 + i] := sum[i];
    }
    assert buffer[slot..slot + size] == Build(r, crc) by {
      assert buffer[slot..slot + size - 4] == bodied[slot..slot + size - 4];
    }
    assert buffer[..slot] == was[..slot] && buffer[slot + size..] == was[slot + size..];
    assert buffer[..] == buffer[..slot] + buffer[slot..slot + size] + buffer[slot + size..];
  }
}
