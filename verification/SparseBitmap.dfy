/**
 The sparse bitmap of a data file: chunks of 512 words, allocated on the first bit set and freed with the last. The
 words are machine words and their bits are reached through masks; the bitmap as a whole is a set of positions, and
 counting its words is counting that set.
 */
module SparseBitmaps {

  const WORD_BITS: nat := 64
  const CHUNK_WORDS: nat := 512
  const CHUNK_BITS: nat := WORD_BITS * CHUNK_WORDS

  type Word = bv64
  type Chunk = c: seq<Word> | |c| == CHUNK_WORDS witness seq(CHUNK_WORDS, _ => 0)

  // ---------------------------------------------------------------------------------------------
  // Bits of a word
  // ---------------------------------------------------------------------------------------------

  function Mask0(k: nat): Word {
    if k == 0 then 0x1 else if k == 1 then 0x2 else if k == 2 then 0x4 else if k == 3 then 0x8 else
    if k == 4 then 0x10 else if k == 5 then 0x20 else if k == 6 then 0x40 else if k == 7 then 0x80 else
    if k == 8 then 0x100 else if k == 9 then 0x200 else if k == 10 then 0x400 else if k == 11 then 0x800 else
    if k == 12 then 0x1000 else if k == 13 then 0x2000 else if k == 14 then 0x4000 else 0x8000
  }

  function Mask1(k: nat): Word {
    if k == 0 then 0x10000 else if k == 1 then 0x20000 else if k == 2 then 0x40000 else if k == 3 then 0x80000 else
    if k == 4 then 0x100000 else if k == 5 then 0x200000 else if k == 6 then 0x400000 else if k == 7 then 0x800000 else
    if k == 8 then 0x1000000 else if k == 9 then 0x2000000 else if k == 10 then 0x4000000 else
    if k == 11 then 0x8000000 else
    if k == 12 then 0x10000000 else if k == 13 then 0x20000000 else if k == 14 then 0x40000000 else 0x80000000
  }

  function Mask2(k: nat): Word {
    if k == 0 then 0x100000000 else if k == 1 then 0x200000000 else if k == 2 then 0x400000000 else
    if k == 3 then 0x800000000 else
    if k == 4 then 0x1000000000 else if k == 5 then 0x2000000000 else if k == 6 then 0x4000000000 else
    if k == 7 then 0x8000000000 else
    if k == 8 then 0x10000000000 else if k == 9 then 0x20000000000 else if k == 10 then 0x40000000000 else
    if k == 11 then 0x80000000000 else
    if k == 12 then 0x100000000000 else if k == 13 then 0x200000000000 else if k == 14 then 0x400000000000 else
    0x800000000000
  }

  function Mask3(k: nat): Word {
    if k == 0 then 0x1000000000000 else if k == 1 then 0x2000000000000 else if k == 2 then 0x4000000000000 else
    if k == 3 then 0x8000000000000 else
    if k == 4 then 0x10000000000000 else if k == 5 then 0x20000000000000 else
    if k == 6 then 0x40000000000000 else if k == 7 then 0x80000000000000 else
    if k == 8 then 0x100000000000000 else if k == 9 then 0x200000000000000 else
    if k == 10 then 0x400000000000000 else if k == 11 then 0x800000000000000 else
    if k == 12 then 0x1000000000000000 else if k == 13 then 0x2000000000000000 else
    if k == 14 then 0x4000000000000000 else 0x8000000000000000
  }

  /** One shifted left by k, as a table. */
  function Mask(k: nat): Word
    requires k < WORD_BITS
  {
    if k < 16 then Mask0(k) else if k < 32 then Mask1(k - 16) else if k < 48 then Mask2(k - 32) else Mask3(k - 48)
  }

  function Place0(m: Word): nat {
    if m == 0x1 then 0 else if m == 0x2 then 1 else
    if m == 0x4 then 2 else if m == 0x8 then 3 else
    if m == 0x10 then 4 else if m == 0x20 then 5 else
    if m == 0x40 then 6 else if m == 0x80 then 7 else
    if m == 0x100 then 8 else if m == 0x200 then 9 else
    if m == 0x400 then 10 else if m == 0x800 then 11 else
    if m == 0x1000 then 12 else if m == 0x2000 then 13 else
    if m == 0x4000 then 14 else if m == 0x8000 then 15 else
    0
  }

  function Place1(m: Word): nat {
    if m == 0x10000 then 16 else if m == 0x20000 then 17 else
    if m == 0x40000 then 18 else if m == 0x80000 then 19 else
    if m == 0x100000 then 20 else if m == 0x200000 then 21 else
    if m == 0x400000 then 22 else if m == 0x800000 then 23 else
    if m == 0x1000000 then 24 else if m == 0x2000000 then 25 else
    if m == 0x4000000 then 26 else if m == 0x8000000 then 27 else
    if m == 0x10000000 then 28 else if m == 0x20000000 then 29 else
    if m == 0x40000000 then 30 else if m == 0x80000000 then 31 else
    0
  }

  function Place2(m: Word): nat {
    if m == 0x100000000 then 32 else if m == 0x200000000 then 33 else
    if m == 0x400000000 then 34 else if m == 0x800000000 then 35 else
    if m == 0x1000000000 then 36 else if m == 0x2000000000 then 37 else
    if m == 0x4000000000 then 38 else if m == 0x8000000000 then 39 else
    if m == 0x10000000000 then 40 else if m == 0x20000000000 then 41 else
    if m == 0x40000000000 then 42 else if m == 0x80000000000 then 43 else
    if m == 0x100000000000 then 44 else if m == 0x200000000000 then 45 else
    if m == 0x400000000000 then 46 else if m == 0x800000000000 then 47 else
    0
  }

  function Place3(m: Word): nat {
    if m == 0x1000000000000 then 48 else if m == 0x2000000000000 then 49 else
    if m == 0x4000000000000 then 50 else if m == 0x8000000000000 then 51 else
    if m == 0x10000000000000 then 52 else if m == 0x20000000000000 then 53 else
    if m == 0x40000000000000 then 54 else if m == 0x80000000000000 then 55 else
    if m == 0x100000000000000 then 56 else if m == 0x200000000000000 then 57 else
    if m == 0x400000000000000 then 58 else if m == 0x800000000000000 then 59 else
    if m == 0x1000000000000000 then 60 else if m == 0x2000000000000000 then 61 else
    if m == 0x4000000000000000 then 62 else if m == 0x8000000000000000 then 63 else
    0
  }

  /** The place of the one bit of a mask. */
  function Place(m: Word): nat {
    if m < 0x1_0000 then Place0(m) else if m < 0x1_0000_0000 then Place1(m) else
    if m < 0x1_0000_0000_0000 then Place2(m) else Place3(m)
  }

  predicate One(m: Word) {
    m != 0 && m & (m - 1) == 0
  }

  predicate Test(w: Word, m: Word) {
    w & m != 0
  }

  function SetBit(w: Word, m: Word): Word {
    w | m
  }

  function ClearBit(w: Word, m: Word): Word {
    w & !m
  }

  lemma Mask0IsOne(k: nat)
    requires k < 16
    ensures One(Mask0(k))
  {
  }

  lemma Mask0Place(k: nat)
    requires k < 16
    ensures Place(Mask0(k)) == k + 0
  {
    if k < 8 {
    } else {
    }
  }

  lemma Mask1IsOne(k: nat)
    requires k < 16
    ensures One(Mask1(k))
  {
  }

  lemma Mask1Place(k: nat)
    requires k < 16
    ensures Place(Mask1(k)) == k + 16
  {
    if k < 8 {
    } else {
    }
  }

  lemma Mask2IsOne(k: nat)
    requires k < 16
    ensures One(Mask2(k))
  {
  }

  lemma Mask2Place(k: nat)
    requires k < 16
    ensures Place(Mask2(k)) == k + 32
  {
    if k < 8 {
    } else {
    }
  }

  lemma Mask3IsOne(k: nat)
    requires k < 16
    ensures One(Mask3(k))
  {
  }

  lemma Mask3Place(k: nat)
    requires k < 16
    ensures Place(Mask3(k)) == k + 48
  {
    if k < 8 {
    } else {
    }
  }

  lemma Mask0IsShift(k: nat)
    requires k < 16
    ensures Mask0(k) == (1 as Word) << (k + 0)
  {
    if k < 8 {
    } else {
    }
  }

  lemma Mask1IsShift(k: nat)
    requires k < 16
    ensures Mask1(k) == (1 as Word) << (k + 16)
  {
    if k < 8 {
    } else {
    }
  }

  lemma Mask2IsShift(k: nat)
    requires k < 16
    ensures Mask2(k) == (1 as Word) << (k + 32)
  {
    if k < 8 {
    } else {
    }
  }

  lemma Mask3IsShift(k: nat)
    requires k < 16
    ensures Mask3(k) == (1 as Word) << (k + 48)
  {
    if k < 8 {
    } else {
    }
  }

  lemma MaskIsShift(k: nat)
    requires k < WORD_BITS
    ensures Mask(k) == (1 as Word) << k
  {
    hide Mask0, Mask1, Mask2, Mask3;
    if k < 16 {
      Mask0IsShift(k);
    } else if k < 32 {
      Mask1IsShift(k - 16);
    } else if k < 48 {
      Mask2IsShift(k - 32);
    } else {
      Mask3IsShift(k - 48);
    }
  }

  /** A mask is a single bit, and no two are the same. */
  lemma MaskIsOne(k: nat)
    requires k < WORD_BITS
    ensures One(Mask(k)) && Place(Mask(k)) == k
  {
    hide One, Place, Mask0, Mask1, Mask2, Mask3;
    if k < 16 {
      Mask0IsOne(k);
      Mask0Place(k);
    } else if k < 32 {
      Mask1IsOne(k - 16);
      Mask1Place(k - 16);
    } else if k < 48 {
      Mask2IsOne(k - 32);
      Mask2Place(k - 32);
    } else {
      Mask3IsOne(k - 48);
      Mask3Place(k - 48);
    }
  }

  lemma OnlyOne(w: Word, m: Word)
    requires One(m)
    ensures w & m == 0 || w & m == m
  {
  }

  lemma Commutes(m: Word, n: Word)
    ensures m & n == n & m
  {
  }

  lemma OnesApart(m: Word, n: Word)
    requires One(m) && One(n) && m != n
    ensures m & n == 0
  {
    OnlyOne(n, m);
    OnlyOne(m, n);
    Commutes(m, n);
  }

  lemma OrSame(w: Word, m: Word)
    ensures (w | m) & m == m
  {
  }

  lemma OrOther(w: Word, m: Word, n: Word)
    requires m & n == 0
    ensures (w | m) & n == w & n
  {
  }

  lemma AndNotSame(w: Word, m: Word)
    ensures (w & !m) & m == 0
  {
  }

  lemma AndNotOther(w: Word, m: Word, n: Word)
    requires m & n == 0
    ensures (w & !m) & n == w & n
  {
  }

  lemma SetUnderMask(w: Word, m: Word, n: Word)
    requires One(m) && One(n)
    ensures Test(SetBit(w, m), n) <==> Test(w, n) || m == n
  {
    if m == n {
      OrSame(w, m);
    } else {
      OnesApart(m, n);
      OrOther(w, m, n);
    }
  }

  lemma ClearUnderMask(w: Word, m: Word, n: Word)
    requires One(m) && One(n)
    ensures Test(ClearBit(w, m), n) <==> Test(w, n) && m != n
  {
    if m == n {
      AndNotSame(w, m);
    } else {
      OnesApart(m, n);
      AndNotOther(w, m, n);
    }
  }

  lemma ZeroIsClear(m: Word)
    ensures !Test(0, m)
  {
  }

  /** Bit k of a word. */
  predicate Bit(w: Word, k: nat)
    requires k < WORD_BITS
  {
    Test(w, Mask(k))
  }

  lemma SetBitIs(w: Word, j: nat, k: nat)
    requires j < WORD_BITS && k < WORD_BITS
    ensures Bit(SetBit(w, Mask(j)), k) <==> Bit(w, k) || j == k
  {
    hide Mask, One, Test, SetBit, Place;
    MaskIsOne(j);
    MaskIsOne(k);
    SetUnderMask(w, Mask(j), Mask(k));
  }

  lemma ClearBitIs(w: Word, j: nat, k: nat)
    requires j < WORD_BITS && k < WORD_BITS
    ensures Bit(ClearBit(w, Mask(j)), k) <==> Bit(w, k) && j != k
  {
    hide Mask, One, Test, ClearBit, Place;
    MaskIsOne(j);
    MaskIsOne(k);
    ClearUnderMask(w, Mask(j), Mask(k));
  }

  /** The set bits among the first n of a word: a population count counts all 64. */
  function PopTo(w: Word, n: nat): (c: nat)
    requires n <= WORD_BITS
    ensures c <= n
  {
    if n == 0 then 0 else PopTo(w, n - 1) + (if Bit(w, n - 1) then 1 else 0)
  }

  // ---------------------------------------------------------------------------------------------
  // Bits of a chunk
  // ---------------------------------------------------------------------------------------------

  predicate ChunkBit(c: Chunk, i: nat)
    requires i < CHUNK_BITS
  {
    Bit(c[i / WORD_BITS], i % WORD_BITS)
  }

  function ChunkSet(c: Chunk, i: nat): Chunk
    requires i < CHUNK_BITS
  {
    c[i / WORD_BITS := SetBit(c[i / WORD_BITS], Mask(i % WORD_BITS))]
  }

  function ChunkClear(c: Chunk, i: nat): Chunk
    requires i < CHUNK_BITS
  {
    c[i / WORD_BITS := ClearBit(c[i / WORD_BITS], Mask(i % WORD_BITS))]
  }

  lemma ChunkSetIs(c: Chunk, i: nat, j: nat)
    requires i < CHUNK_BITS && j < CHUNK_BITS
    ensures ChunkBit(ChunkSet(c, i), j) <==> ChunkBit(c, j) || i == j
  {
    hide Bit, Mask, SetBit;
    if i / WORD_BITS == j / WORD_BITS {
      SetBitIs(c[i / WORD_BITS], i % WORD_BITS, j % WORD_BITS);
    }
  }

  lemma ChunkClearIs(c: Chunk, i: nat, j: nat)
    requires i < CHUNK_BITS && j < CHUNK_BITS
    ensures ChunkBit(ChunkClear(c, i), j) <==> ChunkBit(c, j) && i != j
  {
    hide Bit, Mask, ClearBit;
    if i / WORD_BITS == j / WORD_BITS {
      ClearBitIs(c[i / WORD_BITS], i % WORD_BITS, j % WORD_BITS);
    }
  }

  lemma ZeroBits(c: Chunk, i: nat)
    requires i < CHUNK_BITS && c[i / WORD_BITS] == 0
    ensures !ChunkBit(c, i)
  {
    hide Test, Mask;
    ZeroIsClear(Mask(i % WORD_BITS));
  }

  /** The words' population counts, summed. */
  function ChunkPopTo(c: Chunk, n: nat): nat
    requires n <= CHUNK_WORDS
  {
    if n == 0 then 0 else ChunkPopTo(c, n - 1) + PopTo(c[n - 1], WORD_BITS)
  }

  // ---------------------------------------------------------------------------------------------
  // Counting what is set
  // ---------------------------------------------------------------------------------------------

  /** The positions, from base on, of the first n bits that are set. */
  function BitsTo(c: Chunk, base: nat, n: nat): (s: set<nat>)
    requires n <= CHUNK_BITS
    ensures forall x :: x in s <==> base <= x < base + n && ChunkBit(c, x - base)
  {
    if n == 0 then {} else BitsTo(c, base, n - 1) + (if ChunkBit(c, n - 1) then {base + n - 1} else {})
  }

  /** Counting word by word counts bit by bit. */
  lemma {:induction false} CountsBits(c: Chunk, base: nat, w: nat, k: nat)
    requires w < CHUNK_WORDS && k <= WORD_BITS
    ensures |BitsTo(c, base, w * WORD_BITS + k)| == ChunkPopTo(c, w) + PopTo(c[w], k)
    decreases w, k
  {
    hide Bit, BitsTo, PopTo, ChunkPopTo, ChunkBit;
    if k > 0 {
      CountsBits(c, base, w, k - 1);
      var i := w * WORD_BITS + k - 1;
      BitPlace(c, w, k - 1);
      OneMoreBit(c, base, i);
      PopUnfolds(c[w], k);
    } else if w > 0 {
      CountsBits(c, base, w - 1, WORD_BITS);
      ChunkPopUnfolds(c, w);
      PopNone(c[w]);
    } else {
      PopNone(c[w]);
      NoBits(c, base);
    }
  }

  lemma BitPlace(c: Chunk, w: nat, k: nat)
    requires w < CHUNK_WORDS && k < WORD_BITS
    ensures ChunkBit(c, w * WORD_BITS + k) == Bit(c[w], k)
  {
    hide Bit;
    var i := w * WORD_BITS + k;
    assert i / WORD_BITS == w && i % WORD_BITS == k;
  }

  lemma PopUnfolds(w: Word, k: nat)
    requires 0 < k <= WORD_BITS
    ensures PopTo(w, k) == PopTo(w, k - 1) + if Bit(w, k - 1) then 1 else 0
  {
    hide Bit;
  }

  lemma PopNone(w: Word)
    ensures PopTo(w, 0) == 0
  {
  }

  lemma ChunkPopUnfolds(c: Chunk, w: nat)
    requires 0 < w <= CHUNK_WORDS
    ensures ChunkPopTo(c, w) == ChunkPopTo(c, w - 1) + PopTo(c[w - 1], WORD_BITS)
  {
    hide PopTo;
  }

  lemma NoBits(c: Chunk, base: nat)
    ensures |BitsTo(c, base, 0)| == 0 && ChunkPopTo(c, 0) == 0
  {
  }

  lemma OneMoreBit(c: Chunk, base: nat, i: nat)
    requires i < CHUNK_BITS
    ensures |BitsTo(c, base, i + 1)| == |BitsTo(c, base, i)| + if ChunkBit(c, i) then 1 else 0
  {
    hide ChunkBit;
    assert base + i !in BitsTo(c, base, i);
  }

  lemma ChunkPopCounts(c: Chunk, base: nat)
    ensures ChunkPopTo(c, CHUNK_WORDS) == |BitsTo(c, base, CHUNK_BITS)|
  {
    hide Bit, BitsTo;
    CountsBits(c, base, CHUNK_WORDS - 1, WORD_BITS);
  }

  // ---------------------------------------------------------------------------------------------
  // The bitmap
  // ---------------------------------------------------------------------------------------------

  type Chunks = map<nat, Chunk>

  predicate Has(chunks: Chunks, x: nat) {
    x / CHUNK_BITS in chunks && ChunkBit(chunks[x / CHUNK_BITS], x % CHUNK_BITS)
  }

  /** The bits of some of the chunks. */
  ghost function BitsOf(chunks: Chunks, keys: set<nat>): (s: set<nat>)
    requires keys <= chunks.Keys
    ensures forall x :: x in s <==> x / CHUNK_BITS in keys && Has(chunks, x)
    decreases |keys|
  {
    if keys == {} then {} else
      var k :| k in keys;
      BitsAt(chunks, k);
      BitsOf(chunks, keys - {k}) + BitsTo(chunks[k], k * CHUNK_BITS, CHUNK_BITS)
  }

  lemma BitsAt(chunks: Chunks, k: nat)
    requires k in chunks
    ensures forall x :: x in BitsTo(chunks[k], k * CHUNK_BITS, CHUNK_BITS) <==> x / CHUNK_BITS == k && Has(chunks, x)
  {
    hide ChunkBit;
    forall x: nat
      ensures x in BitsTo(chunks[k], k * CHUNK_BITS, CHUNK_BITS) <==> x / CHUNK_BITS == k && Has(chunks, x)
    {
      if x / CHUNK_BITS == k {
        assert x == k * CHUNK_BITS + x % CHUNK_BITS;
      }
    }
  }

  lemma BitsOfMore(chunks: Chunks, keys: set<nat>, k: nat)
    requires keys <= chunks.Keys && k in chunks && k !in keys
    ensures |BitsOf(chunks, keys + {k})| == |BitsOf(chunks, keys)| + ChunkPopTo(chunks[k], CHUNK_WORDS)
  {
    hide Has, ChunkPopTo;
    var bits := BitsTo(chunks[k], k * CHUNK_BITS, CHUNK_BITS);
    BitsAt(chunks, k);
    ChunkPopCounts(chunks[k], k * CHUNK_BITS);
    assert BitsOf(chunks, keys + {k}) == BitsOf(chunks, keys) + bits;
    assert BitsOf(chunks, keys) !! bits;
  }

  lemma NoChunks(chunks: Chunks)
    ensures |BitsOf(chunks, chunks.Keys - chunks.Keys)| == 0
  {
    assert chunks.Keys - chunks.Keys == {};
  }

  class SparseBitmap {
    const totalBits: nat
    var chunks: Chunks

    /** No bit lies outside, and no chunk is kept without a bit. */
    ghost predicate Valid()
      reads this
    {
      && (forall x: nat :: Has(chunks, x) ==> x < totalBits)
      && (forall k :: k in chunks ==> exists i :: 0 <= i < CHUNK_WORDS && chunks[k][i] != 0)
    }

    ghost function Contents(): set<nat>
      reads this
    {
      BitsOf(chunks, chunks.Keys)
    }

    constructor (totalBits: nat)
      ensures this.totalBits == totalBits && Valid() && Contents() == {}
    {
      this.totalBits, chunks := totalBits, map[];
    }

    method TestBit(x: nat) returns (on: bool)
      requires Valid()
      ensures on <==> x in Contents()
    {
      if x >= totalBits {
        return false;
      }
      var k := x / CHUNK_BITS;
      if k !in chunks {
        return false;
      }
      return ChunkBit(chunks[k], x % CHUNK_BITS);
    }

    method Set(x: nat)
      requires Valid()
      modifies this
      ensures Valid() && Contents() == old(Contents()) + if x < totalBits then {x} else {}
    {
      if x >= totalBits {
        return;
      }
      var k := x / CHUNK_BITS;
      ghost var was := chunks;
      var c: Chunk := if k in chunks then chunks[k] else seq(CHUNK_WORDS, _ => 0);
      chunks := chunks[k := ChunkSet(c, x % CHUNK_BITS)];
      SetHas(was, chunks, c, x);
    }

    method Clear(x: nat)
      requires Valid()
      modifies this
      ensures Valid() && Contents() == old(Contents()) - {x}
    {
      if x >= totalBits {
        return;
      }
      var k := x / CHUNK_BITS;
      if k !in chunks {
        return;
      }
      ghost var was := chunks;
      chunks := chunks[k := ChunkClear(chunks[k], x % CHUNK_BITS)];
      ClearHas(was, chunks, x);
      var empty := IsEmpty(chunks[k]);
      if empty {
        ghost var kept := chunks;
        chunks := chunks - {k};
        FreeHas(kept, chunks, k);
      }
    }

    method PopCount() returns (count: nat)
      requires Valid()
      ensures count == |Contents()|
    {
      hide ChunkPopTo, BitsOf, Has;
      count := 0;
      var left := chunks.Keys;
      NoChunks(chunks);
      while left != {}
        invariant left <= chunks.Keys && chunks.Keys - left <= chunks.Keys
        invariant count == |BitsOf(chunks, chunks.Keys - left)|
        decreases |left|
      {
        var k :| k in left;
        BitsOfMore(chunks, chunks.Keys - left, k);
        assert chunks.Keys - left + {k} == chunks.Keys - (left - {k});
        var n := ChunkPop(chunks[k]);
        count := count + n;
        left := left - {k};
      }
      assert chunks.Keys - {} == chunks.Keys;
    }
  }

  method IsEmpty(c: Chunk) returns (empty: bool)
    ensures empty <==> forall i :: 0 <= i < CHUNK_WORDS ==> c[i] == 0
  {
    for i := 0 to CHUNK_WORDS
      invariant forall j :: 0 <= j < i ==> c[j] == 0
    {
      if c[i] != 0 {
        return false;
      }
    }
    return true;
  }

  method ChunkPop(c: Chunk) returns (count: nat)
    ensures count == ChunkPopTo(c, CHUNK_WORDS)
  {
    count := 0;
    for i := 0 to CHUNK_WORDS
      invariant count == ChunkPopTo(c, i)
    {
      count := count + PopTo(c[i], WORD_BITS);
    }
  }

  lemma SetHas(was: Chunks, now: Chunks, c: Chunk, x: nat)
    requires var k := x / CHUNK_BITS;
      && now == was[k := ChunkSet(c, x % CHUNK_BITS)]
      && if k in was then c == was[k] else forall i :: 0 <= i < CHUNK_WORDS ==> c[i] == 0
    ensures forall y: nat :: Has(now, y) <==> Has(was, y) || y == x
    ensures BitsOf(now, now.Keys) == BitsOf(was, was.Keys) + {x}
    ensures exists i :: 0 <= i < CHUNK_WORDS && now[x / CHUNK_BITS][i] != 0
  {
    hide ChunkBit, ChunkSet;
    var k := x / CHUNK_BITS;
    forall y: nat
      ensures Has(now, y) <==> Has(was, y) || y == x
    {
      if y / CHUNK_BITS == k {
        ChunkSetIs(c, x % CHUNK_BITS, y % CHUNK_BITS);
        if k !in was {
          ZeroBits(c, y % CHUNK_BITS);
        }
      }
    }
    assert Has(now, x);
    NonZeroWord(now[k], x % CHUNK_BITS);
  }

  lemma NonZeroWord(c: Chunk, i: nat)
    requires i < CHUNK_BITS && ChunkBit(c, i)
    ensures c[i / WORD_BITS] != 0
  {
    if c[i / WORD_BITS] == 0 {
      ZeroBits(c, i);
    }
  }

  lemma ClearHas(was: Chunks, now: Chunks, x: nat)
    requires x / CHUNK_BITS in was
    requires now == was[x / CHUNK_BITS := ChunkClear(was[x / CHUNK_BITS], x % CHUNK_BITS)]
    ensures forall y: nat :: Has(now, y) <==> Has(was, y) && y != x
    ensures BitsOf(now, now.Keys) == BitsOf(was, was.Keys) - {x}
  {
    hide ChunkBit, ChunkClear;
    var k := x / CHUNK_BITS;
    forall y: nat
      ensures Has(now, y) <==> Has(was, y) && y != x
    {
      if y / CHUNK_BITS == k {
        ChunkClearIs(was[k], x % CHUNK_BITS, y % CHUNK_BITS);
      }
    }
  }

  /** Freeing a chunk of zeros changes nothing. */
  lemma FreeHas(was: Chunks, now: Chunks, k: nat)
    requires k in was && now == was - {k} && forall i :: 0 <= i < CHUNK_WORDS ==> was[k][i] == 0
    ensures forall y: nat :: Has(now, y) <==> Has(was, y)
    ensures BitsOf(now, now.Keys) == BitsOf(was, was.Keys)
  {
    hide ChunkBit;
    forall y: nat
      ensures Has(now, y) <==> Has(was, y)
    {
      if y / CHUNK_BITS == k {
        ZeroBits(was[k], y % CHUNK_BITS);
      }
    }
  }
}
