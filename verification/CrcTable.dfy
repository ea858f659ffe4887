/**
 The table against the polynomial it is made from: every entry is eight shifts of its index, except one. Words are
 taken apart into bits under one mask each, so that what the machine operations do is said bit by bit, and the
 sixteen rows of the table are compared with the shifts entry by entry.
 */
module CrcTable {
  import opened Crc32
  import opened CrcBits

  // ---------------------------------------------------------------------------------------------
  // The algorithm of section 8 of RFC 1952, with the table computed from the polynomial
  // ---------------------------------------------------------------------------------------------

  /** Exclusive or. */
  function Mix(a: bv32, b: bv32): bv32 {
    a ^ b
  }

  /** One shift of the register. */
  function BitStep(c: bv32): bv32 {
    if c & 1 == 0 then c >> 1 else (c >> 1) ^ 0xEDB8_8320
  }

  function EightSteps(c: bv32): bv32 {
    BitStep(BitStep(BitStep(BitStep(BitStep(BitStep(BitStep(BitStep(c))))))))
  }

  /** The table index a step looks up. */
  function Index(c: bv32, b: bv8): bv8 {
    ((c ^ (b as bv32)) & 0xFF) as bv8
  }

  function RfcStep(c: bv32, b: bv8): bv32 {
    Mix(EightSteps(Index(c, b) as bv32), c >> 8)
  }

  function RfcUpdate(c: bv32, msg: seq<bv8>): bv32 {
    if msg == [] then c else RfcStep(RfcUpdate(c, msg[..|msg| - 1]), msg[|msg| - 1])
  }

  function RfcChecksum(msg: seq<bv8>): bv32 {
    Complement(RfcUpdate(ONES, msg))
  }

  // ---------------------------------------------------------------------------------------------
  // Words as bits
  // ---------------------------------------------------------------------------------------------

  /** The mask of one bit. */
  function Mask(i: nat): bv32
    requires i < 32
  {
    if i == 0 then 0x1 else if i == 1 then 0x2 else if i == 2 then 0x4 else if i == 3 then 0x8 else
    if i == 4 then 0x10 else if i == 5 then 0x20 else if i == 6 then 0x40 else if i == 7 then 0x80 else
    if i == 8 then 0x100 else if i == 9 then 0x200 else if i == 10 then 0x400 else if i == 11 then 0x800 else
    if i == 12 then 0x1000 else if i == 13 then 0x2000 else if i == 14 then 0x4000 else if i == 15 then 0x8000 else
    if i == 16 then 0x10000 else if i == 17 then 0x20000 else if i == 18 then 0x40000 else if i == 19 then 0x80000 else
    if i == 20 then 0x100000 else if i == 21 then 0x200000 else if i == 22 then 0x400000 else
    if i == 23 then 0x800000 else
    if i == 24 then 0x1000000 else if i == 25 then 0x2000000 else if i == 26 then 0x4000000 else
    if i == 27 then 0x8000000 else
    if i == 28 then 0x10000000 else if i == 29 then 0x20000000 else if i == 30 then 0x40000000 else 0x80000000
  }

  predicate Test(v: bv32, m: bv32) {
    v & m != 0
  }

  predicate Bit(v: bv32, i: nat)
    requires i < 32
  {
    Test(v, Mask(i))
  }

  function BitsOf(v: bv32): (w: Word)
    ensures forall i :: 0 <= i < 32 ==> w[i] == Bit(v, i)
  {
    seq(32, i requires 0 <= i < 32 => Bit(v, i))
  }

  predicate One(m: bv32) {
    m != 0 && m & (m - 1) == 0
  }

  lemma MaskIsOne(i: nat)
    requires i < 32
    ensures One(Mask(i))
  {
  }

  lemma MaskNext(i: nat)
    requires i < 31
    ensures Mask(i + 1) == Mask(i) << 1
  {
    if i < 8 {
    } else if i < 16 {
    } else if i < 24 {
    } else {
    }
  }

  lemma MaskNextByte(i: nat)
    requires i < 24
    ensures Mask(i + 8) == Mask(i) << 8
  {
    if i < 8 {
    } else if i < 16 {
    } else {
    }
  }

  lemma MaskOfLowByte(i: nat)
    requires i < 32
    ensures Mask(i) & 0xFF == if i < 8 then Mask(i) else 0
  {
  }

  lemma MaskOfTopByte(i: nat, a: bv32)
    requires 24 <= i < 32
    ensures !Test(a >> 8, Mask(i))
  {
  }

  lemma XorUnderMask(a: bv32, b: bv32, m: bv32)
    requires One(m)
    ensures Test(a ^ b, m) == (Test(a, m) != Test(b, m))
  {
  }

  lemma ShiftUnderMask(a: bv32, m: bv32)
    ensures Test(a >> 1, m) == Test(a, m << 1)
    ensures Test(a >> 8, m) == Test(a, m << 8)
  {
  }

  lemma TopBitShiftedIn(a: bv32)
    ensures !Bit(a >> 1, 31)
  {
  }

  lemma LowByteUnderMask(a: bv32, m: bv32)
    ensures m & 0xFF == m ==> Test(a & 0xFF, m) == Test(a, m)
    ensures m & 0xFF == 0 ==> !Test(a & 0xFF, m)
  {
  }

  lemma BitOfXor(a: bv32, b: bv32, i: nat)
    requires i < 32
    ensures Bit(a ^ b, i) == (Bit(a, i) != Bit(b, i))
  {
    hide Test, Mask, One;
    MaskIsOne(i);
    XorUnderMask(a, b, Mask(i));
  }

  lemma BitOfShift(a: bv32, i: nat)
    requires i < 31
    ensures Bit(a >> 1, i) == Bit(a, i + 1)
  {
    hide Test, Mask;
    MaskNext(i);
    ShiftUnderMask(a, Mask(i));
  }

  lemma BitOfByteShift(a: bv32, i: nat)
    requires i < 32
    ensures Bit(a >> 8, i) == (i < 24 && Bit(a, i + 8))
  {
    hide Test, Mask;
    if i < 24 {
      MaskNextByte(i);
      ShiftUnderMask(a, Mask(i));
    } else {
      MaskOfTopByte(i, a);
    }
  }

  lemma BitOfLowByte(a: bv32, i: nat)
    requires i < 32
    ensures Bit(a & 0xFF, i) == (i < 8 && Bit(a, i))
  {
    hide Test, Mask;
    MaskOfLowByte(i);
    LowByteUnderMask(a, Mask(i));
  }

  lemma BitsOfXor(a: bv32, b: bv32)
    ensures BitsOf(a ^ b) == Xor(BitsOf(a), BitsOf(b))
  {
    hide Bit;
    forall i | 0 <= i < 32
      ensures BitsOf(a ^ b)[i] == Xor(BitsOf(a), BitsOf(b))[i]
    {
      BitOfXor(a, b, i);
    }
  }

  lemma BitsOfShift(a: bv32)
    ensures BitsOf(a >> 1) == Shift(BitsOf(a), 1)
  {
    hide Bit;
    forall i | 0 <= i < 32
      ensures BitsOf(a >> 1)[i] == Shift(BitsOf(a), 1)[i]
    {
      if i < 31 {
        BitOfShift(a, i);
      } else {
        TopBitShiftedIn(a);
      }
    }
  }

  lemma BitsOfByteShift(a: bv32)
    ensures BitsOf(a >> 8) == Shift(BitsOf(a), 8)
  {
    hide Bit;
    forall i | 0 <= i < 32
      ensures BitsOf(a >> 8)[i] == Shift(BitsOf(a), 8)[i]
    {
      BitOfByteShift(a, i);
    }
  }

  lemma BitsOfLowByte(a: bv32)
    ensures BitsOf(a & 0xFF) == Low(BitsOf(a), 8)
  {
    hide Bit;
    forall i | 0 <= i < 32
      ensures BitsOf(a & 0xFF)[i] == Low(BitsOf(a), 8)[i]
    {
      BitOfLowByte(a, i);
    }
  }

  lemma MasksDetermine(a: bv32, b: bv32)
    requires Test(a, 0x1) == Test(b, 0x1)
    requires Test(a, 0x2) == Test(b, 0x2)
    requires Test(a, 0x4) == Test(b, 0x4)
    requires Test(a, 0x8) == Test(b, 0x8)
    requires Test(a, 0x10) == Test(b, 0x10)
    requires Test(a, 0x20) == Test(b, 0x20)
    requires Test(a, 0x40) == Test(b, 0x40)
    requires Test(a, 0x80) == Test(b, 0x80)
    requires Test(a, 0x100) == Test(b, 0x100)
    requires Test(a, 0x200) == Test(b, 0x200)
    requires Test(a, 0x400) == Test(b, 0x400)
    requires Test(a, 0x800) == Test(b, 0x800)
    requires Test(a, 0x1000) == Test(b, 0x1000)
    requires Test(a, 0x2000) == Test(b, 0x2000)
    requires Test(a, 0x4000) == Test(b, 0x4000)
    requires Test(a, 0x8000) == Test(b, 0x8000)
    requires Test(a, 0x10000) == Test(b, 0x10000)
    requires Test(a, 0x20000) == Test(b, 0x20000)
    requires Test(a, 0x40000) == Test(b, 0x40000)
    requires Test(a, 0x80000) == Test(b, 0x80000)
    requires Test(a, 0x100000) == Test(b, 0x100000)
    requires Test(a, 0x200000) == Test(b, 0x200000)
    requires Test(a, 0x400000) == Test(b, 0x400000)
    requires Test(a, 0x800000) == Test(b, 0x800000)
    requires Test(a, 0x1000000) == Test(b, 0x1000000)
    requires Test(a, 0x2000000) == Test(b, 0x2000000)
    requires Test(a, 0x4000000) == Test(b, 0x4000000)
    requires Test(a, 0x8000000) == Test(b, 0x8000000)
    requires Test(a, 0x10000000) == Test(b, 0x10000000)
    requires Test(a, 0x20000000) == Test(b, 0x20000000)
    requires Test(a, 0x40000000) == Test(b, 0x40000000)
    requires Test(a, 0x80000000) == Test(b, 0x80000000)
    ensures a == b
  {
  }

  lemma BitsDetermine(a: bv32, b: bv32)
    requires BitsOf(a) == BitsOf(b)
    ensures a == b
  {
    hide Test, BitsOf;
    forall i | 0 <= i < 32
      ensures Test(a, Mask(i)) == Test(b, Mask(i))
    {
      assert BitsOf(a)[i] == BitsOf(b)[i];
    }
    assert Mask(0) == 0x1 && Mask(1) == 0x2 && Mask(2) == 0x4 && Mask(3) == 0x8;
    assert Mask(4) == 0x10 && Mask(5) == 0x20 && Mask(6) == 0x40 && Mask(7) == 0x80;
    assert Mask(8) == 0x100 && Mask(9) == 0x200 && Mask(10) == 0x400 && Mask(11) == 0x800;
    assert Mask(12) == 0x1000 && Mask(13) == 0x2000 && Mask(14) == 0x4000 && Mask(15) == 0x8000;
    assert Mask(16) == 0x10000 && Mask(17) == 0x20000 && Mask(18) == 0x40000 && Mask(19) == 0x80000;
    assert Mask(20) == 0x100000 && Mask(21) == 0x200000 && Mask(22) == 0x400000 && Mask(23) == 0x800000;
    assert Mask(24) == 0x1000000 && Mask(25) == 0x2000000 && Mask(26) == 0x4000000 && Mask(27) == 0x8000000;
    assert Mask(28) == 0x10000000 && Mask(29) == 0x20000000 && Mask(30) == 0x40000000 && Mask(31) == 0x80000000;
    MasksDetermine(a, b);
  }

  // ---------------------------------------------------------------------------------------------
  // The table
  // ---------------------------------------------------------------------------------------------

  /** What the engine's table has where the polynomial gives e: entry 245 has one bit wrong. */
  function Flawed(i: bv8, e: bv32): bv32 {
    if i == 0xF5 then e ^ 0x20 else e
  }

  function FlawedAt(h: bv8, j: bv8, e: bv32): bv32 {
    if h == 15 && j == 5 then e ^ 0x20 else e
  }

  lemma Row0IsSteps(j: bv8)
    requires j < 16
    ensures Row0(j) == FlawedAt(0, j, EightSteps(0x00 | (j as bv32)))
  {
  }

  lemma Row1IsSteps(j: bv8)
    requires j < 16
    ensures Row1(j) == FlawedAt(1, j, EightSteps(0x10 | (j as bv32)))
  {
  }

  lemma Row2IsSteps(j: bv8)
    requires j < 16
    ensures Row2(j) == FlawedAt(2, j, EightSteps(0x20 | (j as bv32)))
  {
  }

  lemma Row3IsSteps(j: bv8)
    requires j < 16
    ensures Row3(j) == FlawedAt(3, j, EightSteps(0x30 | (j as bv32)))
  {
  }

  lemma Row4IsSteps(j: bv8)
    requires j < 16
    ensures Row4(j) == FlawedAt(4, j, EightSteps(0x40 | (j as bv32)))
  {
  }

  lemma Row5IsSteps(j: bv8)
    requires j < 16
    ensures Row5(j) == FlawedAt(5, j, EightSteps(0x50 | (j as bv32)))
  {
  }

  lemma Row6IsSteps(j: bv8)
    requires j < 16
    ensures Row6(j) == FlawedAt(6, j, EightSteps(0x60 | (j as bv32)))
  {
  }

  lemma Row7IsSteps(j: bv8)
    requires j < 16
    ensures Row7(j) == FlawedAt(7, j, EightSteps(0x70 | (j as bv32)))
  {
  }

  lemma Row8IsSteps(j: bv8)
    requires j < 16
    ensures Row8(j) == FlawedAt(8, j, EightSteps(0x80 | (j as bv32)))
  {
  }

  lemma Row9IsSteps(j: bv8)
    requires j < 16
    ensures Row9(j) == FlawedAt(9, j, EightSteps(0x90 | (j as bv32)))
  {
  }

  lemma RowAIsSteps(j: bv8)
    requires j < 16
    ensures RowA(j) == FlawedAt(10, j, EightSteps(0xA0 | (j as bv32)))
  {
  }

  lemma RowBIsSteps(j: bv8)
    requires j < 16
    ensures RowB(j) == FlawedAt(11, j, EightSteps(0xB0 | (j as bv32)))
  {
  }

  lemma RowCIsSteps(j: bv8)
    requires j < 16
    ensures RowC(j) == FlawedAt(12, j, EightSteps(0xC0 | (j as bv32)))
  {
    assert j < 8 ==> RowC(j) == FlawedAt(12, j, EightSteps(0xC0 | (j as bv32)));
  }

  lemma RowDIsSteps(j: bv8)
    requires j < 16
    ensures RowD(j) == FlawedAt(13, j, EightSteps(0xD0 | (j as bv32)))
  {
  }

  lemma RowEIsSteps(j: bv8)
    requires j < 16
    ensures RowE(j) == FlawedAt(14, j, EightSteps(0xE0 | (j as bv32)))
  {
  }

  lemma RowFIsSteps(j: bv8)
    requires j < 16
    ensures RowF(j) == FlawedAt(15, j, EightSteps(0xF0 | (j as bv32)))
  {
  }

  lemma Halves(i: bv8)
    ensures i & 0xF < 16
    ensures (i as bv32) == (((i >> 4) as bv32) << 4) | ((i & 0xF) as bv32)
  {
  }

  lemma EntryAt(i: bv8)
    ensures Entry(i) == FlawedAt(i >> 4, i & 0xF, EightSteps(i as bv32))
  {
    hide EightSteps, FlawedAt, Row0, Row1, Row2, Row3, Row4, Row5, Row6, Row7, Row8, Row9, RowA, RowB, RowC, RowD,
        RowE, RowF;
    Halves(i);
    var h, j := i >> 4, i & 0xF;
    if h == 0 {
      Row0IsSteps(j);
    } else if h == 1 {
      Row1IsSteps(j);
    } else if h == 2 {
      Row2IsSteps(j);
    } else if h == 3 {
      Row3IsSteps(j);
    } else if h == 4 {
      Row4IsSteps(j);
    } else if h == 5 {
      Row5IsSteps(j);
    } else if h == 6 {
      Row6IsSteps(j);
    } else if h == 7 {
      Row7IsSteps(j);
    } else if h == 8 {
      Row8IsSteps(j);
    } else if h == 9 {
      Row9IsSteps(j);
    } else if h == 10 {
      RowAIsSteps(j);
    } else if h == 11 {
      RowBIsSteps(j);
    } else if h == 12 {
      RowCIsSteps(j);
    } else if h == 13 {
      RowDIsSteps(j);
    } else if h == 14 {
      RowEIsSteps(j);
    } else {
      assert h == 15;
      RowFIsSteps(j);
    }
  }

  lemma FlawIndex(i: bv8)
    ensures (i >> 4 == 15 && i & 0xF == 5) == (i == 0xF5)
  {
  }

  /** The table is the polynomial's table with the flaw. */
  lemma TableIsFlawed(i: bv8)
    ensures Entry(i) == Flawed(i, EightSteps(i as bv32))
  {
    hide EightSteps, Entry;
    EntryAt(i);
    FlawIndex(i);
  }

  /** Every entry but number 245 is what the polynomial gives. */
  lemma TableEntryIsRight(i: bv8)
    ensures Entry(i) == EightSteps(i as bv32) <==> i != 0xF5
  {
    hide EightSteps, Entry;
    TableIsFlawed(i);
  }

  lemma PolynomialBits()
    ensures BitsOf(0xEDB8_8320) == POLY
  {
    LowPolynomialBits();
    HighPolynomialBits();
    hide Bit;
  }

  lemma LowPolynomialBits()
    ensures forall i :: 0 <= i < 16 ==> Bit(0xEDB8_8320, i) == POLY[i]
  {
  }

  lemma HighPolynomialBits()
    ensures forall i :: 16 <= i < 32 ==> Bit(0xEDB8_8320, i) == POLY[i]
  {
  }

  lemma BitStepIsLfsr(c: bv32)
    ensures BitsOf(BitStep(c)) == Lfsr(BitsOf(c))
  {
    assert BitsOf(c)[0] == (c & 1 != 0);
    hide Mask;
    BitsOfShift(c);
    BitsOfXor(c >> 1, 0xEDB8_8320);
    PolynomialBits();
  }

  lemma {:induction false} LfsrLast(w: Word, n: nat)
    ensures LfsrN(w, n + 1) == Lfsr(LfsrN(w, n))
    decreases n
  {
    hide Lfsr;
    if n > 0 {
      LfsrLast(Lfsr(w), n - 1);
    }
  }

  lemma EightStepsIsLfsr(c: bv32)
    ensures BitsOf(EightSteps(c)) == LfsrN(BitsOf(c), 8)
  {
    hide BitStep, BitsOf, Lfsr, LfsrN;
    var w := BitsOf(c);
    BitStepIsLfsr(c);
    LfsrLast(w, 0);
    BitStepIsLfsr(BitStep(c));
    LfsrLast(w, 1);
    BitStepIsLfsr(BitStep(BitStep(c)));
    LfsrLast(w, 2);
    BitStepIsLfsr(BitStep(BitStep(BitStep(c))));
    LfsrLast(w, 3);
    BitStepIsLfsr(BitStep(BitStep(BitStep(BitStep(c)))));
    LfsrLast(w, 4);
    BitStepIsLfsr(BitStep(BitStep(BitStep(BitStep(BitStep(c))))));
    LfsrLast(w, 5);
    BitStepIsLfsr(BitStep(BitStep(BitStep(BitStep(BitStep(BitStep(c)))))));
    LfsrLast(w, 6);
    BitStepIsLfsr(BitStep(BitStep(BitStep(BitStep(BitStep(BitStep(BitStep(c))))))));
    LfsrLast(w, 7);
    LfsrNone(w);
  }

  lemma LfsrNone(w: Word)
    ensures LfsrN(w, 0) == w
  {
  }

  lemma ByteUnderShift(c: bv32, b: bv8)
    ensures (c ^ (b as bv32)) >> 8 == c >> 8
  {
  }

  lemma ThroughPieces(u: bv32, low: bv32, rest: bv32)
    requires BitsOf(low) == Low(BitsOf(u), 8) && BitsOf(rest) == Shift(BitsOf(u), 8)
    ensures BitsOf(EightSteps(low) ^ rest) == Through(BitsOf(u))
  {
    hide BitsOf, LfsrN, EightSteps;
    BitsOfXor(EightSteps(low), rest);
    EightStepsIsLfsr(low);
  }

  /** A step of the true table on a register that has the message byte xored in. */
  function TrueStep(u: bv32): bv32 {
    Mix(EightSteps(u & 0xFF), u >> 8)
  }

  lemma TrueStepIsThrough(u: bv32)
    ensures BitsOf(TrueStep(u)) == Through(BitsOf(u))
  {
    hide BitsOf, Through, EightSteps;
    BitsOfLowByte(u);
    BitsOfByteShift(u);
    ThroughPieces(u, u & 0xFF, u >> 8);
  }

  lemma LowByteTwice(u: bv32)
    ensures (((u & 0xFF) as bv8) as bv32) == u & 0xFF
  {
  }

  lemma IndexWide(c: bv32, b: bv8)
    ensures (Index(c, b) as bv32) == (c ^ (b as bv32)) & 0xFF
  {
    LowByteTwice(c ^ (b as bv32));
  }

  lemma RfcStepIsTrueStep(c: bv32, b: bv8)
    ensures RfcStep(c, b) == TrueStep(c ^ (b as bv32))
  {
    hide EightSteps, Index, Mix;
    IndexWide(c, b);
    ByteUnderShift(c, b);
  }

  /** The true step sends the low byte, with the message byte xored in, through the register. */
  lemma RfcStepIsThrough(c: bv32, b: bv8)
    ensures BitsOf(RfcStep(c, b)) == Through(BitsOf(c ^ (b as bv32)))
  {
    hide BitsOf, Through, RfcStep, TrueStep;
    RfcStepIsTrueStep(c, b);
    TrueStepIsThrough(c ^ (b as bv32));
  }

  lemma FlawedMix(i: bv8, e: bv32, rest: bv32)
    ensures Mix(Flawed(i, e), rest) == Flawed(i, Mix(e, rest))
  {
    if i == 0xF5 {
      XorSwap(e, 0x20, rest);
    }
  }

  lemma StepUnfolds(c: bv32, b: bv8)
    ensures Step(c, b) == Mix(Entry(Index(c, b)), c >> 8)
  {
    hide Entry;
  }

  /** The engine's step is the true one with the flaw. */
  lemma StepIsFlawed(c: bv32, b: bv8)
    ensures Step(c, b) == Flawed(Index(c, b), RfcStep(c, b))
  {
    hide EightSteps, Entry, Flawed, Index, Step, Mix;
    StepUnfolds(c, b);
    TableIsFlawed(Index(c, b));
    FlawedMix(Index(c, b), EightSteps(Index(c, b) as bv32), c >> 8);
  }

  lemma XorSwap(a: bv32, b: bv32, c: bv32)
    ensures (a ^ b) ^ c == (a ^ c) ^ b
  {
  }
}
