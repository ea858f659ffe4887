/** What the checksum with its flawed entry still detects, and exactly when it is the CRC-32 of RFC 1952. */
module CrcBursts {
  import opened Crc32
  import opened CrcBits
  import opened CrcTable

  /** A register with a message byte xored into its low byte. */
  function Fed(c: bv32, b: bv8): Word {
    BitsOf(c ^ (b as bv32))
  }

  function ByteBits(b: bv8): Word {
    BitsOf(b as bv32)
  }

  /** The wrong bit of entry 245. */
  const FLAW: Word := [
    false, false, false, false, false, true, false, false,
    false, false, false, false, false, false, false, false,
    false, false, false, false, false, false, false, false,
    false, false, false, false, false, false, false, false]

  /** A register with the wrong bit of the flawed entry, if that was looked up. */
  function WithFlaw(flawed: bool, w: Word): Word {
    if flawed then Xor(w, FLAW) else w
  }

  lemma FedBits(c: bv32, b: bv8)
    ensures Fed(c, b) == Xor(BitsOf(c), ByteBits(b))
  {
    hide BitsOf;
    BitsOfXor(c, b as bv32);
  }

  lemma ByteIsLow(b: bv8)
    ensures (b as bv32) & 0xFF == (b as bv32)
  {
  }

  lemma ByteBitsLow(b: bv8)
    ensures forall i :: 8 <= i < 32 ==> !ByteBits(b)[i]
  {
    hide BitsOf;
    BitsOfLowByte(b as bv32);
    ByteIsLow(b);
  }

  lemma Narrow(x: bv8, y: bv8)
    requires (x as bv32) == (y as bv32)
    ensures x == y
  {
  }

  lemma ByteBitsDetermine(x: bv8, y: bv8)
    requires forall i :: 0 <= i < 8 ==> ByteBits(x)[i] == ByteBits(y)[i]
    ensures x == y
  {
    hide BitsOf;
    ByteBitsLow(x);
    ByteBitsLow(y);
    assert ByteBits(x) == ByteBits(y);
    BitsDetermine(x as bv32, y as bv32);
    Narrow(x, y);
  }

  lemma IndexBits(c: bv32, b: bv8)
    ensures ByteBits(Index(c, b)) == Low(Fed(c, b), 8)
  {
    hide BitsOf, Index;
    IndexWide(c, b);
    BitsOfLowByte(c ^ (b as bv32));
  }

  lemma FlawBits()
    ensures BitsOf(0x20) == FLAW
  {
  }

  /** A step sends the low byte through the register, with one wrong bit after a lookup of entry 245. */
  lemma StepBits(c: bv32, b: bv8)
    ensures BitsOf(Step(c, b)) == WithFlaw(Index(c, b) == 0xF5, Through(Fed(c, b)))
  {
    hide BitsOf, Through, Index, Step, RfcStep;
    StepIsFlawed(c, b);
    RfcStepIsThrough(c, b);
    BitsOfXor(RfcStep(c, b), 0x20);
    FlawBits();
  }

  // ---------------------------------------------------------------------------------------------
  // Stepping back
  // ---------------------------------------------------------------------------------------------

  ghost predicate AgreeFrom(u: Word, v: Word, t: nat) {
    forall i :: t <= i < 32 ==> u[i] == v[i]
  }

  ghost predicate AgreeBelow(u: Word, v: Word, a: nat) {
    forall i :: 0 <= i < a && i < 32 ==> u[i] == v[i]
  }

  /** What has gone through the register and agrees in the top bits agreed in the low byte. */
  lemma ThroughShowsLow(u: Word, v: Word, a: nat)
    requires a <= 8 && AgreeBelow(u, v, a) && AgreeFrom(Through(u), Through(v), 24 + a)
    ensures AgreeBelow(u, v, 8)
  {
    hide Lfsr, LfsrN;
    var d := Xor(Low(u, 8), Low(v, 8));
    LfsrNLinear(Low(u, 8), Low(v, 8), 8);
    forall i | 24 + a <= i < 32
      ensures !LfsrN(d, 8)[i]
    {
      assert Through(u)[i] == Through(v)[i];
    }
    TopShowsLow(d, a, 8);
    forall i | 0 <= i < 8
      ensures u[i] == v[i]
    {
      assert !d[i];
    }
  }

  lemma ThroughShowsRest(u: Word, v: Word, t: nat)
    requires AgreeBelow(u, v, 8) && AgreeFrom(Through(u), Through(v), t)
    ensures AgreeFrom(u, v, t + 8)
  {
    hide Lfsr, LfsrN;
    assert Low(u, 8) == Low(v, 8);
    forall i | t + 8 <= i < 32
      ensures u[i] == v[i]
    {
      assert Through(u)[i - 8] == Through(v)[i - 8];
    }
  }

  lemma SameIndex(c: bv32, d: bv32, x: bv8, y: bv8)
    requires AgreeBelow(Fed(c, x), Fed(d, y), 8)
    ensures Index(c, x) == Index(d, y)
  {
    hide BitsOf, Index, Fed;
    IndexBits(c, x);
    IndexBits(d, y);
    ByteBitsDetermine(Index(c, x), Index(d, y));
  }

  /** Two steps that agree in the high bits looked up the same entry and agreed, a byte further up, before. */
  lemma StepBack(c: bv32, d: bv32, x: bv8, y: bv8, t: nat, a: nat)
    requires a <= 8 && t <= 24 + a && AgreeBelow(Fed(c, x), Fed(d, y), a)
    requires AgreeFrom(BitsOf(Step(c, x)), BitsOf(Step(d, y)), t)
    ensures AgreeBelow(Fed(c, x), Fed(d, y), 8) && AgreeFrom(Fed(c, x), Fed(d, y), t + 8)
  {
    hide BitsOf, Through, Index, Step, Fed;
    var u, v := Fed(c, x), Fed(d, y);
    StepBits(c, x);
    StepBits(d, y);
    forall i | 24 + a <= i < 32
      ensures Through(u)[i] == Through(v)[i]
    {
      assert BitsOf(Step(c, x))[i] == BitsOf(Step(d, y))[i];
    }
    ThroughShowsLow(u, v, a);
    SameIndex(c, d, x, y);
    forall i | t <= i < 32
      ensures Through(u)[i] == Through(v)[i]
    {
      assert BitsOf(Step(c, x))[i] == BitsOf(Step(d, y))[i];
    }
    ThroughShowsRest(u, v, t);
  }

  /** The registers before the step agree from a byte further up. */
  lemma StatesBack(c: bv32, d: bv32, x: bv8, y: bv8, t: nat)
    requires t <= 24 && AgreeFrom(BitsOf(Step(c, x)), BitsOf(Step(d, y)), t)
    ensures AgreeFrom(BitsOf(c), BitsOf(d), t + 8)
  {
    hide BitsOf, Through, Index, Step, Fed, ByteBits;
    StepBack(c, d, x, y, t, 0);
    FedBits(c, x);
    FedBits(d, y);
    ByteBitsLow(x);
    ByteBitsLow(y);
    forall i | t + 8 <= i < 32
      ensures BitsOf(c)[i] == BitsOf(d)[i]
    {
      assert Fed(c, x)[i] == Fed(d, y)[i];
    }
  }

  /** From one register, steps on different bytes that agree in their lowest a bits differ above bit t. */
  lemma BytesBack(c: bv32, x: bv8, y: bv8, t: nat, a: nat)
    requires a <= 8 && t <= 24 + a && AgreeBelow(ByteBits(x), ByteBits(y), a)
    requires AgreeFrom(BitsOf(Step(c, x)), BitsOf(Step(c, y)), t)
    ensures x == y
  {
    hide BitsOf, Through, Index, Step, Fed, ByteBits;
    FedBits(c, x);
    FedBits(c, y);
    StepBack(c, c, x, y, t, a);
    forall i | 0 <= i < 8
      ensures ByteBits(x)[i] == ByteBits(y)[i]
    {
      assert Fed(c, x)[i] == Fed(c, y)[i];
    }
    ByteBitsDetermine(x, y);
  }

  /** From different registers, steps on the same byte differ. */
  lemma StepInjective(c: bv32, d: bv32, b: bv8)
    requires Step(c, b) == Step(d, b)
    ensures c == d
  {
    hide BitsOf, Through, Index, Step, Fed, ByteBits;
    StepBack(c, d, b, b, 0, 0);
    FedBits(c, b);
    FedBits(d, b);
    forall i | 0 <= i < 32
      ensures BitsOf(c)[i] == BitsOf(d)[i]
    {
      assert Fed(c, b)[i] == Fed(d, b)[i];
    }
    BitsDetermine(c, d);
  }

  // ---------------------------------------------------------------------------------------------
  // Windows
  // ---------------------------------------------------------------------------------------------

  lemma UpdateLast(c: bv32, msg: seq<bv8>, n: nat)
    requires n < |msg|
    ensures Update(c, msg[..n + 1]) == Step(Update(c, msg[..n]), msg[n])
  {
    hide Step;
    assert msg[..n + 1] == msg[..n] + [msg[n]];
    UpdateOneMore(c, msg[..n], msg[n]);
  }

  /** From one register, different messages of n bytes, 8 n + t <= 32, lead to registers that differ above bit t. */
  lemma {:induction false} WindowInjective(c: bv32, xs: seq<bv8>, ys: seq<bv8>, n: nat, t: nat)
    requires n <= |xs| == |ys| && 8 * n + t <= 32
    requires AgreeFrom(BitsOf(Update(c, xs[..n])), BitsOf(Update(c, ys[..n])), t)
    ensures xs[..n] == ys[..n]
    decreases n
  {
    hide BitsOf, Step, Update;
    if n > 0 {
      UpdateLast(c, xs, n - 1);
      UpdateLast(c, ys, n - 1);
      var cx, cy := Update(c, xs[..n - 1]), Update(c, ys[..n - 1]);
      StatesBack(cx, cy, xs[n - 1], ys[n - 1], t);
      WindowInjective(c, xs, ys, n - 1, t + 8);
      NoBitsBelow(ByteBits(xs[n - 1]), ByteBits(ys[n - 1]));
      BytesBack(cx, xs[n - 1], ys[n - 1], t, 0);
      assert xs[..n] == xs[..n - 1] + [xs[n - 1]];
      assert ys[..n] == ys[..n - 1] + [ys[n - 1]];
    }
  }

  lemma NoBitsBelow(u: Word, v: Word)
    ensures AgreeBelow(u, v, 0)
  {
  }

  /** The same bytes keep different registers different. */
  lemma {:induction false} UpdateInjective(c: bv32, d: bv32, msg: seq<bv8>)
    requires Update(c, msg) == Update(d, msg)
    ensures c == d
    decreases |msg|
  {
    hide Step;
    if msg != [] {
      var rest, b := msg[..|msg| - 1], msg[|msg| - 1];
      StepInjective(Update(c, rest), Update(d, rest), b);
      UpdateInjective(c, d, rest);
    }
  }

  /** The last byte of a window of five: its two registers differ only where the two bytes do. */
  lemma LastByteBack(c: bv32, d: bv32, x: bv8, y: bv8, a: nat)
    requires Step(c, x) == Step(d, y) && AgreeFrom(ByteBits(x), ByteBits(y), a)
    ensures AgreeFrom(BitsOf(c), BitsOf(d), a)
  {
    hide BitsOf, Through, Index, Step, Fed, ByteBits;
    StepBack(c, d, x, y, 0, 0);
    FedBits(c, x);
    FedBits(d, y);
    forall i | a <= i < 32
      ensures BitsOf(c)[i] == BitsOf(d)[i]
    {
      assert Fed(c, x)[i] == Fed(d, y)[i];
      assert ByteBits(x)[i] == ByteBits(y)[i];
    }
  }

  /** A window of 32 bits that starts at bit a of its first byte and ends before bit a of its fifth. */
  lemma FiveBytes(c: bv32, xs: seq<bv8>, ys: seq<bv8>, a: nat)
    requires |xs| == |ys| == 5 && a <= 8
    requires AgreeBelow(ByteBits(xs[0]), ByteBits(ys[0]), a) && AgreeFrom(ByteBits(xs[4]), ByteBits(ys[4]), a)
    requires Update(c, xs[..5]) == Update(c, ys[..5])
    ensures xs == ys
  {
    hide BitsOf, Step, Update, ByteBits;
    UpdateLast(c, xs, 4);
    UpdateLast(c, ys, 4);
    LastByteBack(Update(c, xs[..4]), Update(c, ys[..4]), xs[4], ys[4], a);
    UpdateLast(c, xs, 3);
    UpdateLast(c, ys, 3);
    StatesBack(Update(c, xs[..3]), Update(c, ys[..3]), xs[3], ys[3], a);
    UpdateLast(c, xs, 2);
    UpdateLast(c, ys, 2);
    StatesBack(Update(c, xs[..2]), Update(c, ys[..2]), xs[2], ys[2], a + 8);
    UpdateLast(c, xs, 1);
    UpdateLast(c, ys, 1);
    StatesBack(Update(c, xs[..1]), Update(c, ys[..1]), xs[1], ys[1], a + 16);
    UpdateLast(c, xs, 0);
    UpdateLast(c, ys, 0);
    UpdateNone(c, xs);
    UpdateNone(c, ys);
    BytesBack(c, xs[0], ys[0], a + 24, a);
    var first := Step(c, xs[0]);
    TailOfFive(c, xs);
    TailOfFive(c, ys);
    WindowInjective(first, xs[1..], ys[1..], 4, 0);
    assert xs[1..][..4] == xs[1..] && ys[1..][..4] == ys[1..];
    assert xs == [xs[0]] + xs[1..] && ys == [ys[0]] + ys[1..];
  }

  lemma UpdateNone(c: bv32, xs: seq<bv8>)
    ensures Update(c, xs[..0]) == c
  {
  }

  lemma TailOfFive(c: bv32, xs: seq<bv8>)
    requires |xs| == 5
    ensures Update(c, xs[..5]) == Update(Step(c, xs[0]), xs[1..][..4])
  {
    hide Step, Update;
    UpdateLast(c, xs, 0);
    UpdateNone(c, xs);
    UpdateAppend(c, xs[..1], xs[1..]);
    assert xs[..1] + xs[1..] == xs[..5];
    assert xs[1..][..4] == xs[1..];
  }

  // ---------------------------------------------------------------------------------------------
  // Bursts
  // ---------------------------------------------------------------------------------------------

  /** Bit i of a message, the lowest bit of a byte first. */
  predicate MessageBit(msg: seq<bv8>, i: nat)
    requires i < 8 * |msg|
  {
    ByteBits(msg[i / 8])[i % 8]
  }

  /** The messages agree outside the 32 bits from bit k. */
  ghost predicate DifferWithin(a: seq<bv8>, b: seq<bv8>, k: nat) {
    |a| == |b| && forall i: nat :: i < 8 * |a| && MessageBit(a, i) != MessageBit(b, i) ==> k <= i < k + 32
  }

  lemma OutsideAgrees(a: seq<bv8>, b: seq<bv8>, k: nat, j: nat)
    requires DifferWithin(a, b, k) && j < |a| && !(k / 8 <= j < k / 8 + 5)
    ensures a[j] == b[j]
  {
    hide ByteBits;
    forall i | 0 <= i < 8
      ensures ByteBits(a[j])[i] == ByteBits(b[j])[i]
    {
      assert MessageBit(a, 8 * j + i) == ByteBits(a[j])[i];
      assert MessageBit(b, 8 * j + i) == ByteBits(b[j])[i];
    }
    ByteBitsDetermine(a[j], b[j]);
  }

  lemma EdgesAgree(a: seq<bv8>, b: seq<bv8>, k: nat)
    requires DifferWithin(a, b, k) && k / 8 + 4 < |a|
    ensures AgreeBelow(ByteBits(a[k / 8]), ByteBits(b[k / 8]), k % 8)
    ensures AgreeFrom(ByteBits(a[k / 8 + 4]), ByteBits(b[k / 8 + 4]), k % 8)
  {
    hide ByteBits;
    var p := k / 8;
    forall i | 0 <= i < k % 8
      ensures ByteBits(a[p])[i] == ByteBits(b[p])[i]
    {
      assert MessageBit(a, 8 * p + i) == ByteBits(a[p])[i];
      assert MessageBit(b, 8 * p + i) == ByteBits(b[p])[i];
    }
    var x, y := ByteBits(a[p + 4]), ByteBits(b[p + 4]);
    ByteBitsLow(a[p + 4]);
    ByteBitsLow(b[p + 4]);
    forall i | k % 8 <= i < 32
      ensures x[i] == y[i]
    {
      if i < 8 {
        assert MessageBit(a, 8 * (p + 4) + i) == x[i];
        assert MessageBit(b, 8 * (p + 4) + i) == y[i];
      }
    }
  }

  lemma SameLength(a: seq<bv8>, b: seq<bv8>, k: nat)
    requires DifferWithin(a, b, k)
    ensures |a| == |b|
  {
  }

  /** The registers before and after a window determine its bytes up to what the window's ends agree on. */
  lemma WindowDetected(a: seq<bv8>, b: seq<bv8>, k: nat, lo: nat, hi: nat)
    requires DifferWithin(a, b, k) && lo == k / 8 <= hi <= |a| && hi <= lo + 5 && (hi < |a| ==> hi == lo + 5)
    requires Update(Update(ONES, a[..lo]), a[lo..hi]) == Update(Update(ONES, a[..lo]), b[lo..hi])
    ensures a[lo..hi] == b[lo..hi]
  {
    hide Update, BitsOf, ByteBits, DifferWithin;
    SameLength(a, b, k);
    var c, xs, ys := Update(ONES, a[..lo]), a[lo..hi], b[lo..hi];
    var n := hi - lo;
    assert xs[..n] == xs && ys[..n] == ys;
    if n < 5 {
      WindowInjective(c, xs, ys, n, 0);
    } else {
      EdgesAgree(a, b, k);
      FiveBytes(c, xs, ys, k % 8);
    }
  }

  lemma SplitUpdate(a: seq<bv8>, lo: nat, hi: nat)
    requires lo <= hi <= |a|
    ensures Update(ONES, a) == Update(Update(Update(ONES, a[..lo]), a[lo..hi]), a[hi..])
  {
    hide Update;
    UpdateAppend(ONES, a[..lo], a[lo..hi]);
    assert a[..lo] + a[lo..hi] == a[..hi];
    UpdateAppend(ONES, a[..hi], a[hi..]);
    assert a[..hi] + a[hi..] == a;
  }

  /**
   Two different messages of one length that differ only within 32 consecutive bits have different checksums,
   the flawed table entry notwithstanding.
   */
  lemma BurstDetected(a: seq<bv8>, b: seq<bv8>, k: nat)
    requires DifferWithin(a, b, k)
    ensures Checksum(a) == Checksum(b) <==> a == b
  {
    hide Update, Complement, DifferWithin;
    if Checksum(a) == Checksum(b) {
      DoubleComplement(Update(ONES, a));
      DoubleComplement(Update(ONES, b));
      SameLength(a, b, k);
      var lo := if k / 8 < |a| then k / 8 else |a|;
      var hi := if lo + 5 < |a| then lo + 5 else |a|;
      forall j | 0 <= j < |a| && !(lo <= j < hi)
        ensures a[j] == b[j]
      {
        OutsideAgrees(a, b, k, j);
      }
      assert a[..lo] == b[..lo] && a[hi..] == b[hi..];
      SplitUpdate(a, lo, hi);
      SplitUpdate(b, lo, hi);
      UpdateInjective(Update(Update(ONES, a[..lo]), a[lo..hi]), Update(Update(ONES, b[..lo]), b[lo..hi]), a[hi..]);
      if lo == k / 8 {
        WindowDetected(a, b, k, lo, hi);
      }
      assert a == a[..lo] + a[lo..hi] + a[hi..];
      assert b == b[..lo] + b[lo..hi] + b[hi..];
    }
  }

  // ---------------------------------------------------------------------------------------------
  // When the checksum is the CRC-32 of RFC 1952
  // ---------------------------------------------------------------------------------------------

  /** Which steps over a message look up the flawed entry. */
  function Lookups(c: bv32, msg: seq<bv8>): (r: seq<bool>)
    ensures |r| == |msg|
  {
    if msg == [] then [] else
      Lookups(c, msg[..|msg| - 1]) + [Index(Update(c, msg[..|msg| - 1]), msg[|msg| - 1]) == 0xF5]
  }

  /** What the wrong bits of those lookups have grown to by the end of the message. */
  function Drift(lookups: seq<bool>): Word {
    if lookups == [] then ZERO else
      WithFlaw(lookups[|lookups| - 1], Through(Drift(lookups[..|lookups| - 1])))
  }

  lemma DriftStep(c: bv32, r: bv32, d: Word, b: bv8)
    requires BitsOf(c) == Xor(BitsOf(r), d)
    ensures BitsOf(Step(c, b)) == Xor(BitsOf(RfcStep(r, b)), WithFlaw(Index(c, b) == 0xF5, Through(d)))
  {
    hide BitsOf, Through, Index, Step, RfcStep, Fed, ByteBits;
    StepBits(c, b);
    RfcFed(r, b);
    FedBits(c, b);
    FedBits(r, b);
    assert Fed(c, b) == Xor(Fed(r, b), d);
    ThroughLinear(Fed(r, b), d);
  }

  lemma RfcFed(r: bv32, b: bv8)
    ensures BitsOf(RfcStep(r, b)) == Through(Fed(r, b))
  {
    hide BitsOf, Through, RfcStep;
    RfcStepIsThrough(r, b);
  }

  /** The register is the true one and the drift. */
  lemma {:induction false} UpdateDrifts(c: bv32, msg: seq<bv8>)
    ensures BitsOf(Update(c, msg)) == Xor(BitsOf(RfcUpdate(c, msg)), Drift(Lookups(c, msg)))
    decreases |msg|
  {
    hide BitsOf, Through, Index, Step, RfcStep;
    if msg != [] {
      var rest, b := msg[..|msg| - 1], msg[|msg| - 1];
      UpdateDrifts(c, rest);
      DriftStep(Update(c, rest), RfcUpdate(c, rest), Drift(Lookups(c, rest)), b);
      assert Lookups(c, msg)[..|msg| - 1] == Lookups(c, rest);
    }
  }

  /** The checksum is the CRC-32 of RFC 1952 exactly if the wrong bits have cancelled out. */
  lemma ChecksumIsCrc32Iff(msg: seq<bv8>)
    ensures Checksum(msg) == RfcChecksum(msg) <==> Drift(Lookups(ONES, msg)) == ZERO
  {
    hide BitsOf, Update, RfcUpdate, Drift, Lookups, Complement;
    var u, r, d := Update(ONES, msg), RfcUpdate(ONES, msg), Drift(Lookups(ONES, msg));
    DoubleComplement(u);
    DoubleComplement(r);
    UpdateDrifts(ONES, msg);
    if d == ZERO {
      assert BitsOf(u) == BitsOf(r);
      BitsDetermine(u, r);
    }
    if u == r {
      forall i | 0 <= i < 32
        ensures d[i] == ZERO[i]
      {
        assert Xor(BitsOf(r), d)[i] == BitsOf(r)[i];
      }
    }
  }

  /** Without a lookup there is no drift, and a single one leaves some. */
  lemma {:induction false} DriftOfOne(lookups: seq<bool>, p: nat)
    requires forall i :: 0 <= i < |lookups| && i != p ==> !lookups[i]
    ensures Drift(lookups) == ZERO <==> p >= |lookups| || !lookups[p]
    decreases |lookups|
  {
    hide Through;
    if lookups != [] {
      var n := |lookups| - 1;
      DriftOfOne(lookups[..n], p);
      ThroughZero(Drift(lookups[..n]));
      if lookups[n] {
        assert Xor(ZERO, FLAW)[5];
      }
    }
  }

  /** A message with at most one lookup of the flawed entry has the right checksum exactly if it has none. */
  lemma OneLookupIsWrong(msg: seq<bv8>, p: nat)
    requires p < |msg| && forall i :: 0 <= i < |msg| && i != p ==> !Lookups(ONES, msg)[i]
    ensures Checksum(msg) == RfcChecksum(msg) <==> !Lookups(ONES, msg)[p]
  {
    hide Drift, Lookups, Checksum, RfcChecksum;
    DriftOfOne(Lookups(ONES, msg), p);
    ChecksumIsCrc32Iff(msg);
  }

  /** A message of one line feed, for instance, has the wrong checksum. */
  lemma LineFeedIsWrong()
    ensures Checksum([0x0A]) != RfcChecksum([0x0A])
  {
    hide Checksum, RfcChecksum;
    assert Index(ONES, 0x0A) == 0xF5;
    assert [0x0A as bv8][..0] == [];
    assert Lookups(ONES, [0x0A])[0];
    OneLookupIsWrong([0x0A], 0);
  }
}
