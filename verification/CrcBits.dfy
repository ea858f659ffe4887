/** The register of the checksum as 32 booleans, lowest bit first, and the shift register of the polynomial. */
module CrcBits {

  type Word = w: seq<bool> | |w| == 32 witness seq(32, _ => false)

  const ZERO: Word := [
    false, false, false, false, false, false, false, false,
    false, false, false, false, false, false, false, false,
    false, false, false, false, false, false, false, false,
    false, false, false, false, false, false, false, false]

  /** The polynomial 0xEDB88320. */
  const POLY: Word := [
    false, false, false, false, false, true, false, false,
    true, true, false, false, false, false, false, true,
    false, false, false, true, true, true, false, true,
    true, false, true, true, false, true, true, true]

  function Xor(a: Word, b: Word): (w: Word)
    ensures forall i :: 0 <= i < 32 ==> w[i] == (a[i] != b[i])
  {
    seq(32, i requires 0 <= i < 32 => a[i] != b[i])
  }

  /** Shifting right by n places. */
  function Shift(a: Word, n: nat): (w: Word)
    ensures forall i :: 0 <= i < 32 ==> w[i] == (i + n < 32 && a[i + n])
  {
    seq(32, i requires 0 <= i < 32 => i + n < 32 && a[i + n])
  }

  /** The lowest n bits. */
  function Low(w: Word, n: nat): (r: Word)
    ensures forall i :: 0 <= i < 32 ==> r[i] == (i < n && w[i])
  {
    seq(32, i requires 0 <= i < 32 => i < n && w[i])
  }

  /** The register after one bit has been shifted out. */
  function Lfsr(w: Word): Word {
    if w[0] then Xor(Shift(w, 1), POLY) else Shift(w, 1)
  }

  function LfsrN(w: Word, n: nat): Word
    decreases n
  {
    if n == 0 then w else LfsrN(Lfsr(w), n - 1)
  }

  /** A byte of the register shifted out through a table of eight shifts. */
  function Through(w: Word): Word {
    Xor(LfsrN(Low(w, 8), 8), Shift(w, 8))
  }

  lemma LfsrLinear(a: Word, b: Word)
    ensures Lfsr(Xor(a, b)) == Xor(Lfsr(a), Lfsr(b))
  {
    assert Xor(a, b)[0] == (a[0] != b[0]);
    forall i | 0 <= i < 32
      ensures Lfsr(Xor(a, b))[i] == Xor(Lfsr(a), Lfsr(b))[i]
    {
      assert Shift(Xor(a, b), 1)[i] == (Shift(a, 1)[i] != Shift(b, 1)[i]);
    }
  }

  lemma {:induction false} LfsrNLinear(a: Word, b: Word, n: nat)
    ensures LfsrN(Xor(a, b), n) == Xor(LfsrN(a, n), LfsrN(b, n))
    decreases n
  {
    hide Lfsr;
    if n > 0 {
      LfsrLinear(a, b);
      LfsrNLinear(Lfsr(a), Lfsr(b), n - 1);
    }
  }

  lemma ThroughLinear(a: Word, b: Word)
    ensures Through(Xor(a, b)) == Xor(Through(a), Through(b))
  {
    hide Lfsr, LfsrN;
    assert Low(Xor(a, b), 8) == Xor(Low(a, 8), Low(b, 8));
    LfsrNLinear(Low(a, 8), Low(b, 8), 8);
  }

  /** While the low bits are clear, nothing is fed back. */
  lemma {:induction false} ShiftsOnly(w: Word, n: nat)
    requires n <= 32 && forall i :: 0 <= i < n ==> !w[i]
    ensures LfsrN(w, n) == Shift(w, n)
    decreases n
  {
    if n == 0 {
      assert Shift(w, 0) == w;
    } else {
      var v := Lfsr(w);
      assert v == Shift(w, 1);
      ShiftsOnly(v, n - 1);
      assert Shift(v, n - 1) == Shift(w, n);
    }
  }

  lemma LfsrNFirst(w: Word, n: nat)
    requires n > 0
    ensures LfsrN(w, n) == LfsrN(Lfsr(w), n - 1)
  {
  }

  lemma LfsrBits(w: Word)
    ensures Lfsr(w)[31] == w[0]
    ensures !w[0] ==> Lfsr(w) == Shift(w, 1)
  {
  }

  /**
   A bit that is fed back shows at the top: if the lowest a of n bits are clear and after n shifts the highest
   n - a are, then all n bits were clear.
   */
  lemma {:induction false} TopShowsLow(w: Word, a: nat, n: nat)
    requires a <= n <= 32
    requires forall i :: 0 <= i < a ==> !w[i]
    requires forall i :: 32 - n + a <= i < 32 ==> !LfsrN(w, n)[i]
    ensures forall i :: 0 <= i < n ==> !w[i]
    decreases n
  {
    hide Lfsr, LfsrN;
    if n > 0 {
      var v := Lfsr(w);
      LfsrBits(w);
      LfsrNFirst(w, n);
      if a > 0 {
        TopShowsLow(v, a - 1, n - 1);
      } else {
        TopShowsLow(v, 0, n - 1);
        ShiftsOnly(v, n - 1);
        assert LfsrN(w, n)[32 - n] == v[31] == w[0];
      }
      forall i | 0 < i < n
        ensures !w[i]
      {
        assert v[i - 1] == Shift(w, 1)[i - 1];
      }
    }
  }

  /** No register but the zero one goes through to zero. */
  lemma ThroughZero(w: Word)
    ensures Through(w) == ZERO <==> w == ZERO
  {
    hide Lfsr, LfsrN;
    if w == ZERO {
      assert Low(w, 8) == ZERO;
      ShiftsOnly(ZERO, 8);
    }
    if Through(w) == ZERO {
      forall i | 24 <= i < 32
        ensures !LfsrN(Low(w, 8), 8)[i]
      {
        assert !Through(w)[i];
      }
      TopShowsLow(Low(w, 8), 0, 8);
      assert Low(w, 8) == ZERO;
      ShiftsOnly(ZERO, 8);
      forall i | 0 <= i < 32
        ensures w[i] == ZERO[i]
      {
        assert i >= 8 ==> !Through(w)[i - 8];
        assert i < 8 ==> !Low(w, 8)[i];
      }
    }
  }
}
