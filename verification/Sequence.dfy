/** 32-bit write sequence numbers and their wrap-around comparison (section 3.2 of RFC 1982). */
module Sequence {
  import opened Types

  const HALF: nat := 0x8000_0000

  /** The unsigned 32-bit difference a - b. */
  function Distance(a: u32, b: u32): u32 {
    (a - b) % TWO32
  }

  /** The cast of an unsigned 32-bit value to a signed one. */
  function ToSigned(x: u32): int {
    if x < HALF then x else x - TWO32
  }

  predicate SequenceNewer(a: u32, b: u32) {
    ToSigned(Distance(a, b)) > 0
  }

  lemma NewerIsAsymmetric(a: u32, b: u32)
    requires SequenceNewer(a, b)
    ensures !SequenceNewer(b, a)
  {
    assert Distance(b, a) == if a == b then 0 else TWO32 - Distance(a, b);
  }

  /** All of s lies in the window of fewer than 2^31 numbers that starts at base. */
  ghost predicate InWindow(base: u32, s: u32) {
    Distance(s, base) < HALF
  }

  /** Inside a window the comparison is the numeric order of the distances from its start. */
  lemma NewerInWindow(base: u32, a: u32, b: u32)
    requires InWindow(base, a) && InWindow(base, b)
    ensures SequenceNewer(a, b) <==> Distance(a, base) > Distance(b, base)
    ensures Distance(a, base) == Distance(b, base) ==> a == b
  {
    DistanceFromBase(base, a, b);
    DistanceFromBase(base, b, a);
  }

  /** A distance is the difference of the distances from a common start, modulo 2^32. */
  lemma DistanceFromBase(base: u32, a: u32, b: u32)
    ensures var d := Distance(a, base) - Distance(b, base);
      Distance(a, b) == if d < 0 then d + TWO32 else d
  {
    DistanceIs(a, b);
    DistanceIs(a, base);
    DistanceIs(b, base);
  }

  lemma DistanceIs(a: u32, b: u32)
    ensures Distance(a, b) == if a >= b then a - b else a - b + TWO32
  {
  }

  /** So it is a strict total order on any set of numbers within one window. */
  lemma NewerIsStrictTotalOrder(base: u32, a: u32, b: u32, c: u32)
    requires InWindow(base, a) && InWindow(base, b) && InWindow(base, c)
    ensures !SequenceNewer(a, a)
    ensures SequenceNewer(a, b) ==> !SequenceNewer(b, a)
    ensures a != b ==> SequenceNewer(a, b) || SequenceNewer(b, a)
    ensures SequenceNewer(a, b) && SequenceNewer(b, c) ==> SequenceNewer(a, c)
  {
    NewerInWindow(base, a, b);
    NewerInWindow(base, b, a);
    NewerInWindow(base, b, c);
    NewerInWindow(base, a, c);
  }

  /** Two different numbers are comparable exactly when they are not half the number space apart. */
  lemma ComparableUnlessHalfApart(a: u32, b: u32)
    requires a != b
    ensures (SequenceNewer(a, b) || SequenceNewer(b, a)) <==> Distance(a, b) != HALF
    ensures !(SequenceNewer(a, b) && SequenceNewer(b, a))
  {
    assert Distance(b, a) == TWO32 - Distance(a, b);
  }
}
