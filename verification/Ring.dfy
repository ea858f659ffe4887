/** Positions on a ring of n slots: what `(i + 1) % n` and its iterates mean for indices below n. */
module Ring {

  function Next(i: nat, n: nat): nat {
    if i + 1 == n then 0 else i + 1
  }

  /** The slot j places after h. */
  function Slot(h: nat, j: nat, n: nat): nat {
    if h + j < n then h + j else h + j - n
  }

  /** How many places slot i lies after h. */
  function Displacement(h: nat, i: nat, n: nat): nat
    requires h < n && i < n
  {
    if i >= h then i - h else i - h + n
  }

  lemma NextIsModulo(i: nat, n: nat)
    requires i < n
    ensures Next(i, n) == (i + 1) % n
  {
    if i + 1 < n {
      assert (i + 1) % n == i + 1;
    }
  }
}
