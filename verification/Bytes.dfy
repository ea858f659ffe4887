/** Fixed-width little-endian fields, as the packed structures are laid out in memory and on disk. */
module Bytes {
  import opened Types

  type Byte = u8
  /** The checksum over a byte range; results about formats hold for every such function. */
  type Checksum = seq<Byte> -> u32

  function Pow256(w: nat): (p: nat)
    ensures p > 0
  {
    if w == 0 then 1 else 256 * Pow256(w - 1)
  }

  function LE(n: nat, w: nat): (s: seq<Byte>)
    ensures |s| == w
  {
    if w == 0 then [] else [(n % 256) as Byte] + LE(n / 256, w - 1)
  }

  function FromLE(s: seq<Byte>): nat {
    if s == [] then 0 else s[0] as nat + 256 * FromLE(s[1..])
  }

  lemma {:induction false} LERoundTrip(n: nat, w: nat)
    requires n < Pow256(w)
    ensures FromLE(LE(n, w)) == n
  {
    if w > 0 {
      assert n / 256 < Pow256(w - 1);
      LERoundTrip(n / 256, w - 1);
      assert LE(n, w)[1..] == LE(n / 256, w - 1);
    }
  }

  lemma {:induction false} FromLEBound(s: seq<Byte>)
    ensures FromLE(s) < Pow256(|s|)
  {
    if s != [] {
      FromLEBound(s[1..]);
    }
  }

  lemma Powers()
    ensures Pow256(1) == 0x100 && Pow256(2) == 0x1_0000 && Pow256(4) == 0x1_0000_0000
    ensures Pow256(8) == 0x1_0000_0000_0000_0000
  {
    assert Pow256(4) == 256 * 256 * Pow256(2);
    assert Pow256(6) == 256 * 256 * Pow256(4);
    assert Pow256(8) == 256 * 256 * Pow256(6);
  }

  /** The w-byte field at offset o. */
  function Field(s: seq<Byte>, o: nat, w: nat): nat
    requires o + w <= |s|
  {
    FromLE(s[o..o + w])
  }

  lemma FieldBound(s: seq<Byte>, o: nat, w: nat)
    requires o + w <= |s|
    ensures Field(s, o, w) < Pow256(w)
  {
    FromLEBound(s[o..o + w]);
  }

  /** A field written between a prefix of o bytes and any suffix reads back. */
  lemma FieldReadsBack(pre: seq<Byte>, n: nat, w: nat, post: seq<Byte>)
    requires n < Pow256(w)
    ensures Field(pre + LE(n, w) + post, |pre|, w) == n
  {
    assert (pre + LE(n, w) + post)[|pre|..|pre| + w] == LE(n, w);
    LERoundTrip(n, w);
  }

  // ---------------------------------------------------------------------------------------------
  // Packed records: one field after the other
  // ---------------------------------------------------------------------------------------------

  datatype Cell = Cell(value: nat, width: nat)

  /** Where cell i starts. */
  function Offset(cells: seq<Cell>, i: nat): nat
    requires i <= |cells|
  {
    if i == 0 then 0 else Offset(cells, i - 1) + cells[i - 1].width
  }

  /** The bytes of the first i cells. */
  function LayoutTo(cells: seq<Cell>, i: nat): (s: seq<Byte>)
    requires i <= |cells|
    ensures |s| == Offset(cells, i)
  {
    if i == 0 then [] else LayoutTo(cells, i - 1) + LE(cells[i - 1].value, cells[i - 1].width)
  }

  function Layout(cells: seq<Cell>): (s: seq<Byte>)
    ensures |s| == Offset(cells, |cells|)
  {
    LayoutTo(cells, |cells|)
  }

  /** A later field does not disturb an earlier one. */
  lemma FieldOfPrefix(s: seq<Byte>, post: seq<Byte>, o: nat, w: nat)
    requires o + w <= |s|
    ensures Field(s + post, o, w) == Field(s, o, w)
  {
    assert (s + post)[o..o + w] == s[o..o + w];
  }

  lemma {:induction false} LayoutToReadsBack(cells: seq<Cell>, n: nat, i: nat)
    requires i < n <= |cells| && cells[i].value < Pow256(cells[i].width)
    ensures Offset(cells, i) + cells[i].width <= Offset(cells, n)
    ensures Field(LayoutTo(cells, n), Offset(cells, i), cells[i].width) == cells[i].value
  {
    if i == n - 1 {
      FieldReadsBack(LayoutTo(cells, i), cells[i].value, cells[i].width, []);
      assert LayoutTo(cells, i) + LE(cells[i].value, cells[i].width) + [] == LayoutTo(cells, n);
    } else {
      LayoutToReadsBack(cells, n - 1, i);
      FieldOfPrefix(LayoutTo(cells, n - 1), LE(cells[n - 1].value, cells[n - 1].width), Offset(cells, i),
          cells[i].width);
    }
  }

  /** Every field of a packed record reads back at its offset, whatever follows the record. */
  lemma LayoutReadsBack(cells: seq<Cell>, i: nat, post: seq<Byte>)
    requires i < |cells| && cells[i].value < Pow256(cells[i].width)
    ensures Offset(cells, i) + cells[i].width <= |Layout(cells)|
    ensures Field(Layout(cells) + post, Offset(cells, i), cells[i].width) == cells[i].value
  {
    LayoutToReadsBack(cells, |cells|, i);
    FieldOfPrefix(Layout(cells), post, Offset(cells, i), cells[i].width);
  }
}
