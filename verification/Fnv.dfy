/** The 64-bit FNV-1a style hash that places keys in the table. */
module Fnv {
  import opened Types
  import opened RobinHood

  const OFFSET_BASIS: bv64 := 14695981039346656037
  const PRIME: bv64 := 1099511628211

  /** The rounds over the bytes of key from byte i on. */
  function Rounds(key: bv64, i: nat, hash: bv64): bv64
    requires i <= 8
    decreases 8 - i
  {
    if i == 8 then hash else Rounds(key >> 8, i + 1, (hash ^ (key & 0xFF)) * PRIME)
  }

  function HashOf(key: Key): u64 {
    Rounds(key as bv64, 0, OFFSET_BASIS) as u64
  }

  /** Key 0 does not get tag 0, so a lookup of key 0 cannot take an empty slot for an entry. */
  lemma FnvIsGoodHash()
    ensures GoodHash(k => HashOf(k))
  {
  }

  /** The FNV-1a hashes of the eight bytes of 0, of 1 and of 0x0123456789ABCDEF, lowest byte first. */
  lemma KnownHashes()
    ensures Rounds(0, 0, 0xCBF29CE484222325) == 0xA8C7F832281A39C5
    ensures Rounds(1, 0, 0xCBF29CE484222325) == 0x89CD31291D2AEFA4
    ensures Rounds(0x0123456789ABCDEF, 0, 0xCBF29CE484222325) == 0x37EB3F3347761C55
    ensures OFFSET_BASIS == 0xCBF29CE484222325
  {
  }
}
