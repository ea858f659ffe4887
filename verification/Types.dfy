/** Machine integers, page geometry and the index entry shared by every component. */
module Types {

  newtype u8 = x: int | 0 <= x < 0x100
  type u16 = x: int | 0 <= x < 0x1_0000
  type u32 = x: int | 0 <= x < 0x1_0000_0000
  type u64 = x: int | 0 <= x < 0x1_0000_0000_0000_0000
  type Key = u64

  const TWO32: nat := 0x1_0000_0000
  const PAGE_SIZE: nat := 4096

  datatype Option<+T> = None | Some(value: T)

  /** The packed 20-byte in-memory index entry; file id and offset are bit fields of 10 and 21 bits. */
  datatype IndexEntry = IndexEntry(
    key: Key,
    fileId: nat,
    offsetIndex: nat,
    deleted: bool,
    sequence: u32,
    pageCount: u16,
    tag: u8)
  {
    /** The test an empty slot passes: only the key and the sequence are looked at. */
    predicate IsEmpty() {
      key == 0 && sequence == 0
    }

    /** File id and offset fit their bit fields of 10 and 21 bits. */
    predicate Packable() {
      fileId < 0x400 && offsetIndex < 0x20_0000
    }
  }

  /** What zero-initialised slot memory reads as. */
  const ZERO_ENTRY: IndexEntry := IndexEntry(0, 0, 0, false, 0, 0, 0)

  function Max(a: int, b: int): int {
    if a < b then b else a
  }

  function Min(a: int, b: int): int {
    if a < b then a else b
  }

  /** Rounds n up to a multiple of the page size. */
  function AlignUp(n: nat): (r: nat)
    ensures n <= r < n + PAGE_SIZE && r % PAGE_SIZE == 0
  {
    (n + PAGE_SIZE - 1) / PAGE_SIZE * PAGE_SIZE
  }
}
