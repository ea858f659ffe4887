/** The in-memory index: the probing table in place, over two arrays. */
module MemIndexTable {
  import opened Types
  import opened Bytes
  import opened Ring
  import opened Sequence
  import opened RobinHood
  import IndexDump

  class MemIndex {
    const hash: Hash
    const capacity: nat
    const entries: array<IndexEntry>
    const psl: array<u8>
    var size: nat
    var globalSequence: u32

    ghost predicate Valid()
      reads this, entries, psl
    {
      && entries.Length == psl.Length == capacity > 0
      && GoodHash(hash)
      && NoGhosts(Contents())
      && size == Population(psl[..])
    }

    /** The table as a value. */
    ghost function Contents(): (t: Table)
      reads entries, psl
    {
      Table(entries[..], psl[..])
    }

    constructor (capacity: nat, hash: Hash)
      requires capacity > 0 && GoodHash(hash)
      ensures Valid() && fresh(entries) && fresh(psl)
      ensures this.capacity == capacity && this.hash == hash && globalSequence == 0
      ensures Inv(Contents(), hash) && Represents(Contents(), map[])
    {
      this.capacity := capacity;
      this.hash := hash;
      entries := new IndexEntry[capacity](_ => ZERO_ENTRY);
      psl := new u8[capacity](_ => 0);
      size := 0;
      globalSequence := 0;
      new;
      EmptyPopulation(psl[..], psl.Length);
    }

    /** The slot of the entry that answers a lookup. */
    method Find(key: Key) returns (slot: Option<nat>)
      requires Valid()
      ensures slot == FindSlot(Contents(), hash, key)
    {
      var tag := Tag(hash, key);
      var idx: nat := Home(hash, key, capacity);
      var dist: u8 := 0;
      ghost var t := Contents();
      while true
        invariant idx < capacity && dist <= MAX_PROBE
        invariant FindFrom(t, key, tag, idx, dist) == FindSlot(t, hash, key)
        decreases 128 - dist as int
      {
        if psl[idx] < dist {
          return None;
        }
        var entry := entries[idx];
        if entry.tag == tag && entry.key == key && !entry.deleted {
          return Some(idx);
        }
        idx := Next(idx, capacity);
        dist := dist + 1;
        if dist > MAX_PROBE {
          return None;
        }
      }
    }

    /** Puts an entry and its counter into a slot. */
    method Store(i: nat, e: IndexEntry, p: u8)
      requires entries.Length == psl.Length == capacity && i < capacity
      modifies entries, psl
      ensures Contents() == old(Contents()).Write(i, e, p)
    {
      entries[i] := e;
      psl[i] := p;
      assert psl[..] == old(psl[..])[i := p] && entries[..] == old(entries[..])[i := e];
    }

    /** Inserts or updates, swapping with poorer residents along the way. Terminates from every state:
        a swap lowers the slack or raises the counter, any other step raises the counter, which as an
        8-bit variable never overflows. */
    method Upsert(key: Key, newEntry: IndexEntry) returns (ok: bool)
      requires Valid()
      modifies this`size, entries, psl
      ensures Valid()
      ensures var r := RobinHood.Upsert(old(Contents()), hash, key, newEntry);
        && ok == r.ok && Contents() == r.table
        && size == old(size) + (if r.left == None then 1 else 0)
    {
      var idx: nat := Home(hash, key, capacity);
      var dist: u8 := 0;
      var carried := newEntry.(tag := Tag(hash, key));
      ghost var result := Probe(Contents(), key, idx, 0, carried);
      ProbePopulation(Contents(), key, idx, 0, carried);
      ProbeConserves(Contents(), key, idx, 0, carried, carried);
      hide Probe, SequenceNewer, Slack, Population, NoGhosts, GoodHash;
      while true
        invariant idx < capacity && dist <= MAX_PROBE && entries.Length == psl.Length == capacity
        invariant Probe(Contents(), key, idx, dist, carried) == result
        invariant size == old(size)
        decreases Slack(psl[..]), 129 - dist as int
      {
        ghost var t := Contents();
        ProbeStep(t, key, idx, dist, carried);
        if psl[idx] == 0 && entries[idx].IsEmpty() {
          Store(idx, carried, dist + 1);
          size := size + 1;
          return true;
        }
        if entries[idx].key == key {
          if SequenceNewer(carried.sequence, entries[idx].sequence) {
            Store(idx, carried, psl[idx]);
          }
          return true;
        }
        if psl[idx] < dist + 1 {
          SlackAfterUpdate(psl[..], idx, dist);
          var displaced, counter := entries[idx], psl[idx];
          Store(idx, carried, dist);
          carried, dist := displaced, counter + 1;
        }
        idx := Next(idx, capacity);
        dist := dist + 1;
        if dist > MAX_PROBE {
          return false;
        }
      }
    }

    /** Sets the deleted flag of a live entry. */
    method Remove(key: Key) returns (ok: bool)
      requires Valid()
      modifies entries
      ensures Valid()
      ensures (ok, Contents()) == RobinHood.Remove(old(Contents()), hash, key)
    {
      var slot := Find(key);
      if slot.None? {
        return false;
      }
      ghost var t := Contents();
      entries[slot.value] := entries[slot.value].(deleted := true);
      assert Contents() == t.Write(slot.value, entries[slot.value], t.psl[slot.value]);
      return true;
    }

    /** Packs the occupied slots, as many as fit, behind a header with their count and checksum. */
    method Serialize(bufferSize: nat, checksum: Checksum) returns (buffer: seq<Byte>)
      requires Valid()
      ensures buffer == IndexDump.Dump(Contents(), globalSequence, bufferSize, checksum)
    {
      if bufferSize < IndexDump.HEADER_SIZE {
        return [];
      }
      hide IndexDump.EncodeAll, IndexDump.Encode, IndexDump.Header, NoGhosts;
      var max := (bufferSize - IndexDump.HEADER_SIZE) / IndexDump.ENTRY_SIZE;
      ghost var t := Contents();
      var data: seq<Byte>, count: nat, i: nat := [], 0, 0;
      while i < capacity && count < max
        invariant i <= capacity && count <= max
        invariant count == |IndexDump.Occupants(t, i, max)|
        invariant data == IndexDump.EncodeAll(IndexDump.Occupants(t, i, max))
      {
        if psl[i] > 0 {
          data := data + IndexDump.Encode(entries[i]);
          count := count + 1;
          IndexDump.EncodeOneMore(IndexDump.Occupants(t, i, max), entries[i]);
        }
        i := i + 1;
      }
      IndexDump.OccupantsFull(t, i, max);
      buffer := IndexDump.Header(count, capacity, globalSequence, checksum(data)) + data;
    }

    /** Upserts the entries of a dump that are not deleted. */
    method Restore(data: seq<Byte>, count: nat)
      requires Valid() && count * IndexDump.ENTRY_SIZE <= |data|
      modifies this`size, entries, psl
      ensures Valid()
      ensures Contents() == IndexDump.Load(old(Contents()), hash, IndexDump.EntriesIn(data, count))
    {
      ghost var es, start := IndexDump.EntriesIn(data, count), Contents();
      var i := 0;
      while i < count
        invariant 0 <= i <= count && Valid()
        invariant Contents() == IndexDump.Load(start, hash, es[..i])
      {
        hide NoGhosts, GoodHash, Population;
        assert es[..i + 1][..i] == es[..i];
        var src := IndexDump.EntryAt(data, i);
        if !src.deleted {
          var _ := Upsert(src.key, src);
        }
        i := i + 1;
      }
      assert es[..count] == es;
    }

    /** Upserts the live entries of a dump; 0 for a buffer that is no valid dump. The result of the single
        upserts is ignored. */
    method Deserialize(buffer: seq<Byte>, checksum: Checksum) returns (count: nat)
      requires Valid()
      modifies this, entries, psl
      ensures Valid()
      ensures var d := IndexDump.Undump(buffer, checksum);
        && (d.None? ==> count == 0 && Contents() == old(Contents()) && globalSequence == old(globalSequence))
        && (d.Some? ==> count == |d.value.0| && globalSequence == d.value.1
                        && Contents() == IndexDump.Load(old(Contents()), hash, d.value.0))
    {
      if |buffer| < IndexDump.HEADER_SIZE || Field(buffer, 0, 4) != IndexDump.MEM_INDEX_MAGIC {
        return 0;
      }
      var data := buffer[IndexDump.HEADER_SIZE..];
      if checksum(data) != Field(buffer, 32, 4) {
        return 0;
      }
      count := Field(buffer, 8, 8);
      if count * IndexDump.ENTRY_SIZE > |data| {
        return 0;
      }
      Restore(data, count);
      globalSequence := Field(buffer, 24, 8) % TWO32;
    }
  }

  lemma {:induction false} EmptyPopulation(psl: seq<u8>, n: nat)
    requires n <= |psl| && forall i :: 0 <= i < n ==> psl[i] == 0
    ensures PopulationTo(psl, n) == 0
  {
    if n > 0 {
      EmptyPopulation(psl, n - 1);
    }
  }
}
