/** Rebuilding the index from the records of a data file. */
module Recovery {
  import opened Types
  import opened Bytes
  import opened Sequence
  import opened EntryFormat
  import IndexRule

  // ---------------------------------------------------------------------------------------------
  // The scan
  // ---------------------------------------------------------------------------------------------

  /** A record the scan accepts, with its offset in the buffer and its size. */
  datatype Found = Found(key: Key, sequence: u32, tombstone: bool, offset: nat, size: nat)

  /** The record at offset o as its fields say. */
  function FoundAt(b: seq<Byte>, o: nat): Found
    requires o + PREFIX_SIZE <= |b|
  {
    Found(KeyAt(b, o), SequenceAt(b, o), FlagsAt(b, o) % 2 == 1, o, SizeFor(LengthAt(b, o)))
  }

  /** The records accepted from offset o on: a wrong magic moves on to the next page, a record that does
      not fit or has a wrong checksum ends the scan. */
  function Scan(b: seq<Byte>, o: nat, crc: Checksum): seq<Found>
    decreases |b| - o
  {
    if o + PREFIX_SIZE > |b| then []
    else if MagicAt(b, o) != ENTRY_MAGIC then
      if AlignUp(o + 1) >= |b| then [] else Scan(b, AlignUp(o + 1), crc)
    else
      var size := SizeFor(LengthAt(b, o));
      if o + size > |b| || !ChecksumOk(b, o, size, crc) then []
      else [FoundAt(b, o)] + Scan(b, o + size, crc)
  }

  lemma ScanEnds(b: seq<Byte>, o: nat, crc: Checksum)
    requires o + PREFIX_SIZE > |b|
    ensures Scan(b, o, crc) == []
  {
  }

  lemma ScanMovesOn(b: seq<Byte>, o: nat, crc: Checksum)
    requires o + PREFIX_SIZE <= |b| && MagicAt(b, o) != ENTRY_MAGIC
    ensures Scan(b, o, crc) == if AlignUp(o + 1) >= |b| then [] else Scan(b, AlignUp(o + 1), crc)
  {
  }

  lemma ScanTakes(b: seq<Byte>, o: nat, crc: Checksum)
    requires o + PREFIX_SIZE <= |b| && MagicAt(b, o) == ENTRY_MAGIC
    ensures var size := SizeFor(LengthAt(b, o));
      Scan(b, o, crc) ==
        if o + size > |b| || !ChecksumOk(b, o, size, crc) then [] else [FoundAt(b, o)] + Scan(b, o + size, crc)
  {
  }

  /** The bytes of records written one after the other. */
  function BuildAll(rs: seq<Rec>, crc: Checksum): seq<Byte> {
    if rs == [] then [] else Build(rs[0], crc) + BuildAll(rs[1..], crc)
  }

  function TotalSize(rs: seq<Rec>): nat {
    if rs == [] then 0 else Size(rs[0]) + TotalSize(rs[1..])
  }

  lemma {:induction false} BuildAllSize(rs: seq<Rec>, crc: Checksum)
    ensures |BuildAll(rs, crc)| == TotalSize(rs) && TotalSize(rs) % PAGE_SIZE == 0
  {
    hide Build, SizeFor;
    if rs != [] {
      BuildAllSize(rs[1..], crc);
    }
  }

  /** What the scan should find, the first record being at offset o. */
  function Expected(rs: seq<Rec>, o: nat): seq<Found> {
    if rs == [] then []
    else [Found(rs[0].key, rs[0].sequence, rs[0].tombstone, o, Size(rs[0]))] + Expected(rs[1..], o + Size(rs[0]))
  }

  /** One built record is found and the scan goes on behind it. */
  lemma ScanStep(b: seq<Byte>, o: nat, r: Rec, crc: Checksum)
    requires Storable(r) && HoldsAt(b, o, Build(r, crc))
    ensures Scan(b, o, crc) == Expected([r], o) + Scan(b, o + Size(r), crc)
  {
    RecordReadsBack(b, o, r, crc);
    ScanTakes(b, o, crc);
    hide HoldsAt, Build, ChecksumOk, Scan, MagicAt, LengthAt;
    assert Expected([r], o) == [Found(r.key, r.sequence, r.tombstone, o, Size(r))];
  }

  lemma {:induction false} ScanRecords(pre: seq<Byte>, rs: seq<Rec>, post: seq<Byte>, crc: Checksum)
    requires forall r :: r in rs ==> Storable(r)
    ensures var b := pre + BuildAll(rs, crc) + post;
      Scan(b, |pre|, crc) == Expected(rs, |pre|) + Scan(b, |pre| + TotalSize(rs), crc)
    decreases |rs|
  {
    hide Build, Scan, Size;
    var b := pre + BuildAll(rs, crc) + post;
    if rs != [] {
      var s := Build(rs[0], crc);
      var pre' := pre + s;
      assert b == pre' + BuildAll(rs[1..], crc) + post;
      assert HoldsAt(b, |pre|, s) by {
        assert b[|pre|..|pre| + |s|] == s;
      }
      ScanStep(b, |pre|, rs[0], crc);
      ScanRecords(pre', rs[1..], post, crc);
      var x, y, z := Expected([rs[0]], |pre|), Expected(rs[1..], |pre'|), Scan(b, |pre| + TotalSize(rs), crc);
      assert x + (y + z) == (x + y) + z;
      assert Expected(rs, |pre|) == x + y;
    }
  }

  lemma {:induction false} ZeroField(s: seq<Byte>)
    requires forall i :: 0 <= i < |s| ==> s[i] == 0
    ensures FromLE(s) == 0
  {
    if s != [] {
      ZeroField(s[1..]);
    }
  }

  /** Nothing is found in zeros. */
  lemma {:induction false} ScanZeros(b: seq<Byte>, o: nat, crc: Checksum)
    requires forall i :: o <= i < |b| ==> b[i] == 0
    ensures Scan(b, o, crc) == []
    decreases |b| - o
  {
    if o + PREFIX_SIZE <= |b| {
      ZeroField(b[o..o + 4]);
      if AlignUp(o + 1) < |b| {
        ScanZeros(b, AlignUp(o + 1), crc);
      }
    }
  }

  /** Scanning contiguously built records followed by zeros finds exactly those records, in order, at
      their offsets. */
  lemma ScanFindsLog(rs: seq<Rec>, zeros: nat, crc: Checksum)
    requires forall r :: r in rs ==> Storable(r)
    ensures Scan(BuildAll(rs, crc) + Zeros(zeros), 0, crc) == Expected(rs, 0)
  {
    var b := BuildAll(rs, crc) + Zeros(zeros);
    ScanRecords([], rs, Zeros(zeros), crc);
    assert [] + BuildAll(rs, crc) + Zeros(zeros) == b;
    BuildAllSize(rs, crc);
    ScanZeros(b, TotalSize(rs), crc);
    assert Expected(rs, 0) + [] == Expected(rs, 0);
  }

  /** A record at offset o whose magic and length are intact but whose checksum is not. */
  ghost predicate Damaged(b: seq<Byte>, o: nat, crc: Checksum) {
    && o + PREFIX_SIZE <= |b| && MagicAt(b, o) == ENTRY_MAGIC
    && o + SizeFor(LengthAt(b, o)) <= |b| && !ChecksumOk(b, o, SizeFor(LengthAt(b, o)), crc)
  }

  /** The first damaged record ends the scan: exactly the records before it are recovered. */
  lemma ScanStopsAtDamage(rs: seq<Rec>, rest: seq<Byte>, crc: Checksum)
    requires forall r :: r in rs ==> Storable(r)
    requires Damaged(BuildAll(rs, crc) + rest, TotalSize(rs), crc)
    ensures Scan(BuildAll(rs, crc) + rest, 0, crc) == Expected(rs, 0)
  {
    hide Build, BuildAll, Expected, TotalSize;
    ScanRecords([], rs, rest, crc);
    assert [] + BuildAll(rs, crc) + rest == BuildAll(rs, crc) + rest;
    assert Expected(rs, 0) + [] == Expected(rs, 0);
  }

  // ---------------------------------------------------------------------------------------------
  // The replay
  // ---------------------------------------------------------------------------------------------

  /** The index entry made from a record; file id and offset are truncated to their bit fields. */
  function EntryOf(f: Found, fileId: nat, base: nat, tag: Key -> u8): IndexEntry {
    IndexEntry(f.key, fileId % 0x400, (base + f.offset) / PAGE_SIZE % 0x20_0000, f.tombstone, f.sequence,
               f.size / PAGE_SIZE % 0x1_0000, tag(f.key))
  }

  function ReplayOne(ix: IndexRule.Index, f: Found, fileId: nat, base: nat, tag: Key -> u8): IndexRule.Index {
    if f.tombstone then IndexRule.Remove(ix, f.key) else IndexRule.Upsert(ix, f.key, EntryOf(f, fileId, base, tag))
  }

  function Replay(ix: IndexRule.Index, fs: seq<Found>, fileId: nat, base: nat, tag: Key -> u8): IndexRule.Index {
    if fs == [] then ix else ReplayOne(Replay(ix, fs[..|fs| - 1], fileId, base, tag), fs[|fs| - 1], fileId, base, tag)
  }

  /** The last record of a key. */
  function LastOf(fs: seq<Found>, key: Key): Option<Found> {
    if fs == [] then None
    else if fs[|fs| - 1].key == key then Some(fs[|fs| - 1])
    else LastOf(fs[..|fs| - 1], key)
  }

  /** The records of each key get newer along the log, and are newer than what the index holds for it. */
  ghost predicate Ordered(ix: IndexRule.Index, fs: seq<Found>) {
    && (forall i, j :: 0 <= i < j < |fs| && fs[i].key == fs[j].key ==> SequenceNewer(fs[j].sequence, fs[i].sequence))
    && (forall i :: 0 <= i < |fs| && fs[i].key in ix ==> SequenceNewer(fs[i].sequence, ix[fs[i].key].sequence))
  }

  /** s is the sequence of some record of key, or of the index entry it had. */
  ghost predicate KnownSequence(ix: IndexRule.Index, fs: seq<Found>, key: Key, s: u32) {
    || (key in ix && ix[key].sequence == s)
    || exists i :: 0 <= i < |fs| && fs[i].key == key && fs[i].sequence == s
  }

  lemma {:induction false} ReplaySequences(ix: IndexRule.Index, fs: seq<Found>, fileId: nat, base: nat,
      tag: Key -> u8, key: Key)
    ensures var r := Replay(ix, fs, fileId, base, tag);
      key in r ==> KnownSequence(ix, fs, key, r[key].sequence)
  {
    if fs != [] {
      var front, f := fs[..|fs| - 1], fs[|fs| - 1];
      ReplaySequences(ix, front, fileId, base, tag, key);
      var r, r' := Replay(ix, front, fileId, base, tag), Replay(ix, fs, fileId, base, tag);
      if key in r' {
        if key == f.key && r'[key] == EntryOf(f, fileId, base, tag) {
          assert fs[|fs| - 1].key == key && fs[|fs| - 1].sequence == r'[key].sequence;
        } else {
          assert key in r && r[key].sequence == r'[key].sequence;
          if !(key in ix && ix[key].sequence == r[key].sequence) {
            var i :| 0 <= i < |front| && front[i].key == key && front[i].sequence == r[key].sequence;
            assert fs[i] == front[i];
          }
        }
      }
    }
  }

  /** Replaying an ordered log over an older index leaves, for every key, its last record: the put's entry,
      or nothing if it is a tombstone; keys without a record keep what they had. */
  lemma {:induction false} ReplayIsLastRecord(ix: IndexRule.Index, fs: seq<Found>, fileId: nat, base: nat,
      tag: Key -> u8, key: Key)
    requires Ordered(ix, fs)
    ensures IndexRule.Find(Replay(ix, fs, fileId, base, tag), key) ==
      match LastOf(fs, key)
      case None => IndexRule.Find(ix, key)
      case Some(f) => if f.tombstone then None else Some(EntryOf(f, fileId, base, tag))
  {
    if fs != [] {
      var front, f := fs[..|fs| - 1], fs[|fs| - 1];
      assert fs == front + [f];
      OrderedPrefix(ix, front, f);
      ReplayIsLastRecord(ix, front, fileId, base, tag, key);
      ReplaySequences(ix, front, fileId, base, tag, f.key);
      NewerThanKnown(ix, front, f, Replay(ix, front, fileId, base, tag));
    }
  }

  // ---------------------------------------------------------------------------------------------
  // Replaying twice
  // ---------------------------------------------------------------------------------------------

  predicate HasTombstone(fs: seq<Found>, key: Key) {
    exists i :: 0 <= i < |fs| && fs[i].key == key && fs[i].tombstone
  }

  /** No put of key in the log is newer than s. */
  ghost predicate NothingNewer(fs: seq<Found>, key: Key, s: u32) {
    forall i :: 0 <= i < |fs| && fs[i].key == key && !fs[i].tombstone ==> !SequenceNewer(fs[i].sequence, s)
  }

  lemma TombstoneOneMore(front: seq<Found>, f: Found, key: Key)
    ensures HasTombstone(front + [f], key) <==> HasTombstone(front, key) || (f.key == key && f.tombstone)
  {
    var fs := front + [f];
    if HasTombstone(front, key) {
      var i :| 0 <= i < |front| && front[i].key == key && front[i].tombstone;
      assert fs[i].key == key && fs[i].tombstone;
    }
    if f.key == key && f.tombstone {
      assert fs[|front|].key == key && fs[|front|].tombstone;
    }
  }

  /** Over an index entry no put of the key is newer than, replay only sets the deleted flag. */
  lemma {:induction false} ReplayOverNewer(jx: IndexRule.Index, fs: seq<Found>, fileId: nat, base: nat,
      tag: Key -> u8, key: Key)
    requires key in jx && NothingNewer(fs, key, jx[key].sequence)
    ensures var r := Replay(jx, fs, fileId, base, tag);
      key in r && r[key] == jx[key].(deleted := jx[key].deleted || HasTombstone(fs, key))
  {
    if fs != [] {
      var front, f := fs[..|fs| - 1], fs[|fs| - 1];
      assert fs == front + [f];
      assert forall i :: 0 <= i < |front| ==> front[i] == fs[i];
      ReplayOverNewer(jx, front, fileId, base, tag, key);
      TombstoneOneMore(front, f, key);
    }
  }

  /** A key no record of the log puts keeps its place; tombstones only set the flag. */
  lemma {:induction false} ReplayWithoutPuts(jx: IndexRule.Index, fs: seq<Found>, fileId: nat, base: nat,
      tag: Key -> u8, key: Key)
    requires forall i :: 0 <= i < |fs| && fs[i].key == key ==> fs[i].tombstone
    ensures IndexRule.Find(Replay(jx, fs, fileId, base, tag), key) ==
      if HasTombstone(fs, key) then None else IndexRule.Find(jx, key)
  {
    if fs != [] {
      var front, f := fs[..|fs| - 1], fs[|fs| - 1];
      assert fs == front + [f];
      assert forall i :: 0 <= i < |front| ==> front[i] == fs[i];
      ReplayWithoutPuts(jx, front, fileId, base, tag, key);
      TombstoneOneMore(front, f, key);
    }
  }

  predicate LastIsPut(fs: seq<Found>, key: Key) {
    LastOf(fs, key).Some? && !LastOf(fs, key).value.tombstone
  }

  lemma {:induction false} LastOfIsLast(fs: seq<Found>, key: Key)
    ensures match LastOf(fs, key)
      case None => forall i :: 0 <= i < |fs| ==> fs[i].key != key
      case Some(f) =>
        exists n :: 0 <= n < |fs| && fs[n] == f && f.key == key && (forall i :: n < i < |fs| ==> fs[i].key != key)
  {
    if fs != [] && fs[|fs| - 1].key != key {
      LastOfIsLast(fs[..|fs| - 1], key);
    }
  }

  /** Replaying the same ordered log once more over its own result keeps the answer for a key if and only if
      the log does not both delete the key and end with a put of it: tombstones ignore sequences, so the
      second pass deletes the later put, and the put, being no newer than itself, does not come back. */
  lemma SecondReplayKeepsKeyIff(ix: IndexRule.Index, fs: seq<Found>, fileId: nat, base: nat, tag: Key -> u8, key: Key)
    requires Ordered(ix, fs)
    ensures var once := Replay(ix, fs, fileId, base, tag);
      IndexRule.Find(Replay(once, fs, fileId, base, tag), key) == IndexRule.Find(once, key) <==>
      !(HasTombstone(fs, key) && LastIsPut(fs, key))
  {
    var once := Replay(ix, fs, fileId, base, tag);
    ReplayIsLastRecord(ix, fs, fileId, base, tag, key);
    if forall i :: 0 <= i < |fs| && fs[i].key == key ==> fs[i].tombstone {
      ReplayWithoutPuts(once, fs, fileId, base, tag, key);
      LastOfIsLast(fs, key);
    } else {
      ReplayHoldsNewest(ix, fs, fileId, base, tag, key);
      ReplayOverNewer(once, fs, fileId, base, tag, key);
    }
  }

  /** Once a put of the key has been replayed, the index holds the key with the sequence of its newest put. */
  lemma {:induction false} ReplayHoldsNewest(ix: IndexRule.Index, fs: seq<Found>, fileId: nat, base: nat,
      tag: Key -> u8, key: Key)
    requires Ordered(ix, fs) && exists i :: 0 <= i < |fs| && fs[i].key == key && !fs[i].tombstone
    ensures var r := Replay(ix, fs, fileId, base, tag);
      key in r && NothingNewer(fs, key, r[key].sequence)
  {
    hide SequenceNewer;
    var front, f := fs[..|fs| - 1], fs[|fs| - 1];
    assert fs == front + [f];
    OrderedPrefix(ix, front, f);
    var r := Replay(ix, front, fileId, base, tag);
    if f.key == key && !f.tombstone {
      ReplaySequences(ix, front, fileId, base, tag, key);
      NewerThanKnown(ix, front, f, r);
      NothingNewerThanLast(ix, fs);
    } else {
      var i :| 0 <= i < |fs| && fs[i].key == key && !fs[i].tombstone;
      assert front[i].key == key && !front[i].tombstone;
      ReplayHoldsNewest(ix, front, fileId, base, tag, key);
      assert forall i :: 0 <= i < |front| ==> front[i] == fs[i];
    }
  }

  lemma NothingNewerThanLast(ix: IndexRule.Index, fs: seq<Found>)
    requires Ordered(ix, fs) && fs != []
    ensures NothingNewer(fs, fs[|fs| - 1].key, fs[|fs| - 1].sequence)
  {
    hide SequenceNewer;
    var n := |fs| - 1;
    forall i | 0 <= i < |fs| && fs[i].key == fs[n].key && !fs[i].tombstone
      ensures !SequenceNewer(fs[i].sequence, fs[n].sequence)
    {
      if i < n {
        NewerIsAsymmetric(fs[n].sequence, fs[i].sequence);
      } else {
        NeverNewerThanItself(fs[n].sequence);
      }
    }
  }

  lemma NeverNewerThanItself(s: u32)
    ensures !SequenceNewer(s, s)
  {
  }

  lemma OrderedPrefix(ix: IndexRule.Index, front: seq<Found>, f: Found)
    requires Ordered(ix, front + [f])
    ensures Ordered(ix, front)
  {
    var fs := front + [f];
    assert forall i :: 0 <= i < |front| ==> front[i] == fs[i];
  }

  lemma NewerThanKnown(ix: IndexRule.Index, front: seq<Found>, f: Found, r: IndexRule.Index)
    requires Ordered(ix, front + [f]) && (f.key in r ==> KnownSequence(ix, front, f.key, r[f.key].sequence))
    ensures f.key in r ==> SequenceNewer(f.sequence, r[f.key].sequence)
  {
    var fs := front + [f];
    assert fs[|front|] == f;
    if f.key in r && !(f.key in ix && ix[f.key].sequence == r[f.key].sequence) {
      var i :| 0 <= i < |front| && front[i].key == f.key && front[i].sequence == r[f.key].sequence;
      assert fs[i] == front[i];
      assert SequenceNewer(fs[|front|].sequence, fs[i].sequence);
    }
  }

  // ---------------------------------------------------------------------------------------------
  // From the bytes of a log to the index
  // ---------------------------------------------------------------------------------------------

  /** The records of each key get newer along the log, and are newer than what the index holds for it. */
  ghost predicate OrderedLog(ix: IndexRule.Index, rs: seq<Rec>) {
    && (forall i, j :: 0 <= i < j < |rs| && rs[i].key == rs[j].key ==> SequenceNewer(rs[j].sequence, rs[i].sequence))
    && (forall i :: 0 <= i < |rs| && rs[i].key in ix ==> SequenceNewer(rs[i].sequence, ix[rs[i].key].sequence))
  }

  lemma {:induction false} ExpectedAt(rs: seq<Rec>, o: nat, i: nat)
    requires i < |rs|
    ensures |Expected(rs, o)| == |rs|
    ensures var f := Expected(rs, o)[i];
      f.key == rs[i].key && f.sequence == rs[i].sequence && f.tombstone == rs[i].tombstone
      && f.offset == o + TotalSize(rs[..i]) && f.size == Size(rs[i])
  {
    if i == 0 {
      if |rs| > 1 {
        ExpectedAt(rs[1..], o + Size(rs[0]), 0);
      }
    } else {
      ExpectedAt(rs[1..], o + Size(rs[0]), i - 1);
      assert rs[..i][1..] == rs[1..][..i - 1];
    }
  }

  lemma ExpectedOrdered(ix: IndexRule.Index, rs: seq<Rec>)
    requires OrderedLog(ix, rs)
    ensures Ordered(ix, Expected(rs, 0)) && |Expected(rs, 0)| == |rs|
  {
    hide SequenceNewer;
    if rs != [] {
      ExpectedAt(rs, 0, 0);
    }
    forall i | 0 <= i < |rs|
      ensures Expected(rs, 0)[i].key == rs[i].key && Expected(rs, 0)[i].sequence == rs[i].sequence
    {
      ExpectedAt(rs, 0, i);
    }
  }

  /** Recovery of a well-formed log is right for every key whose last record is number n: a put is found at
      the page where its record was written, a deleted key is not found. */
  lemma RecoverLog(ix: IndexRule.Index, rs: seq<Rec>, n: nat, zeros: nat, fileId: nat, base: nat, tag: Key -> u8,
      crc: Checksum)
    requires OrderedLog(ix, rs) && forall r :: r in rs ==> Storable(r)
    requires n < |rs| && forall i :: n < i < |rs| ==> rs[i].key != rs[n].key
    ensures var r := Replay(ix, Scan(BuildAll(rs, crc) + Zeros(zeros), 0, crc), fileId, base, tag);
      IndexRule.Find(r, rs[n].key) ==
        if rs[n].tombstone then None
        else Some(IndexEntry(rs[n].key, fileId % 0x400, (base + TotalSize(rs[..n])) / PAGE_SIZE % 0x20_0000, false,
                             rs[n].sequence, Size(rs[n]) / PAGE_SIZE % 0x1_0000, tag(rs[n].key)))
  {
    hide SequenceNewer, Scan, Build;
    var fs := Expected(rs, 0);
    ScanFindsLog(rs, zeros, crc);
    ExpectedOrdered(ix, rs);
    ReplayIsLastRecord(ix, fs, fileId, base, tag, rs[n].key);
    forall i | 0 <= i < |rs|
      ensures fs[i].key == rs[i].key
    {
      ExpectedAt(rs, 0, i);
    }
    ExpectedAt(rs, 0, n);
    LastOfAt(fs, rs[n].key, n);
  }

  lemma {:induction false} LastOfAt(fs: seq<Found>, key: Key, n: nat)
    requires n < |fs| && fs[n].key == key && forall i :: n < i < |fs| ==> fs[i].key != key
    ensures LastOf(fs, key) == Some(fs[n])
  {
    if n < |fs| - 1 {
      LastOfAt(fs[..|fs| - 1], key, n);
    }
  }

  // ---------------------------------------------------------------------------------------------
  // Writing on after a recovery
  // ---------------------------------------------------------------------------------------------

  /** The numerically largest of m and the sequences of fs. */
  function MaxSequence(m: u32, fs: seq<Found>): (s: u32)
    ensures s >= m && forall i :: 0 <= i < |fs| ==> fs[i].sequence <= s
  {
    if fs == [] then m
    else
      var s := MaxSequence(m, fs[..|fs| - 1]);
      if fs[|fs| - 1].sequence > s then fs[|fs| - 1].sequence else s
  }

  /** The global sequence after a recovery: one more than the largest number seen. */
  function Resumed(recovered: u32, checkpoint: u32): u32 {
    (Max(checkpoint, recovered) + 1) % TWO32
  }

  /** The number the first put afterwards gets. */
  function FirstAfter(recovered: u32, checkpoint: u32): u32 {
    (Resumed(recovered, checkpoint) + 1) % TWO32
  }

  /** x lies less than 2^31 - 2 below m, or they are the two ends of the numbers, which are next to each other. */
  predicate Near(m: int, x: u32) {
    m - x < HALF - 2 || m - x == TWO32 - 1
  }

  /** The first put is newer than a number seen exactly if that is near the largest one. */
  lemma FirstIsNewerIff(recovered: u32, checkpoint: u32, x: u32)
    requires x <= Max(checkpoint, recovered)
    ensures SequenceNewer(FirstAfter(recovered, checkpoint), x) <==> Near(Max(checkpoint, recovered), x)
  {
    var m := Max(checkpoint, recovered);
    assert FirstAfter(recovered, checkpoint) == (m + 2) % TWO32;
  }

  /**
   The first put after the recovery of a log is newer than every record of it if and only if every sequence in it is
   near the largest number seen. Those of a log that goes over the wrap of the numbers are not.
   */
  lemma FirstIsNewerThanAllIff(fs: seq<Found>, recovered: u32, checkpoint: u32)
    ensures var s := MaxSequence(recovered, fs);
      (forall i :: 0 <= i < |fs| ==> SequenceNewer(FirstAfter(s, checkpoint), fs[i].sequence)) <==>
      (forall i :: 0 <= i < |fs| ==> Near(Max(checkpoint, s), fs[i].sequence))
  {
    hide SequenceNewer, FirstAfter;
    var s := MaxSequence(recovered, fs);
    forall i | 0 <= i < |fs|
      ensures SequenceNewer(FirstAfter(s, checkpoint), fs[i].sequence) <==>
              Near(Max(checkpoint, s), fs[i].sequence)
    {
      FirstIsNewerIff(s, checkpoint, fs[i].sequence);
    }
  }

  /**
   The first put of a key after a recovery from a checkpointed index replaces what was recovered for it if and only if
   that is near the largest number seen.
   */
  lemma FirstPutIsTakenIff(ix: IndexRule.Index, fs: seq<Found>, fileId: nat, base: nat, tag: Key -> u8,
      checkpoint: u32, e: IndexEntry)
    requires forall k :: k in ix ==> ix[k].sequence <= checkpoint
    requires var r := Replay(ix, fs, fileId, base, tag);
      e.key in r && e != r[e.key] && e.sequence == FirstAfter(MaxSequence(0, fs), checkpoint)
    ensures var r := Replay(ix, fs, fileId, base, tag);
      IndexRule.Upsert(r, e.key, e) == r[e.key := e] <==>
      Near(Max(checkpoint, MaxSequence(0, fs)), r[e.key].sequence)
  {
    hide SequenceNewer, FirstAfter, Replay;
    ReplaySequences(ix, fs, fileId, base, tag, e.key);
    var r, s := Replay(ix, fs, fileId, base, tag), MaxSequence(0, fs);
    FirstIsNewerIff(s, checkpoint, r[e.key].sequence);
    assert r[e.key := e][e.key] == e;
  }

  /** Two records of a key, the second written after the numbers had wrapped. */
  function AcrossTheWrap(key: Key): seq<Found> {
    [Found(key, 0xFFFF_FFF0, false, 0, PAGE_SIZE), Found(key, 3, false, PAGE_SIZE, PAGE_SIZE)]
  }

  /** So after a log that goes over the wrap, acknowledged puts are ignored. */
  lemma PutAfterTheWrapIsIgnored(key: Key, fileId: nat, base: nat, tag: Key -> u8, e: IndexEntry)
    requires e.sequence == FirstAfter(MaxSequence(0, AcrossTheWrap(key)), 0)
    ensures Ordered(map[], AcrossTheWrap(key))
    ensures var r := Replay(map[], AcrossTheWrap(key), fileId, base, tag);
      key in r && IndexRule.Upsert(r, key, e) == r
  {
    ReplayAcrossTheWrap(key, fileId, base, tag);
    hide Replay, MaxSequence;
  }

  lemma ReplayAcrossTheWrap(key: Key, fileId: nat, base: nat, tag: Key -> u8)
    ensures var fs := AcrossTheWrap(key);
      && Replay(map[], fs, fileId, base, tag) == map[key := EntryOf(fs[1], fileId, base, tag)]
      && MaxSequence(0, fs) == 0xFFFF_FFF0
  {
    var first, second := AcrossTheWrap(key)[0], AcrossTheWrap(key)[1];
    assert [] + [first] == [first] && [first] + [second] == AcrossTheWrap(key);
    ReplayNothing(map[], fileId, base, tag, 0);
    ReplayOneMore(map[], [], first, fileId, base, tag, 0);
    ReplayOneMore(map[], [first], second, fileId, base, tag, 0);
    hide Replay, MaxSequence;
  }

  // ---------------------------------------------------------------------------------------------
  // The loader in place
  // ---------------------------------------------------------------------------------------------

  class IndexLoader {
    const crc: Checksum
    const tag: Key -> u8
    var index: IndexRule.Index
    var recoveredMaxSequence: u32

    constructor (index: IndexRule.Index, tag: Key -> u8, crc: Checksum)
      ensures this.index == index && recoveredMaxSequence == 0 && this.tag == tag && this.crc == crc
    {
      this.index, this.tag, this.crc, recoveredMaxSequence := index, tag, crc, 0;
    }

    /** Parses the records of a buffer and replays each at once. */
    method ParseAndRebuildEntries(buffer: seq<Byte>, fileId: nat, base: nat) returns (processed: nat)
      modifies this`index, this`recoveredMaxSequence
      ensures var fs := Scan(buffer, 0, crc);
        && processed == |fs|
        && index == Replay(old(index), fs, fileId, base, tag)
        && recoveredMaxSequence == MaxSequence(old(recoveredMaxSequence), fs)
    {
      hide *;
      ghost var done: seq<Found> := [];
      var o: nat := 0;
      processed := 0;
      ReplayNothing(index, fileId, base, tag, recoveredMaxSequence);
      while o + PREFIX_SIZE <= |buffer|
        invariant done + Scan(buffer, o, crc) == Scan(buffer, 0, crc)
        invariant processed == |done| && index == Replay(old(index), done, fileId, base, tag)
        invariant recoveredMaxSequence == MaxSequence(old(recoveredMaxSequence), done)
        decreases |buffer| - o
      {
        if MagicAt(buffer, o) != ENTRY_MAGIC {
          ScanMovesOn(buffer, o, crc);
          var next := AlignUp(o + 1);
          if next >= |buffer| {
            break;
          }
          o := next;
          continue;
        }
        var size := SizeFor(LengthAt(buffer, o));
        ScanTakes(buffer, o, crc);
        if o + size > |buffer| {
          break;
        }
        if !ChecksumOk(buffer, o, size, crc) {
          break;
        }
        var f := FoundAt(buffer, o);
        if f.sequence > recoveredMaxSequence {
          recoveredMaxSequence := f.sequence;
        }
        if f.tombstone {
          index := IndexRule.Remove(index, f.key);
        } else {
          index := IndexRule.Upsert(index, f.key, EntryOf(f, fileId, base, tag));
        }
        Regroup(done, f, Scan(buffer, o + size, crc));
        ReplayOneMore(old(index), done, f, fileId, base, tag, old(recoveredMaxSequence));
        done := done + [f];
        processed := processed + 1;
        o := o + size;
      }
      if o + PREFIX_SIZE > |buffer| {
        ScanEnds(buffer, o, crc);
      }
      assert done + [] == done;
    }

    /** The global sequence new writes continue from: one past everything seen, in the order the index uses exactly
        as far as what was seen lies near enough to the largest number. */
    method FinalizeRecovery(checkpointSequence: u32) returns (globalSequence: u32)
      ensures globalSequence == Resumed(recoveredMaxSequence, checkpointSequence)
      ensures var m := Max(checkpointSequence, recoveredMaxSequence);
        forall x: u32 :: x <= m ==> (SequenceNewer(globalSequence, x) <==> m - x < HALF - 1)
    {
      globalSequence := (Max(checkpointSequence, recoveredMaxSequence) + 1) % TWO32;
    }
  }

  lemma ReplayNothing(ix: IndexRule.Index, fileId: nat, base: nat, tag: Key -> u8, m: u32)
    ensures Replay(ix, [], fileId, base, tag) == ix && MaxSequence(m, []) == m
  {
  }

  lemma ReplayOneMore(ix: IndexRule.Index, fs: seq<Found>, f: Found, fileId: nat, base: nat, tag: Key -> u8, m: u32)
    ensures var r := Replay(ix, fs, fileId, base, tag);
      Replay(ix, fs + [f], fileId, base, tag) ==
        if f.tombstone then IndexRule.Remove(r, f.key) else IndexRule.Upsert(r, f.key, EntryOf(f, fileId, base, tag))
    ensures MaxSequence(m, fs + [f]) == if f.sequence > MaxSequence(m, fs) then f.sequence else MaxSequence(m, fs)
  {
    assert (fs + [f])[..|fs|] == fs;
  }

  lemma Regroup(a: seq<Found>, f: Found, b: seq<Found>)
    ensures a + ([f] + b) == (a + [f]) + b && (a + [f])[..|a|] == a
  {
  }
}
