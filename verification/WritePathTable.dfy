/** The write path over the probing table in place of the abstract index. */
module WritePathTable {
  // A completed write upserts its records and ignores the results, so the table may lose entries. As long as every
  // upsert is one that the table does cleanly, reads through the table are reads through the index.

  import opened Types
  import opened BufferRules
  import IndexRule
  import EntryFormat
  import RobinHood
  import opened WritePath
  import opened WritePathInvariant
  import opened WritePathRuns
  import opened WritePathReads
  import opened WritePathResults
  import BufferRuns
  import Sequence
  import WritePathLanding

  type Table = RobinHood.Table

  /** The table stands for the index. */
  ghost predicate Agrees(t: Table, hash: RobinHood.Hash, ix: IndexRule.Index) {
    RobinHood.Inv(t, hash) && RobinHood.Represents(t, ix) && forall k :: k in ix ==> ix[k].key == k
  }

  /** The table after a record has landed. */
  ghost function LandTable(t: Table, hash: RobinHood.Hash, l: Landing, ok: bool): (r: Table)
    requires t.WellFormed()
    ensures r.WellFormed()
  {
    if ok then RobinHood.Upsert(t, hash, l.entry.key, l.entry).table else t
  }

  /** The upsert succeeds, into a free slot or over the old entry of its key with no crowded slot before it. */
  ghost predicate LandsCleanly(t: Table, hash: RobinHood.Hash, l: Landing, ok: bool)
    requires t.WellFormed()
  {
    ok ==> RobinHood.Clean(t, hash, l.entry.key) && RobinHood.Upsert(t, hash, l.entry.key, l.entry).ok
  }

  lemma LandAgrees(t: Table, hash: RobinHood.Hash, s: State, l: Landing, ok: bool)
    requires WellFormed(s) && Agrees(t, hash, s.index) && LandsCleanly(t, hash, l, ok)
    requires l.entry.tag == RobinHood.Tag(hash, l.entry.key)
    ensures Agrees(LandTable(t, hash, l, ok), hash, Land(s, l, ok).index)
  {
    hide RobinHood.Inv, RobinHood.Represents, RobinHood.Upsert, RobinHood.Clean, RobinHood.Tag, WellFormed,
        Sequence.SequenceNewer;
    if ok {
      RobinHood.UpsertRefines(t, hash, s.index, l.entry);
      assert l.entry.(tag := RobinHood.Tag(hash, l.entry.key)) == l.entry;
    }
  }

  ghost function TableTo(t: Table, hash: RobinHood.Hash, ls: seq<Landing>, ok: bool, n: nat): (r: Table)
    requires t.WellFormed() && n <= |ls|
    ensures r.WellFormed()
  {
    if n == 0 then t else LandTable(TableTo(t, hash, ls, ok, n - 1), hash, ls[n - 1], ok)
  }

  ghost predicate CleanTo(t: Table, hash: RobinHood.Hash, ls: seq<Landing>, ok: bool, n: nat)
    requires t.WellFormed() && n <= |ls|
  {
    forall k :: 0 <= k < n ==> LandsCleanly(TableTo(t, hash, ls, ok, k), hash, ls[k], ok)
  }

  lemma {:induction false} LandToAgrees(t: Table, hash: RobinHood.Hash, s: State, ls: seq<Landing>, ok: bool, n: nat)
    requires t.WellFormed() && WellFormed(s) && n <= |ls| && Agrees(t, hash, s.index) && CleanTo(t, hash, ls, ok, n)
    requires forall k :: 0 <= k < |ls| ==> ls[k].entry.tag == RobinHood.Tag(hash, ls[k].entry.key)
    ensures Agrees(TableTo(t, hash, ls, ok, n), hash, LandTo(s, ls, ok, n).index)
    decreases n
  {
    hide Agrees, LandsCleanly, LandTable, Land, WellFormed, RobinHood.Tag;
    if n > 0 {
      LandToAgrees(t, hash, s, ls, ok, n - 1);
      LandAgrees(TableTo(t, hash, ls, ok, n - 1), hash, LandTo(s, ls, ok, n - 1), ls[n - 1], ok);
    }
  }

  // ---------------------------------------------------------------------------------------------
  // Events and runs
  // ---------------------------------------------------------------------------------------------

  ghost function StepTable(t: Table, hash: RobinHood.Hash, s: State, cfg: Config, e: Event): (r: Table)
    requires t.WellFormed() && WellFormed(s) && Enabled(s, cfg, e)
    ensures r.WellFormed()
  {
    if e.Completing? then
      var ls := LandingsOf(s, s.ios[e.i]);
      TableTo(t, hash, ls, e.ok, |ls|)
    else t
  }

  ghost predicate StepIsClean(t: Table, hash: RobinHood.Hash, s: State, cfg: Config, e: Event)
    requires t.WellFormed() && WellFormed(s) && Enabled(s, cfg, e)
  {
    e.Completing? ==> var ls := LandingsOf(s, s.ios[e.i]); CleanTo(t, hash, ls, e.ok, |ls|)
  }

  /** The tags of the engine are those of the table's hash. */
  ghost predicate SameTags(cfg: Config, hash: RobinHood.Hash) {
    forall key :: cfg.tagOf(key) == RobinHood.Tag(hash, key)
  }

  lemma LandingTags(s: State, cfg: Config, i: nat)
    requires Inv(s, cfg) && i < |s.ios|
    ensures var ls := LandingsOf(s, s.ios[i]);
      forall k :: 0 <= k < |ls| ==> ls[k].entry.tag == cfg.tagOf(ls[k].entry.key)
  {
    hide ManagerInv;
    WritePathLanding.AddressedIo(s, cfg, i);
    if s.ios[i].BufferIo? {
      BufferTags(s, cfg, s.ios[i].buffer);
    }
  }

  lemma BufferTags(s: State, cfg: Config, b: nat)
    requires BuffersOk(s.m.buffers, s.contents, s.pend, s.requests, cfg) && b < |s.pend|
    ensures forall k :: 0 <= k < |s.pend[b]| ==> s.pend[b][k].tag == cfg.tagOf(s.pend[b][k].key)
  {
    assert Tiled(s.m.buffers[b].used, s.contents[b], s.pend[b], s.requests, cfg);
    forall k | 0 <= k < |s.pend[b]|
      ensures s.pend[b][k].tag == cfg.tagOf(s.pend[b][k].key)
    {
      assert PendingOk(s.pend[b][k], s.contents[b], s.requests, cfg);
    }
  }

  lemma PutKeepsIndex(s: State, cfg: Config, key: Key, value: seq<u8>, memory: bool, dma: bool)
    requires WellFormed(s)
    ensures PutBuffered(s, cfg, key, value, memory, dma).index == s.index
  {
    hide BufferRuns.ReserveWithBackpressure;
    ReserveShape(s.m, EntryFormat.SizeFor(|value|), memory);
  }

  /** Only a completed write changes the index. */
  lemma OtherStepKeepsIndex(s: State, cfg: Config, e: Event)
    requires WellFormed(s) && Enabled(s, cfg, e) && !e.Completing?
    ensures Step(s, cfg, e).index == s.index
  {
    hide PutBuffered, SubmitTo, Drain, AllocationDone, AllocationFailed;
    match e
    case Putting(key, value, memory, dma) => PutKeepsIndex(s, cfg, key, value, memory, dma);
    case Flushing =>
    case SubmittingPending(allocs) =>
      var (m1, batch) := TakePending(s.m, MAX_BATCH);
      SubmitToQuiet(s.(m := m1), cfg, batch, allocs, |batch|);
    case ProcessingWaitQueue => DrainQuiet(s, cfg);
    case Allocated(ok) => AllocatedQuiet(s, ok);
  }

  lemma CompleteIndex(s: State, cfg: Config, i: nat, ok: bool, junk: Disk)
    requires WellFormed(s) && i < |s.ios| && (ok ==> CanSucceed(s, cfg, i))
    ensures var ls := LandingsOf(s, s.ios[i]);
      && Detach(s, cfg, i, ok, junk).index == s.index
      && Complete(s, cfg, i, ok, junk).index == LandTo(Detach(s, cfg, i, ok, junk), ls, ok, |ls|).index
  {
    hide LandTo, LandingsOf, WriteTo, Scribble, CanSucceed;
  }

  lemma CompleteAgrees(t: Table, hash: RobinHood.Hash, s: State, cfg: Config, i: nat, ok: bool, junk: Disk)
    requires Inv(s, cfg) && i < |s.ios| && (ok ==> CanSucceed(s, cfg, i)) && SameTags(cfg, hash)
    requires var ls := LandingsOf(s, s.ios[i]);
      t.WellFormed() && Agrees(t, hash, s.index) && CleanTo(t, hash, ls, ok, |ls|)
    ensures var ls := LandingsOf(s, s.ios[i]);
      Agrees(TableTo(t, hash, ls, ok, |ls|), hash, Complete(s, cfg, i, ok, junk).index)
  {
    var ls := LandingsOf(s, s.ios[i]);
    LandingTags(s, cfg, i);
    CompleteIndex(s, cfg, i, ok, junk);
    hide Inv, Agrees, CleanTo, TableTo, LandTo, LandingsOf, Detach, Complete, RobinHood.Tag, CanSucceed, WellFormed;
    LandToAgrees(t, hash, Detach(s, cfg, i, ok, junk), ls, ok, |ls|);
  }

  lemma StepAgrees(t: Table, hash: RobinHood.Hash, s: State, cfg: Config, e: Event)
    requires Inv(s, cfg) && Enabled(s, cfg, e) && SameTags(cfg, hash)
    requires Agrees(t, hash, s.index) && t.WellFormed() && StepIsClean(t, hash, s, cfg, e)
    ensures Agrees(StepTable(t, hash, s, cfg, e), hash, Step(s, cfg, e).index)
  {
    if e.Completing? {
      CompleteAgrees(t, hash, s, cfg, e.i, e.ok, e.junk);
      hide Inv, Agrees, CleanTo, TableTo, Complete, LandingsOf, CanSucceed;
    } else {
      hide Inv, Agrees, Step;
      OtherStepKeepsIndex(s, cfg, e);
    }
  }

  /** No upsert of the run loses an entry: each is clean when its write completes. */
  ghost predicate CleanRun(t: Table, hash: RobinHood.Hash, s: State, cfg: Config, es: seq<Event>)
    requires t.WellFormed() && WellFormed(s) && Runs(s, cfg, es)
    decreases |es|
  {
    es == [] || (StepIsClean(t, hash, s, cfg, es[0])
                 && CleanRun(StepTable(t, hash, s, cfg, es[0]), hash, Step(s, cfg, es[0]), cfg, es[1..]))
  }

  ghost function TableAfter(t: Table, hash: RobinHood.Hash, s: State, cfg: Config, es: seq<Event>): (r: Table)
    requires t.WellFormed() && WellFormed(s) && Runs(s, cfg, es)
    ensures r.WellFormed()
    decreases |es|
  {
    if es == [] then t
    else TableAfter(StepTable(t, hash, s, cfg, es[0]), hash, Step(s, cfg, es[0]), cfg, es[1..])
  }

  lemma {:induction false} RunAgrees(t: Table, hash: RobinHood.Hash, s: State, cfg: Config, es: seq<Event>)
    requires Inv(s, cfg) && Runs(s, cfg, es) && SafeRun(s, cfg, es) && SameTags(cfg, hash)
    requires Agrees(t, hash, s.index) && t.WellFormed() && CleanRun(t, hash, s, cfg, es)
    ensures Agrees(TableAfter(t, hash, s, cfg, es), hash, After(s, cfg, es).index)
    decreases |es|
  {
    hide ManagerInv, Addressed, WellFormed, Step, Enabled, Safe, Agrees, StepIsClean, StepTable, SameTags;
    if es != [] {
      StepKeepsInv(s, cfg, es[0]);
      StepAgrees(t, hash, s, cfg, es[0]);
      RunAgrees(StepTable(t, hash, s, cfg, es[0]), hash, Step(s, cfg, es[0]), cfg, es[1..]);
    }
  }

  /**
   The whole path through the table: after any safe run of an engine just set up, of which every upsert is clean, a read
   that looks its key up in the table finds the record of the last accepted put of the key that was acknowledged, and
   finds nothing exactly if there is none.
   */
  lemma ReadsThroughTable(t: Table, hash: RobinHood.Hash, cfg: Config, bufferSize: nat, count: nat, sequence: u32,
      es: seq<Event>, key: Key, room: nat)
    requires 0 < count <= MAX_BUFFERS && SameTags(cfg, hash) && Agrees(t, hash, map[]) && t.WellFormed()
    requires var s := Start(bufferSize, count, sequence);
      Runs(s, cfg, es) && SafeRun(s, cfg, es) && CleanRun(t, hash, s, cfg, es)
    requires var r := After(Start(bufferSize, count, sequence), cfg, es);
      |r.requests| < Sequence.HALF && WithinLimits(r, cfg)
    ensures var s := Start(bufferSize, count, sequence);
      var r := After(s, cfg, es);
      var got := GetFrom(RobinHood.Find(TableAfter(t, hash, s, cfg, es), hash, key), r, room);
      && (got == NotFound <==> forall j: nat :: !LastAcknowledged(r, key, j))
      && forall j: nat :: LastAcknowledged(r, key, j) ==> got == Reading(r.requests[j], room)
  {
    var s := Start(bufferSize, count, sequence);
    StartOk(cfg, bufferSize, count, sequence);
    StartIndex(bufferSize, count, sequence);
    hide *;
    RunAgrees(t, hash, s, cfg, es);
    var r := After(s, cfg, es);
    FindAgrees(TableAfter(t, hash, s, cfg, es), hash, r.index, key);
    ReadsAfterRun(cfg, bufferSize, count, sequence, es, key, room);
    GetIs(r, key, room);
  }

  lemma StartIndex(bufferSize: nat, count: nat, sequence: u32)
    requires 0 < count <= MAX_BUFFERS
    ensures Start(bufferSize, count, sequence).index == map[]
  {
  }

  lemma FindAgrees(t: Table, hash: RobinHood.Hash, ix: IndexRule.Index, key: Key)
    requires Agrees(t, hash, ix) && t.WellFormed()
    ensures RobinHood.Find(t, hash, key) == IndexRule.Find(ix, key)
  {
    hide RobinHood.Inv, RobinHood.Represents, RobinHood.Find;
    RobinHood.FindRefines(t, hash, ix, key);
  }

  lemma GetIs(s: State, key: Key, room: nat)
    ensures Get(s, key, room) == GetFrom(IndexRule.Find(s.index, key), s, room)
  {
  }
}
