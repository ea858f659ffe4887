/** A compaction always comes to an end, and what its end means. */
module CompactionProgress {
  import opened Types
  import opened IndexRule
  import opened CompactionModel
  import opened CompactionSafety

  // ---------------------------------------------------------------------------------------------
  // Live entries into the source that no pending migration has claimed
  // ---------------------------------------------------------------------------------------------

  ghost predicate PendingFrom(ms: seq<Migrated>, k: Key, p: nat) {
    exists i :: 0 <= i < |ms| && ms[i].key == k && ms[i].oldOffset == p
  }

  ghost function Unclaimed(ix: Index, ms: seq<Migrated>, src: nat): set<Key> {
    set k | k in ix && PointsInto(ix, k, src) && !PendingFrom(ms, k, ix[k].offsetIndex)
  }

  lemma SubsetSize(a: set<Key>, b: set<Key>)
    requires a <= b
    ensures |a| <= |b|
  {
    assert b == a + (b - a);
  }

  lemma PushClaims(t: Task, ix: Index, p: nat)
    requires p in t.readBuffer && ShouldMigrate(t, ix, p)
    requires forall i :: 0 <= i < |t.migrated| ==> t.migrated[i].oldOffset < p
    ensures |Unclaimed(ix, Push(t, p).migrated, t.src)| + 1 <= |Unclaimed(ix, t.migrated, t.src)|
  {
    var k := t.readBuffer[p].key;
    var ms, ms' := t.migrated, Push(t, p).migrated;
    assert ms'[|ms|].key == k && ms'[|ms|].oldOffset == p;
    forall x | x in Unclaimed(ix, ms', t.src)
      ensures x in Unclaimed(ix, ms, t.src) - {k}
    {
      if PendingFrom(ms, x, ix[x].offsetIndex) {
        var i :| 0 <= i < |ms| && ms[i].key == x && ms[i].oldOffset == ix[x].offsetIndex;
        assert ms'[i] == ms[i];
      }
    }
    assert k in Unclaimed(ix, ms, t.src);
    SubsetSize(Unclaimed(ix, ms', t.src), Unclaimed(ix, ms, t.src) - {k});
  }

  lemma MigrationClaims(t: Task, ix: Index, ms: seq<Migrated>)
    requires t.src != t.dst && forall i :: 0 <= i < |ms| ==> ms[i].oldFile == t.src && ms[i].newFile == t.dst
    ensures |Unclaimed(MigrateAll(ix, ms), [], t.src)| <= |Unclaimed(ix, ms, t.src)|
  {
    var ix' := MigrateAll(ix, ms);
    forall x | x in Unclaimed(ix', [], t.src)
      ensures x in Unclaimed(ix, ms, t.src)
    {
      MigrateAllRefs(t, ix, ms, x);
    }
    SubsetSize(Unclaimed(ix', [], t.src), Unclaimed(ix, ms, t.src));
  }

  lemma UserClaims(t: Task, w: World, e: Event)
    requires Allowed(t, w, e) && (e.UserPut? || e.UserRemove?)
    ensures |Unclaimed(ApplyUser(w, e).index, t.migrated, t.src)| <= |Unclaimed(w.index, t.migrated, t.src)|
  {
    SubsetSize(Unclaimed(ApplyUser(w, e).index, t.migrated, t.src), Unclaimed(w.index, t.migrated, t.src));
  }

  // ---------------------------------------------------------------------------------------------
  // The order of the phases
  // ---------------------------------------------------------------------------------------------

  predicate Forward(p: Phase) {
    !p.Rollback? && !p.RollbackMarkSealed? && !p.Failed? && !p.Done?
  }

  /** The phase the task is in or will resume. */
  function Target(t: Task): Phase {
    if t.phase == RetryWait then t.retryTarget else t.phase
  }

  function Order(p: Phase): nat {
    match p
    case Init => 8
    case MarkCompacting => 7
    case ReadChunk => 6
    case ProcessEntries => 5
    case WriteChunk => 4
    case UpdateIndices => 3
    case Finalize => 2
    case MarkDeleted => 1
    case _ => 0
  }

  function Detail(t: Task): nat {
    3 * Order(Target(t)) + (if t.phase == RetryWait then 2 else if t.ioPending then 0 else 1)
  }

  function PagesLeft(t: Task): nat {
    if t.current >= t.srcEnd then 0 else t.srcEnd - t.current
  }

  function Flag(b: bool): nat {
    if b then 1 else 0
  }

  function Budget(t: Task): nat {
    if t.retryCount >= MAX_RETRY then 0 else MAX_RETRY - t.retryCount
  }

  /** The digits below the unclaimed entries: pages left, buffer in use, write still to come, retries left, phase. */
  function Low(t: Task): nat {
    512 * PagesLeft(t) + 256 * Flag(t.used > 0) + 128 * Flag(t.phase != UpdateIndices) + 32 * Budget(t) + Detail(t)
  }

  /** One more than the largest value Low can take. */
  function Radix(t: Task): nat {
    512 * (t.srcEnd + 1)
  }

  /** The steps and completions left once the rollback has begun. */
  function Tail(t: Task): (n: nat)
    ensures n <= 4
  {
    match t.phase
    case Rollback => if t.ioPending then 3 else 4
    case RollbackMarkSealed => if t.ioPending then 1 else 2
    case _ => 0
  }

  /** An upper bound for the number of steps and completions still to come. */
  ghost function Rank(t: Task, w: World): nat {
    if Forward(t.phase) then |Unclaimed(w.index, t.migrated, t.src)| * Radix(t) + Low(t) + 5 else Tail(t)
  }

  lemma LowBound(t: Task)
    ensures Low(t) < Radix(t)
  {
  }

  lemma {:induction false} LessTimes(b: nat, a: nat, r: nat)
    requires b <= a
    ensures b * r <= a * r
    ensures b < a ==> b * r + r <= a * r
  {
    if b < a {
      LessTimes(b, a - 1, r);
      assert a * r == (a - 1) * r + r;
    }
  }

  lemma Weighted(a: nat, b: nat, r: nat, low: nat, low': nat)
    requires (b < a && low' < r) || (b <= a && low' < low)
    ensures b * r + low' < a * r + low
  {
    LessTimes(b, a, r);
  }

  /** Fewer unclaimed entries, or a smaller lower part with no more of them, lower the rank. */
  lemma RankDecreases(t: Task, w: World, t': Task, w': World)
    requires Forward(t.phase) && t'.srcEnd == t.srcEnd
    requires var a, b := |Unclaimed(w.index, t.migrated, t.src)|, |Unclaimed(w'.index, t'.migrated, t'.src)|;
      b < a || (b <= a && Low(t') < Low(t))
    ensures Rank(t', w') < Rank(t, w)
  {
    var a, b := |Unclaimed(w.index, t.migrated, t.src)|, |Unclaimed(w'.index, t'.migrated, t'.src)|;
    LowBound(t');
    assert Radix(t') == Radix(t);
    hide Unclaimed, Low, Radix, Tail, Forward;
    Weighted(a, b, Radix(t), Low(t), Low(t'));
  }

  // ---------------------------------------------------------------------------------------------
  // What the task keeps about its own progress
  // ---------------------------------------------------------------------------------------------

  ghost predicate Steady(t: Task) {
    var target := Target(t);
    && (Forward(t.phase) ==> (t.used == 0 <==> t.migrated == []))
    && (Forward(t.phase) ==> t.retryCount < MAX_RETRY)
    && (t.phase.RetryWait? ==> Retryable(t.retryTarget))
    && (t.ioPending ==> DoesIo(t.phase))
    && (target.WriteChunk? || target.UpdateIndices? ==> t.used > 0)
    && (target.Finalize? || target.MarkDeleted? || target.Done? ==> t.used == 0 && t.current >= t.srcEnd)
    && (target.Init? || target.MarkCompacting? ==> t.used == 0)
    && (t.phase.ReadChunk? && t.ioPending ==> t.current < t.srcEnd)
    && (t.phase.ProcessEntries? ==> 0 < t.bytesRead <= CHUNK_PAGES && t.current + t.bytesRead <= t.srcEnd)
    && (target.ReadChunk? || target.ProcessEntries? ==>
         forall i :: 0 <= i < |t.migrated| ==> t.migrated[i].oldOffset < t.current)
    && (t.phase.Done? ==> t.migrated == [])
    && t.used <= CHUNK_PAGES
  }

  /** A step or completion that the task is waiting for. */
  predicate Progress(t: Task, e: Event) {
    || (e.Complete? && t.ioPending)
    || (e.Step? && !t.ioPending && t.phase != Failed && t.phase != Done && (t.phase == RetryWait ==> e.elapsed))
  }

  /** The chunk loop claims entries, or finishes the chunk, or stops with a full buffer. */
  lemma {:induction false} ProcessProgress(t: Task, ix: Index, p: nat)
    requires t.phase == ProcessEntries && !t.ioPending && t.used <= CHUNK_PAGES
    requires 0 < t.bytesRead <= CHUNK_PAGES && t.current <= p <= t.current + t.bytesRead <= t.srcEnd
    requires t.used == 0 <==> t.migrated == []
    requires forall i :: 0 <= i < |t.migrated| ==> t.migrated[i].oldOffset < p
    ensures var t' := Process(t, ix, p);
      && t'.srcEnd == t.srcEnd && t'.retryCount == t.retryCount && !t'.ioPending && t'.retryTarget == t.retryTarget
      && t'.dest == t.dest && t'.bytesRead == t.bytesRead && t'.used <= CHUNK_PAGES
      && (t'.used == 0 <==> t'.migrated == [])
      && (|Unclaimed(ix, t'.migrated, t.src)| < |Unclaimed(ix, t.migrated, t.src)| ||
           (t'.migrated == t.migrated && t'.used == t.used))
      && |Unclaimed(ix, t'.migrated, t.src)| <= |Unclaimed(ix, t.migrated, t.src)|
      && ((t'.phase == ReadChunk && t'.current == t.current + t.bytesRead &&
             forall i :: 0 <= i < |t'.migrated| ==> t'.migrated[i].oldOffset < t'.current)
          || (t'.phase == WriteChunk && t'.current == t.current && t'.used > 0))
    decreases t.current + t.bytesRead - p
  {
    if p >= t.current + t.bytesRead {
    } else if !ValidAt(t, p) {
      ProcessProgress(t, ix, p + 1);
    } else if !ShouldMigrate(t, ix, p) {
      ProcessProgress(t, ix, p + t.readBuffer[p].pages);
    } else if t.used + t.readBuffer[p].pages <= CHUNK_PAGES {
      PushClaims(t, ix, p);
      ProcessProgress(Push(t, p), ix, p + t.readBuffer[p].pages);
    }
  }

  lemma ProcessDecreases(t: Task, w: World)
    requires Steady(t) && t.phase == ProcessEntries && !t.ioPending
    ensures var t' := Process(t, w.index, t.current); Steady(t') && Rank(t', w) < Rank(t, w)
  {
    var t' := Process(t, w.index, t.current);
    ProcessProgress(t, w.index, t.current);
    RankDecreases(t, w, t', w);
  }

  lemma UpdateDecreases(t: Task, w: World)
    requires Inv(t, w) && Steady(t) && t.phase == UpdateIndices
    ensures var (t', w') := StepTask(t, w, 0, false); Steady(t') && Rank(t', w') < Rank(t, w)
  {
    var (t', w') := StepTask(t, w, 0, false);
    MigrationClaims(t, w.index, t.migrated);
    RankDecreases(t, w, t', w');
  }

  lemma {:induction false} SkipIsForward(t: Task, p: nat)
    ensures p <= SkipInvalid(t, p)
    decreases t.srcEnd - p
  {
    if !(t.validPages.None? || p >= t.srcEnd || p in t.validPages.value) {
      SkipIsForward(t, p + 1);
    }
  }

  /** t' is behind t: no entries claimed in between, and a smaller lower part of the rank. */
  ghost predicate Lowered(t: Task, t': Task) {
    Steady(t') && (Forward(t'.phase) ==> Low(t') < Low(t) && t'.migrated == t.migrated && t'.srcEnd == t.srcEnd)
  }

  lemma ReadStepLowers(t: Task)
    requires Steady(t) && t.phase == ReadChunk && !t.ioPending
    ensures Lowered(t, StartRead(t))
  {
    SkipIsForward(t, t.current);
    hide SkipInvalid;
  }

  lemma RetryStepLowers(t: Task)
    requires Steady(t) && t.phase == RetryWait
    ensures Lowered(t, t.(phase := t.retryTarget))
  {
  }

  lemma OtherStepLowers(t: Task, ix: Index, error: int, elapsed: bool)
    requires Steady(t) && Progress(t, Step(error, elapsed)) && !t.phase.ProcessEntries? && !t.phase.UpdateIndices?
    ensures Lowered(t, NextTask(t, ix, error, elapsed))
  {
    if t.phase == ReadChunk {
      ReadStepLowers(t);
    } else if t.phase == RetryWait {
      RetryStepLowers(t);
    } else {
      SimpleStepLowers(t, ix, error, elapsed);
    }
  }

  lemma SimpleStepLowers(t: Task, ix: Index, error: int, elapsed: bool)
    requires Steady(t) && Progress(t, Step(error, elapsed)) && !t.phase.ProcessEntries? && !t.phase.UpdateIndices?
    requires !t.phase.ReadChunk? && !t.phase.RetryWait?
    ensures Lowered(t, NextTask(t, ix, error, elapsed))
  {
  }

  lemma LoweredDecreases(t: Task, w: World, t': Task, w': World)
    requires Forward(t.phase) && Lowered(t, t') && w'.index == w.index && t'.src == t.src
    ensures Rank(t', w') < Rank(t, w)
  {
    hide Steady, Low, Unclaimed, Radix;
    if Forward(t'.phase) {
      RankDecreases(t, w, t', w');
    }
  }

  lemma StepDecreases(t: Task, w: World, error: int, elapsed: bool)
    requires Inv(t, w) && Steady(t) && Progress(t, Step(error, elapsed))
    ensures var (t', w') := StepTask(t, w, error, elapsed); Steady(t') && Rank(t', w') < Rank(t, w)
  {
    hide Inv, Steady, Rank;
    if t.phase == ProcessEntries {
      ProcessDecreases(t, w);
    } else if t.phase == UpdateIndices {
      UpdateDecreases(t, w);
    } else {
      OtherStepLowers(t, w.index, error, elapsed);
      OtherStepDecreases(t, w, error, elapsed);
    }
  }

  lemma OtherStepDecreases(t: Task, w: World, error: int, elapsed: bool)
    requires Lowered(t, NextTask(t, w.index, error, elapsed)) && Progress(t, Step(error, elapsed))
    requires !t.phase.ProcessEntries? && !t.phase.UpdateIndices?
    ensures Rank(NextTask(t, w.index, error, elapsed), NextWorld(t, w)) < Rank(t, w)
  {
    if Forward(t.phase) {
      LoweredDecreases(t, w, NextTask(t, w.index, error, elapsed), NextWorld(t, w));
    }
  }

  lemma ErrorLowers(t: Task, target: Phase, code: int)
    requires Steady(t) && t.ioPending && t.phase == target && Retryable(target)
    ensures Lowered(t, HandleIoError(t.(ioPending := false), target, code))
  {
  }

  lemma SuccessLowers(t: Task, source: map<nat, Record>)
    requires Steady(t) && t.ioPending
    ensures Lowered(t, CompletedTask(t, source, 0))
  {
    hide Chunk;
  }

  /** A completion never leads back from the rollback or the end to the forward phases. */
  lemma CompletionLowers(t: Task, source: map<nat, Record>, status: int)
    requires Steady(t) && t.ioPending
    ensures Lowered(t, CompletedTask(t, source, status))
    ensures !Forward(t.phase) ==> Tail(CompletedTask(t, source, status)) < Tail(t)
    ensures Forward(CompletedTask(t, source, status).phase) ==> Forward(t.phase)
  {
    if status == 0 || t.phase == Rollback || t.phase == RollbackMarkSealed {
      SuccessLowers(t, source);
    } else {
      ErrorLowers(t, t.phase, status);
    }
  }

  lemma CompletionDecreases(t: Task, w: World, status: int, garbage: map<nat, Record>)
    requires t.src in w.files && t.dst in w.files && Steady(t) && t.ioPending
    ensures var (t', w') := CompleteIo(t, w, status, garbage); Steady(t') && Rank(t', w') < Rank(t, w)
  {
    CompletionLowers(t, w.files[t.src], status);
    hide Steady, CompletedTask, CompletedWorld;
    if Forward(t.phase) {
      LoweredDecreases(t, w, CompletedTask(t, w.files[t.src], status), CompletedWorld(t, w, status, garbage));
    }
  }

  lemma UserNeverRaisesRank(t: Task, w: World, e: Event)
    requires Allowed(t, w, e) && (e.UserPut? || e.UserRemove?)
    ensures Rank(t, ApplyUser(w, e)) <= Rank(t, w)
  {
    UserClaims(t, w, e);
    LessTimes(|Unclaimed(ApplyUser(w, e).index, t.migrated, t.src)|, |Unclaimed(w.index, t.migrated, t.src)|, Radix(t));
  }

  /** A step before its time, or a completion with nothing pending, changes nothing. */
  lemma IdleEvent(t: Task, w: World, e: Event)
    requires t.src in w.files && t.dst in w.files && (e.Step? || e.Complete?) && !Progress(t, e)
    ensures Apply(t, w, e) == (t, w)
  {
  }

  lemma EventRank(t: Task, w: World, e: Event)
    requires Inv(t, w) && Steady(t) && Allowed(t, w, e)
    ensures t.src in w.files && t.dst in w.files
    ensures var (t', w') := Apply(t, w, e);
      Steady(t') && Rank(t', w') + (if Progress(t, e) then 1 else 0) <= Rank(t, w)
  {
    hide Steady, Rank;
    if e.UserPut? || e.UserRemove? {
      UserNeverRaisesRank(t, w, e);
    } else if !Progress(t, e) {
      IdleEvent(t, w, e);
    } else if e.Step? {
      StepDecreases(t, w, e.error, e.elapsed);
    } else {
      CompletionDecreases(t, w, e.status, e.garbage);
    }
  }

  /** How many events of a run are steps or completions the task waits for. */
  ghost function ProgressCount(t: Task, w: World, es: seq<Event>): nat
    requires t.src in w.files && t.dst in w.files
    decreases |es|
  {
    if es == [] then 0
    else
      var (t1, w1) := Apply(t, w, es[0]);
      (if Progress(t, es[0]) then 1 else 0) + ProgressCount(t1, w1, es[1..])
  }

  /** No run holds more of them than the rank of its start, whatever is interleaved. */
  lemma {:induction false} ProgressIsBounded(t: Task, w: World, es: seq<Event>)
    requires Inv(t, w) && Steady(t) && AllowedRun(t, w, es)
    ensures ProgressCount(t, w, es) <= Rank(t, w)
    decreases |es|
  {
    if es != [] {
      hide Steady, Rank, Progress;
      EventRank(t, w, es[0]);
      assert Inv(Apply(t, w, es[0]).0, Apply(t, w, es[0]).1) by {
        TwinOfItself(t, w);
        EventKeepsTwin(t, w, w, es[0]);
      }
      hide Inv, Apply;
      var (t1, w1) := Apply(t, w, es[0]);
      ProgressIsBounded(t1, w1, es[1..]);
    }
  }

  // ---------------------------------------------------------------------------------------------
  // Runs without end
  // ---------------------------------------------------------------------------------------------

  predicate Over(t: Task) {
    t.phase == Failed || t.phase == Done
  }

  /** Where a run without end has got to after its first n events. */
  function Reached(t: Task, w: World, run: nat -> Event, n: nat): (r: (Task, World))
    requires t.src in w.files && t.dst in w.files
    ensures r.0.src == t.src && r.0.dst == t.dst && r.1.files.Keys == w.files.Keys
    decreases n
  {
    if n == 0 then (t, w) else
      var (t1, w1) := Reached(t, w, run, n - 1);
      Apply(t1, w1, run(n - 1))
  }

  ghost predicate AllowedForever(t: Task, w: World, run: nat -> Event)
    requires t.src in w.files && t.dst in w.files
  {
    forall n: nat :: Allowed(Reached(t, w, run, n).0, Reached(t, w, run, n).1, run(n))
  }

  ghost predicate CompletesAfter(run: nat -> Event, n: nat) {
    exists m: nat :: n <= m && run(m).Complete?
  }

  ghost predicate StepsAfter(run: nat -> Event, n: nat) {
    exists m: nat :: n <= m && run(m).Step? && run(m).elapsed
  }

  /** Every pending IO completes sooner or later, with any status, and there is always a step with the delay over. */
  ghost predicate Serviced(t: Task, w: World, run: nat -> Event)
    requires t.src in w.files && t.dst in w.files
  {
    && (forall n: nat :: Reached(t, w, run, n).0.ioPending ==> CompletesAfter(run, n))
    && (forall n: nat :: StepsAfter(run, n))
  }

  /** What every state of a run satisfies. */
  ghost predicate Going(t: Task, w: World) {
    Inv(t, w) && Steady(t)
  }

  lemma EventKeepsGoing(t: Task, w: World, e: Event)
    requires Going(t, w) && Allowed(t, w, e)
    ensures t.src in w.files && t.dst in w.files
    ensures var (t', w') := Apply(t, w, e);
      Going(t', w') && Rank(t', w') + (if Progress(t, e) then 1 else 0) <= Rank(t, w)
  {
    hide Steady, Rank, Progress;
    EventRank(t, w, e);
    TwinOfItself(t, w);
    EventKeepsTwin(t, w, w, e);
  }

  ghost predicate GoingAt(t: Task, w: World, run: nat -> Event, n: nat)
    requires t.src in w.files && t.dst in w.files
  {
    Going(Reached(t, w, run, n).0, Reached(t, w, run, n).1)
  }

  ghost function RankAt(t: Task, w: World, run: nat -> Event, n: nat): nat
    requires t.src in w.files && t.dst in w.files
  {
    Rank(Reached(t, w, run, n).0, Reached(t, w, run, n).1)
  }

  lemma NextGoes(t: Task, w: World, run: nat -> Event, n: nat)
    requires t.src in w.files && t.dst in w.files && AllowedForever(t, w, run) && GoingAt(t, w, run, n)
    ensures GoingAt(t, w, run, n + 1)
    ensures RankAt(t, w, run, n + 1) + (if Progress(Reached(t, w, run, n).0, run(n)) then 1 else 0)
         <= RankAt(t, w, run, n)
  {
    hide Going, Rank, Apply, Progress, Allowed;
    var s := Reached(t, w, run, n);
    assert Allowed(s.0, s.1, run(n));
    EventKeepsGoing(s.0, s.1, run(n));
    assert Reached(t, w, run, n + 1) == Apply(s.0, s.1, run(n));
  }

  /** From event n to event m the run keeps going, and the rank does not rise. */
  lemma {:induction false} GoesOn(t: Task, w: World, run: nat -> Event, n: nat, m: nat)
    requires t.src in w.files && t.dst in w.files && AllowedForever(t, w, run) && n <= m && GoingAt(t, w, run, n)
    ensures GoingAt(t, w, run, m) && RankAt(t, w, run, m) <= RankAt(t, w, run, n)
    decreases m
  {
    hide AllowedForever, GoingAt, RankAt, Reached, Progress;
    if n < m {
      GoesOn(t, w, run, n, m - 1);
      NextGoes(t, w, run, m - 1);
    }
  }

  /** A run that is serviced makes progress again and again until it is over. */
  lemma ProgressComes(t: Task, w: World, run: nat -> Event, n: nat) returns (m: nat)
    requires t.src in w.files && t.dst in w.files && AllowedForever(t, w, run) && Serviced(t, w, run)
    ensures n <= m && (Over(Reached(t, w, run, m).0) || Progress(Reached(t, w, run, m).0, run(m)))
  {
    hide Reached;
    assert StepsAfter(run, n);
    m :| n <= m && run(m).Step? && run(m).elapsed;
    if Reached(t, w, run, m).0.ioPending {
      assert CompletesAfter(run, m);
      m :| m >= n && run(m).Complete?;
      assert Allowed(Reached(t, w, run, m).0, Reached(t, w, run, m).1, run(m));
    }
  }

  lemma {:induction false} EndsFrom(t: Task, w: World, run: nat -> Event, n: nat)
    requires t.src in w.files && t.dst in w.files && AllowedForever(t, w, run) && Serviced(t, w, run)
    requires GoingAt(t, w, run, n)
    ensures exists m: nat :: Over(Reached(t, w, run, m).0)
    decreases RankAt(t, w, run, n)
  {
    hide AllowedForever, Serviced, GoingAt, RankAt, Reached, Over, Progress;
    var m := ProgressComes(t, w, run, n);
    GoesOn(t, w, run, n, m);
    if !Over(Reached(t, w, run, m).0) {
      NextGoes(t, w, run, m);
      EndsFrom(t, w, run, m + 1);
    }
  }

  /**
   Every run without end in which each IO completes and the retry delay elapses ends the compaction, whatever is
   interleaved and however the IOs fail.
   */
  lemma FairRunEnds(t: Task, w: World, run: nat -> Event)
    requires Inv(t, w) && Steady(t) && t.src in w.files && t.dst in w.files
    requires AllowedForever(t, w, run) && Serviced(t, w, run)
    ensures exists n: nat :: Over(Reached(t, w, run, n).0)
  {
    hide Inv, Steady, AllowedForever, Serviced, Over, Apply;
    EndsFrom(t, w, run, 0);
  }
}
