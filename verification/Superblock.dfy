/** The two copies of the superblock. */
module Superblocks {
  // The backup is written before the primary, and a load takes the primary if it checks and the backup otherwise.

  import opened Types
  import opened Bytes

  const SUPERBLOCK_MAGIC: u32 := 0x53504B56

  /** A superblock: its update sequence, and everything else it holds. */
  datatype Super = Super(sequence: u64, rest: seq<Byte>)

  function HeadCells(s: Super): (cells: seq<Cell>)
    ensures |cells| == 3 && Offset(cells, 0) == 0 && Offset(cells, 2) == 8 && Offset(cells, 3) == 16
  {
    var cells := [Cell(SUPERBLOCK_MAGIC, 4), Cell(1, 4), Cell(s.sequence, 8)];
    assert Offset(cells, 1) == 4;
    cells
  }

  function Body(s: Super): seq<Byte> {
    Layout(HeadCells(s)) + s.rest
  }

  /** The image on disk ends with the checksum of what precedes it. */
  function Image(s: Super, crc: Checksum): seq<Byte> {
    Body(s) + LE(crc(Body(s)), 4)
  }

  /** What a load checks: the magic, and the checksum over all but its own four bytes. */
  predicate Checks(image: seq<Byte>, crc: Checksum) {
    |image| >= 20 && Field(image, 0, 4) == SUPERBLOCK_MAGIC
      && Field(image, |image| - 4, 4) == crc(image[..|image| - 4])
  }

  function Parse(image: seq<Byte>): Super
    requires |image| >= 20
  {
    FieldBound(image, 8, 8);
    Powers();
    Super(Field(image, 8, 8), image[16..|image| - 4])
  }

  datatype Copies = Copies(primary: seq<Byte>, backup: seq<Byte>)

  /** None is a corrupt store. A copy that cannot be read does not check. */
  function Load(c: Copies, crc: Checksum): Option<Super> {
    if Checks(c.primary, crc) then Some(Parse(c.primary))
    else if Checks(c.backup, crc) then Some(Parse(c.backup))
    else None
  }

  /** How far a write gets: torn is what a copy holds whose write did not finish. */
  datatype Progress =
    | Nothing
    | TornBackup(torn: seq<Byte>)
    | BackupOnly
    | TornPrimary(torn: seq<Byte>)
    | Both

  function Written(c: Copies, image: seq<Byte>, p: Progress): Copies {
    match p
    case Nothing => c
    case TornBackup(torn) => c.(backup := torn)
    case BackupOnly => c.(backup := image)
    case TornPrimary(torn) => Copies(torn, image)
    case Both => Copies(image, image)
  }

  /** The bytes do not start with the magic number, or the four at the end are not the checksum of the others. */
  predicate Damaged(image: seq<Byte>, crc: Checksum) {
    |image| < 20 || Field(image, 0, 4) != 0x53504B56
      || Field(image, |image| - 4, 4) != crc(image[..|image| - 4])
  }

  /** A torn copy is of the size of the image, and does not pass for one: it is what the checksum is for. */
  predicate Plausible(p: Progress, image: seq<Byte>, crc: Checksum) {
    p.TornBackup? || p.TornPrimary? ==> |p.torn| == |image| && Damaged(p.torn, crc)
  }

  lemma TornFails(p: Progress, image: seq<Byte>, crc: Checksum)
    requires Plausible(p, image, crc)
    ensures p.TornBackup? || p.TornPrimary? ==> !Checks(p.torn, crc)
  {
  }

  /** A damaged copy counts as one that cannot be read; of two good ones the primary is taken, whichever is newer. */
  lemma DamagedIsPassedOver(c: Copies, crc: Checksum)
    ensures Damaged(c.primary, crc) ==> Load(c, crc) == Load(Copies([], c.backup), crc)
    ensures Damaged(c.backup, crc) ==> Load(c, crc) == Load(Copies(c.primary, []), crc)
    ensures !Damaged(c.primary, crc) ==> Load(c, crc) == Load(Copies(c.primary, []), crc) != None
    ensures Load(c, crc) == None <==> Damaged(c.primary, crc) && Damaged(c.backup, crc)
  {
  }

  /** What write_superblock stores: the next sequence number, wrapping at 64 bits. */
  function NextSuper(s: Super): Super {
    s.(sequence := (s.sequence + 1) % 0x1_0000_0000_0000_0000)
  }

  function NextTimes(s: Super, n: nat): Super {
    if n == 0 then s else NextSuper(NextTimes(s, n - 1))
  }

  /** Each write has the next number, modulo 2^64; nothing else of the superblock depends on it. */
  lemma {:induction false} NumberedWrites(s: Super, n: nat)
    ensures NextTimes(s, n) == s.(sequence := (s.sequence + n) % 18446744073709551616)
  {
    if n > 0 {
      NumberedWrites(s, n - 1);
      OneMore(s.sequence, n - 1);
    }
  }

  lemma OneMore(a: nat, n: nat)
    ensures ((a + n) % 18446744073709551616 + 1) % 18446744073709551616 == (a + n + 1) % 18446744073709551616
  {
  }

  lemma ImageChecks(s: Super, crc: Checksum)
    ensures Checks(Image(s, crc), crc) && Parse(Image(s, crc)) == s
  {
    Powers();
    var body, image := Body(s), Image(s, crc);
    assert |Layout(HeadCells(s))| == 16;
    assert image == Layout(HeadCells(s)) + (s.rest + LE(crc(body), 4));
    LayoutReadsBack(HeadCells(s), 0, s.rest + LE(crc(body), 4));
    LayoutReadsBack(HeadCells(s), 2, s.rest + LE(crc(body), 4));
    FieldReadsBack(body, crc(body), 4, []);
    assert body + LE(crc(body), 4) + [] == image;
    assert image[..|image| - 4] == body;
    assert image[16..|image| - 4] == s.rest;
  }

  /** However far a write gets, a load finds the old superblock or the new one, if the primary copy was good. */
  lemma CrashFindsOldOrNew(c: Copies, s: Super, p: Progress, crc: Checksum)
    requires Checks(c.primary, crc) && Plausible(p, Image(s, crc), crc)
    ensures var found := Load(Written(c, Image(s, crc), p), crc);
      && (found == Load(c, crc) || found == Some(s))
      && (p.TornPrimary? || p.Both? ==> found == Some(s))
  {
    ImageChecks(s, crc);
  }

  /** A bad image of every length. */
  lemma ZerosAreDamaged(n: nat, crc: Checksum)
    ensures Damaged(seq(n, _ => 0), crc)
  {
    var z: seq<Byte> := seq(n, _ => 0);
    if n >= 20 {
      assert z[0..0 + 4] == [0, 0, 0, 0];
      assert FromLE([0, 0, 0, 0]) == 0 by {
        assert FromLE([]) == 0;
        assert FromLE([0]) == 0;
        assert FromLE([0, 0]) == 0;
        assert FromLE([0, 0, 0]) == 0;
      }
    }
  }

  /** A write is safe against a crash at any point exactly if the primary copy was good when it began. */
  lemma CrashSafeIff(c: Copies, s: Super, crc: Checksum)
    requires Load(c, crc).Some?
    ensures (forall p: Progress :: Plausible(p, Image(s, crc), crc) ==>
               Load(Written(c, Image(s, crc), p), crc) == Load(c, crc)
               || Load(Written(c, Image(s, crc), p), crc) == Some(s))
      <==> Checks(c.primary, crc)
  {
    if Checks(c.primary, crc) {
      forall p: Progress | Plausible(p, Image(s, crc), crc)
        ensures Load(Written(c, Image(s, crc), p), crc) == Load(c, crc)
             || Load(Written(c, Image(s, crc), p), crc) == Some(s)
      {
        CrashFindsOldOrNew(c, s, p, crc);
      }
    } else {
      var n := |Image(s, crc)|;
      ZerosAreDamaged(n, crc);
      var p := TornBackup(seq(n, _ => 0));
      assert Plausible(p, Image(s, crc), crc) && Load(Written(c, Image(s, crc), p), crc) == None;
    }
  }

  // ---------------------------------------------------------------------------------------------
  // Runs of writes
  // ---------------------------------------------------------------------------------------------

  function WrittenAll(c: Copies, ss: seq<Super>, ps: seq<Progress>, crc: Checksum): Copies
    requires |ss| == |ps|
    decreases |ss|
  {
    if ss == [] then c
    else Written(WrittenAll(c, ss[..|ss| - 1], ps[..|ps| - 1], crc), Image(ss[|ss| - 1], crc), ps[|ps| - 1])
  }

  /** The last superblock whose write got as far as the primary copy. */
  function LastCommitted(first: Super, ss: seq<Super>, ps: seq<Progress>): Super
    requires |ss| == |ps|
    decreases |ss|
  {
    if ss == [] then first
    else if ps[|ps| - 1].TornPrimary? || ps[|ps| - 1].Both? then ss[|ss| - 1]
    else LastCommitted(first, ss[..|ss| - 1], ps[..|ps| - 1])
  }

  /**
   Over any run of writes that each finish or stop before they touch the primary copy, and a last one that stops
   anywhere, a load finds the last superblock committed, or the one being written.
   */
  lemma {:induction false} RunOfWrites(c: Copies, first: Super, ss: seq<Super>, ps: seq<Progress>, crc: Checksum)
    requires |ss| == |ps| && Checks(c.primary, crc) && Parse(c.primary) == first
    requires forall i :: 0 <= i < |ps| ==>
        Plausible(ps[i], Image(ss[i], crc), crc) && (ps[i].TornPrimary? ==> i == |ps| - 1)
    ensures Load(WrittenAll(c, ss, ps, crc), crc) == Some(LastCommitted(first, ss, ps))
    ensures |ps| > 0 && !ps[|ps| - 1].TornPrimary? ==> Checks(WrittenAll(c, ss, ps, crc).primary, crc)
    decreases |ss|
  {
    hide Checks, Parse, Image;
    if ss != [] {
      var n := |ss| - 1;
      RunOfWrites(c, first, ss[..n], ps[..n], crc);
      TornFails(ps[n], Image(ss[n], crc), crc);
      ImageChecks(ss[n], crc);
    }
  }

  /** What the two copies stand for: a superblock each, or nothing. */
  datatype Held = Held(primary: Option<Super>, backup: Option<Super>)

  function HeldBy(c: Copies, crc: Checksum): Held {
    Held(if Checks(c.primary, crc) then Some(Parse(c.primary)) else None,
         if Checks(c.backup, crc) then Some(Parse(c.backup)) else None)
  }

  function Best(h: Held): Option<Super> {
    if h.primary.Some? then h.primary else h.backup
  }

  function HeldAfter(h: Held, s: Super, p: Progress): Held {
    match p
    case Nothing => h
    case TornBackup(_) => h.(backup := None)
    case BackupOnly => h.(backup := Some(s))
    case TornPrimary(_) => Held(None, Some(s))
    case Both => Held(Some(s), Some(s))
  }

  function HeldAfterAll(h: Held, ss: seq<Super>, ps: seq<Progress>): Held
    requires |ss| == |ps|
    decreases |ss|
  {
    if ss == [] then h
    else HeldAfter(HeldAfterAll(h, ss[..|ss| - 1], ps[..|ps| - 1]), ss[|ss| - 1], ps[|ps| - 1])
  }

  lemma WriteHolds(c: Copies, s: Super, p: Progress, crc: Checksum)
    requires Plausible(p, Image(s, crc), crc)
    ensures HeldBy(Written(c, Image(s, crc), p), crc) == HeldAfter(HeldBy(c, crc), s, p)
  {
    ImageChecks(s, crc);
    TornFails(p, Image(s, crc), crc);
    hide Checks, Parse, Image, Damaged;
  }

  /**
   Over every run of writes, wherever each of them stops, the bytes stand for what the abstract copies hold: a torn
   primary copy is repaired by the next write that finishes, and a load finds the primary copy's superblock, else the
   backup's, and nothing exactly if neither is left.
   */
  lemma {:induction false} EveryRunOfWrites(c: Copies, ss: seq<Super>, ps: seq<Progress>, crc: Checksum)
    requires |ss| == |ps| && forall i :: 0 <= i < |ps| ==> Plausible(ps[i], Image(ss[i], crc), crc)
    ensures HeldBy(WrittenAll(c, ss, ps, crc), crc) == HeldAfterAll(HeldBy(c, crc), ss, ps)
    ensures Load(WrittenAll(c, ss, ps, crc), crc) == Best(HeldAfterAll(HeldBy(c, crc), ss, ps))
    decreases |ss|
  {
    hide Checks, Parse, Image;
    if ss != [] {
      var n := |ss| - 1;
      EveryRunOfWrites(c, ss[..n], ps[..n], crc);
      WriteHolds(WrittenAll(c, ss[..n], ps[..n], crc), ss[n], ps[n], crc);
    }
  }

  /** Write i tears the primary copy, and no later write gets to it. */
  predicate PrimaryTorn(ps: seq<Progress>, i: nat)
    requires i < |ps|
  {
    ps[i].TornPrimary? && forall k :: i < k < |ps| ==> !ps[k].TornPrimary? && !ps[k].Both?
  }

  /** Write i tears the backup, and no later write gets beyond it. */
  predicate BackupTorn(ps: seq<Progress>, i: nat)
    requires i < |ps|
  {
    ps[i].TornBackup? && forall k :: i < k < |ps| ==> ps[k].Nothing? || ps[k].TornBackup?
  }

  lemma {:induction false} PrimaryTornIff(h: Held, ss: seq<Super>, ps: seq<Progress>)
    requires |ss| == |ps| && h.primary.Some?
    ensures HeldAfterAll(h, ss, ps).primary == None <==> exists i :: 0 <= i < |ps| && PrimaryTorn(ps, i)
    decreases |ss|
  {
    if ss != [] {
      var n := |ss| - 1;
      PrimaryTornIff(h, ss[..n], ps[..n]);
      if ps[n].TornPrimary? {
        assert PrimaryTorn(ps, n);
      } else if !ps[n].Both? {
        assert forall i :: 0 <= i < n ==> (PrimaryTorn(ps, i) <==> PrimaryTorn(ps[..n], i)) by {
          assert forall i :: 0 <= i < n ==> ps[..n][i] == ps[i];
        }
      }
    }
  }

  lemma {:induction false} BackupTornIff(h: Held, ss: seq<Super>, ps: seq<Progress>)
    requires |ss| == |ps| && h.backup.Some?
    ensures HeldAfterAll(h, ss, ps).backup == None <==> exists i :: 0 <= i < |ps| && BackupTorn(ps, i)
    decreases |ss|
  {
    if ss != [] {
      var n := |ss| - 1;
      BackupTornIff(h, ss[..n], ps[..n]);
      if ps[n].TornBackup? {
        assert BackupTorn(ps, n);
      } else if ps[n].Nothing? {
        assert forall i :: 0 <= i < n ==> (BackupTorn(ps, i) <==> BackupTorn(ps[..n], i)) by {
          assert forall i :: 0 <= i < n ==> ps[..n][i] == ps[i];
        }
      }
    }
  }

  /** From two good copies, a run of writes loses the superblock if and only if it leaves both of them torn. */
  lemma LostIff(c: Copies, ss: seq<Super>, ps: seq<Progress>, crc: Checksum)
    requires |ss| == |ps| && forall i :: 0 <= i < |ps| ==> Plausible(ps[i], Image(ss[i], crc), crc)
    requires Checks(c.primary, crc) && Checks(c.backup, crc)
    ensures Load(WrittenAll(c, ss, ps, crc), crc) == None <==>
      (exists i :: 0 <= i < |ps| && PrimaryTorn(ps, i)) && (exists j :: 0 <= j < |ps| && BackupTorn(ps, j))
  {
    EveryRunOfWrites(c, ss, ps, crc);
    var h := HeldBy(c, crc);
    hide Checks, Damaged, Parse, Image, Load, WrittenAll, Plausible, PrimaryTorn, BackupTorn, HeldBy, HeldAfterAll;
    PrimaryTornIff(h, ss, ps);
    BackupTornIff(h, ss, ps);
  }

  /** Two crashes can lose everything: the first tears the primary copy, the second the backup. */
  lemma TwoCrashesLoseAll(c: Copies, s: Super, s': Super, torn: seq<Byte>, torn': seq<Byte>, crc: Checksum)
    requires Checks(c.primary, crc) && Checks(c.backup, crc) && Damaged(torn, crc) && Damaged(torn', crc)
    ensures Load(WrittenAll(c, [s], [TornPrimary(torn)], crc), crc) == Some(s)
    ensures Load(WrittenAll(c, [s, s'], [TornPrimary(torn), TornBackup(torn')], crc), crc) == None
  {
    ImageChecks(s, crc);
    assert [s, s'][..1] == [s] && [TornPrimary(torn), TornBackup(torn')][..1] == [TornPrimary(torn)];
    assert [s][..0] == [] && [TornPrimary(torn)][..0] == [];
  }

  // ---------------------------------------------------------------------------------------------
  // In place
  // ---------------------------------------------------------------------------------------------

  class SuperblockStore {
    const crc: Checksum
    var superblock: Super
    var primary: seq<Byte>
    var backup: seq<Byte>

    ghost function Value(): Copies
      reads this
    {
      Copies(primary, backup)
    }

    constructor (crc: Checksum, superblock: Super)
      ensures this.crc == crc && this.superblock == superblock
      ensures Value() == Copies(Image(superblock, crc), Image(superblock, crc))
    {
      this.crc, this.superblock := crc, superblock;
      primary, backup := Image(superblock, crc), Image(superblock, crc);
    }

    /** A write that fails leaves torn in the copy it was writing, and does not go on. */
    method WriteSuperblock(backupOk: bool, primaryOk: bool, torn: seq<Byte>) returns (ok: bool)
      modifies this
      ensures superblock == NextSuper(old(superblock))
      ensures Value() == Written(old(Value()), Image(superblock, crc),
                                 if !backupOk then TornBackup(torn) else if !primaryOk then TornPrimary(torn) else Both)
      ensures ok <==> backupOk && primaryOk
      ensures ok ==> Load(Value(), crc) == Some(superblock)
    {
      superblock := NextSuper(superblock);
      var image := Image(superblock, crc);
      ImageChecks(superblock, crc);
      if !backupOk {
        backup := torn;
        return false;
      }
      backup := image;
      if !primaryOk {
        primary := torn;
        return false;
      }
      primary := image;
      return true;
    }

    /** primaryReads and backupReads tell whether the reads of the copies succeed. */
    method LoadSuperblock(primaryReads: bool, backupReads: bool) returns (ok: bool)
      modifies `superblock
      ensures var found := Load(Copies(if primaryReads then primary else [], if backupReads then backup else []), crc);
        && (ok <==> found.Some?) && superblock == (if ok then found.value else old(superblock))
    {
      if primaryReads && Checks(primary, crc) {
        superblock := Parse(primary);
        return true;
      }
      if backupReads && Checks(backup, crc) {
        superblock := Parse(backup);
        return true;
      }
      return false;
    }
  }
}
