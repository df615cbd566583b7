/** The upgrade of the local database: the swap protocol around the v8/v9 rebuild. */
module LocalUpgrade {
  import opened Options
  import opened OfflineRebuild
  import opened RebuildAgreement
  import opened UpgradeSwap

  /** The three schemas and the checks on file contents: integrity, published identity, current. */
  datatype Contract = Contract(
    v8: Schema, v9: Schema, v10: Schema,
    sound: Database -> bool, genuine: Database -> bool, verify: Database -> bool)

  /** `_inspect_source`: the version of a sound, published v8 or v9 database. */
  function Inspect(c: Contract, db: Database): (r: Option<nat>)
    ensures r.Some? ==> Published(c.v8, c.v9, c.v10) && Fits(db, FromSchema(c, r.value))
  {
    if !Published(c.v8, c.v9, c.v10) || !c.genuine(db) || !c.sound(db) then None
    else if Fits(db, c.v8) && IsActiveVersion(db, EIGHT) then Some(8)
    else if Fits(db, c.v9) && IsActiveVersion(db, NINE) then Some(9)
    else None
  }

  /** Exactly which databases are taken for a v8 or a v9 source: genuine and sound ones of that shape
      whose newest active identity has that version. */
  lemma InspectIff(c: Contract, db: Database)
    ensures Inspect(c, db) == Some(8)
            <==> Published(c.v8, c.v9, c.v10) && c.genuine(db) && c.sound(db) && Fits(db, c.v8) && NewestIs(db, "8")
    ensures Inspect(c, db) == Some(9)
            <==> Published(c.v8, c.v9, c.v10) && c.genuine(db) && c.sound(db) && Fits(db, c.v9) && NewestIs(db, "9")
    ensures Inspect(c, db).Some? ==> Inspect(c, db).value == 8 || Inspect(c, db).value == 9
  {
  }

  predicate NewestIs(db: Database, version: string) {
    SchemaVersions in db && ActiveIdentity(db[SchemaVersions]).Some?
    && Str(Get(ActiveIdentity(db[SchemaVersions]).value, Version)) == Text(version)
  }

  function FromSchema(c: Contract, version: nat): Schema {
    if version == 8 then c.v8 else c.v9
  }

  function Rebuilt(c: Contract, db: Database, stamp: Stamp): Option<Database> {
    match Inspect(c, db)
    case None => None
    case Some(version) =>
      match Build(db, version, FromSchema(c, version), c.v10, stamp, c.sound)
      case BuiltV10(target) => Some(target)
      case _ => None
  }

  function Protocol(c: Contract): Config<Database, Stamp> {
    Config(db => Inspect(c, db).Some?, (db, stamp) => Rebuilt(c, db, stamp), c.verify)
  }

  lemma RebuiltRows(c: Contract, source: Database, stamp: Stamp)
    requires Rebuilt(c, source, stamp).Some?
    ensures var version, target := Inspect(c, source).value, Rebuilt(c, source, stamp).value;
            var direct := Direct(source, version, FromSchema(c, version), c.v10);
            && direct.Built? && SameBusinessRows(target, direct.result)
            && SchemaVersions in target && OneActive(target[SchemaVersions], TEN, Generation(source))
  {
    var version := Inspect(c, source).value;
    BuiltHasTheRows(source, version, FromSchema(c, version), c.v10, stamp, c.sound);
    OneIdentityKept(source, version, FromSchema(c, version), c.v10, stamp, c.sound);
  }

  /** The v10 form of a source: the rebuild's business rows, and one active identity that keeps the
      source's generation. */
  ghost predicate IsV10Of(c: Contract, source: Database, db: Database)
    requires Inspect(c, source).Some?
  {
    var version := Inspect(c, source).value;
    var direct := Direct(source, version, FromSchema(c, version), c.v10);
    && direct.Built? && SameBusinessRows(db, direct.result)
    && SchemaVersions in db && OneActive(db[SchemaVersions], TEN, Generation(source))
  }

  lemma UpgradeIsV10(c: Contract, source: Database, db: Database)
    requires Inspect(c, source).Some? && IsUpgrade(Protocol(c), source, db)
    ensures IsV10Of(c, source, db)
  {
    var stamp :| Protocol(c).rebuild(source, stamp) == Some(db);
    RebuiltRows(c, source, stamp);
  }

  /** Crash-and-rerun of the whole upgrade: wherever a run of the program stopped, running it again
      ends on the same v10 business rows, with the generation kept and one active identity. */
  lemma RerunGivesTheSameRows(c: Contract, disk: Disk<Database>, steps: seq<Step<Stamp>>, stamp: Stamp)
    requires Outdated(Protocol(c), disk) && LogExpendable(Protocol(c), disk.Logical().value, disk) && NoFault(steps)
    requires Rebuildable(Protocol(c), disk.Logical().value, stamp)
    ensures var w := Run(Protocol(c), World(disk, Idle), steps + [Crash] + Advances(stamp, 6));
            && (w.phase == Finished(Upgraded) || w.phase == Finished(AlreadyCurrent))
            && w.disk.Logical().Some? && IsV10Of(c, disk.Logical().value, w.disk.Logical().value)
  {
    RerunCompletes(Protocol(c), disk, steps, stamp);
    var w := Run(Protocol(c), World(disk, Idle), steps + [Crash] + Advances(stamp, 6));
    UpgradeIsV10(c, disk.Logical().value, w.disk.Logical().value);
  }

  // ---------- upgrades that exist, with and without a log to spare ----------

  predicate IsCurrent(db: Database) {
    SchemaVersions in db && IsActiveVersion(db, TEN)
  }

  /** The small schemas with every file genuine and sound, current once its active identity is v10. */
  const SMALL := Contract(SmallSchema(false, false), SmallSchema(true, false), SmallSchema(true, true), _ => true, _ => true, IsCurrent)

  lemma SmallSourceInspected(plan: string)
    ensures Inspect(SMALL, UnnamedLink(plan)) == Some(8) && !IsCurrent(UnnamedLink(plan))
  {
    SmallSchemasArePublished();
    UnnamedLinkFits(plan);
    UnnamedLinkIsV8(plan);
  }

  /** A representable v8 database is rebuilt into a current one wherever nothing is found unsound. */
  lemma RebuiltIsCurrent(c: Contract, source: Database, stamp: Stamp)
    requires Inspect(c, source) == Some(8) && Representable(source) && forall db :: c.sound(db)
    ensures Rebuilt(c, source, stamp).Some? && IsCurrent(Rebuilt(c, source, stamp).value)
  {
    RebuildAcceptsIff(source, c.v8, c.v9, c.v10);
    BuildsWhenSound(source, c.v8, c.v10, stamp, c.sound);
    OneIdentityKept(source, 8, c.v8, c.v10, stamp, c.sound);
  }

  lemma SmallSourceRebuilt(plan: string, stamp: Stamp)
    ensures Rebuilt(SMALL, UnnamedLink(plan), stamp).Some? && IsCurrent(Rebuilt(SMALL, UnnamedLink(plan), stamp).value)
  {
    SmallSourceInspected(plan);
    UnnamedLinkRepresentable(plan);
    RebuiltIsCurrent(SMALL, UnnamedLink(plan), stamp);
  }

  /** An outdated database that can be rebuilt, without a log. */
  lemma SmallUpgradeRuns(plan: string, stamp: Stamp)
    ensures var disk := Disk(Some(UnnamedLink(plan)), None, false, []);
            && Outdated(Protocol(SMALL), disk) && disk.Logical() == Some(UnnamedLink(plan))
            && LogExpendable(Protocol(SMALL), UnnamedLink(plan), disk) && Rebuildable(Protocol(SMALL), UnnamedLink(plan), stamp)
    ensures Rebuilt(SMALL, UnnamedLink(plan), stamp).Some?
            && IsUpgrade(Protocol(SMALL), UnnamedLink(plan), Rebuilt(SMALL, UnnamedLink(plan), stamp).value)
  {
    SmallSourceInspected(plan);
    SmallSourceRebuilt(plan, stamp);
    assert Protocol(SMALL).rebuild(UnnamedLink(plan), stamp) == Rebuilt(SMALL, UnnamedLink(plan), stamp);
  }

  lemma UnnamedLinksDiffer(plan: string, other: string)
    requires plan != other
    ensures UnnamedLink(plan) != UnnamedLink(other)
  {
    assert UnnamedLink(plan)[PlanningCycles][0][Id] == Text(plan) && UnnamedLink(other)[PlanningCycles][0][Id] == Text(other);
  }

  /** An outdated database that can be rebuilt, with a log that cannot be spared: the file holds one
      plan and the log another. */
  lemma SmallLogNotExpendable(plan: string, other: string, stamp: Stamp)
    requires plan != other
    ensures var disk := Disk(Some(UnnamedLink(other)), Some(UnnamedLink(plan)), false, []);
            && disk.Logical() == Some(UnnamedLink(plan)) && Outdated(Protocol(SMALL), disk)
            && Rebuildable(Protocol(SMALL), UnnamedLink(plan), stamp) && !LogExpendable(Protocol(SMALL), UnnamedLink(plan), disk)
  {
    SmallSourceInspected(plan);
    SmallSourceInspected(other);
    SmallSourceRebuilt(plan, stamp);
    UnnamedLinksDiffer(plan, other);
  }

  /** How a swap fails: three statements into the upgrade of that database a crash leaves neither the
      source nor a rebuild of it on the live path. */
  lemma LogMovedAwayIsMissed(plan: string, other: string, stamp: Stamp)
    requires plan != other
    ensures var disk := Disk(Some(UnnamedLink(other)), Some(UnnamedLink(plan)), false, []);
            !LiveComplete(Protocol(SMALL), UnnamedLink(plan), Run(Protocol(SMALL), World(disk, Idle), Advances(stamp, 3) + [Crash]).disk)
  {
    SmallLogNotExpendable(plan, other, stamp);
    MovedLogIsMissed(Protocol(SMALL), Disk(Some(UnnamedLink(other)), Some(UnnamedLink(plan)), false, []), stamp);
  }

  // ---------- one call ----------

  /** A call that no crash ends: five statements, the post-swap verification, and what follows it. */
  function Attempt<D(!new), S(!new)>(cfg: Config<D, S>, disk: Disk<D>, stamp: S, faulty: bool): World<D> {
    var swapped := Run(cfg, World(disk, Idle), Advances(stamp, 5));
    Next(cfg, Next(cfg, swapped, if faulty then Fault else Advance(stamp)), Advance(stamp))
  }

  lemma AttemptIsRun<D(!new), S(!new)>(cfg: Config<D, S>, disk: Disk<D>, stamp: S, faulty: bool)
    ensures Attempt(cfg, disk, stamp, faulty)
            == Run(cfg, World(disk, Idle), Advances(stamp, 5) + [if faulty then Fault else Advance(stamp), Advance(stamp)])
  {
    var last := [if faulty then Fault else Advance(stamp), Advance(stamp)];
    var swapped := Run(cfg, World(disk, Idle), Advances(stamp, 5));
    RunAppend(cfg, World(disk, Idle), Advances(stamp, 5), last);
    assert last[..1] == [last[0]] && last[..1][..0] == [];
    assert Run(cfg, swapped, last[..1]) == Next(cfg, swapped, last[0]);
  }

  /** The directory of the database and what the program does to it. */
  class Volume<D(==, !new)> {
    var live: Option<D>
    var wal: Option<D>
    var shm: bool
    var backups: seq<Backup<D>>

    constructor (disk: Disk<D>)
      ensures Contents() == disk
    {
      live, wal, shm, backups := disk.live, disk.wal, disk.shm, disk.backups;
    }

    ghost function Contents(): Disk<D>
      reads this
    {
      Disk(live, wal, shm, backups)
    }

    method ReadLive() returns (db: Option<D>)
      ensures db == Contents().Logical()
    {
      db := if live.Some? && wal.Some? then wal else live;
    }

    method BackupDatabase(db: D) returns (backup: nat)
      modifies this
      ensures Contents() == old(Contents()).(backups := old(backups) + [Backup(db, None, false)]) && backup == |old(backups)|
    {
      backup := |backups|;
      backups := backups + [Backup(db, None, false)];
    }

    /** Sidecars first, then the live file itself. */
    method ReplaceDatabase(stage: D, backup: nat)
      requires backup < |backups|
      modifies this
      ensures backups == old(backups)[backup := Backup(old(backups)[backup].db,
                                                       if old(wal).Some? then old(wal) else old(backups)[backup].wal,
                                                       old(shm) || old(backups)[backup].shm)]
      ensures live == Some(stage) && wal == None && !shm
    {
      if wal.Some? {
        backups := backups[backup := backups[backup].(wal := wal)];
        wal := None;
      }
      if shm {
        backups := backups[backup := backups[backup].(shm := true)];
        shm := false;
      }
      live := Some(stage);
    }

    method RestoreBackup(backup: nat)
      requires backup < |backups|
      modifies this
      ensures Contents() == old(Contents()).(live := Some(old(backups)[backup].db))
    {
      live := None;
      live := Some(backups[backup].db);
    }

    /** `ensure_local_database_current`; `faulty` is the verdict of the post-swap verification where
        the contents alone would pass. */
    method EnsureCurrent<S(!new)>(cfg: Config<D, S>, stamp: S, faulty: bool) returns (result: Result)
      modifies this
      ensures World(Contents(), Finished(result)) == Attempt(cfg, old(Contents()), stamp, faulty)
    {
      ghost var start := World(Contents(), Idle);
      AdvancesOne(cfg, start, stamp, 0);
      AdvancesOne(cfg, start, stamp, 1);
      AdvancesOne(cfg, start, stamp, 2);
      AdvancesOne(cfg, start, stamp, 3);
      AdvancesOne(cfg, start, stamp, 4);
      var found := ReadLive();
      if found.None? {
        result := NotUpgraded;
      } else if cfg.verify(found.value) {
        result := AlreadyCurrent;
      } else if !cfg.inspect(found.value) {
        result := Failed;
      } else {
        var backup := BackupDatabase(found.value);
        result := UpgradeFrom(cfg, backup, stamp, faulty);
      }
    }

    /** From the backup on: stage, verify the stage, swap, verify the live file, restore. */
    method UpgradeFrom<S(!new)>(cfg: Config<D, S>, backup: nat, stamp: S, faulty: bool) returns (result: Result)
      requires backup < |backups|
      modifies this
      ensures World(Contents(), Finished(result))
              == UpgradeSteps(cfg, World(old(Contents()), BackedUp(backup)), stamp, faulty)
    {
      var built := cfg.rebuild(backups[backup].db, stamp);
      if built.None? || !cfg.verify(built.value) {
        result := Failed;
      } else {
        ReplaceDatabase(built.value, backup);
        if faulty || !cfg.verify(built.value) {
          RestoreBackup(backup);
          result := Failed;
        } else {
          result := Upgraded;
        }
      }
    }
  }

  /** The statements after the backup. */
  function UpgradeSteps<D(!new), S(!new)>(cfg: Config<D, S>, w: World<D>, stamp: S, faulty: bool): World<D>
    requires Wellformed(w)
  {
    var swapped := Next(cfg, Next(cfg, Next(cfg, Next(cfg, w, Advance(stamp)), Advance(stamp)), Advance(stamp)), Advance(stamp));
    Next(cfg, Next(cfg, swapped, if faulty then Fault else Advance(stamp)), Advance(stamp))
  }

  lemma AttemptBacksUpFirst<D(!new), S(!new)>(cfg: Config<D, S>, disk: Disk<D>, stamp: S, faulty: bool)
    requires Outdated(cfg, disk)
    ensures var backedUp := disk.(backups := disk.backups + [Backup(disk.Logical().value, None, false)]);
            Attempt(cfg, disk, stamp, faulty)
            == UpgradeSteps(cfg, World(backedUp, BackedUp(|disk.backups|)), stamp, faulty)
  {
    AdvancesOne(cfg, World(disk, Idle), stamp, 0);
    AdvancesOne(cfg, World(disk, Idle), stamp, 1);
    AdvancesOne(cfg, World(disk, Idle), stamp, 2);
    AdvancesOne(cfg, World(disk, Idle), stamp, 3);
    AdvancesOne(cfg, World(disk, Idle), stamp, 4);
  }

  lemma UpgradeStepsOutcome<D(!new), S(!new)>(cfg: Config<D, S>, disk: Disk<D>, k: nat, stamp: S, faulty: bool)
    requires k < |disk.backups|
    ensures var source, w := disk.backups[k].db, UpgradeSteps(cfg, World(disk, BackedUp(k)), stamp, faulty);
            && k < |w.disk.backups| && w.disk.backups[k].db == source
            && if !Rebuildable(cfg, source, stamp) then w == World(disk, Finished(Failed))
               else if faulty then w.phase == Finished(Failed) && w.disk.live == Some(source) && w.disk.wal.None?
               else w.phase == Finished(Upgraded) && w.disk.live == cfg.rebuild(source, stamp) && w.disk.wal.None?
  {
  }

  /** Every other call, that is, on a disk without a live file, with a current one, or with one that is
      neither current nor a published v8 or v9 database: it says which, in this order, and leaves the
      disk as it was. */
  lemma CallLeavesOthersAlone<D(!new), S(!new)>(cfg: Config<D, S>, disk: Disk<D>, stamp: S, faulty: bool)
    ensures var w := Attempt(cfg, disk, stamp, faulty);
            && (w.phase == Finished(NotUpgraded) <==> disk.live.None?)
            && (w.phase == Finished(AlreadyCurrent) <==> disk.live.Some? && cfg.verify(disk.Logical().value))
            && (disk.live.Some? && !cfg.verify(disk.Logical().value) && !cfg.inspect(disk.Logical().value) ==>
                  w.phase == Finished(Failed))
            && (!Outdated(cfg, disk) ==> w.disk == disk)
  {
    AdvancesOne(cfg, World(disk, Idle), stamp, 0);
    AdvancesOne(cfg, World(disk, Idle), stamp, 1);
    AdvancesOne(cfg, World(disk, Idle), stamp, 2);
    AdvancesOne(cfg, World(disk, Idle), stamp, 3);
    AdvancesOne(cfg, World(disk, Idle), stamp, 4);
    if Outdated(cfg, disk) { CallIsSafe(cfg, disk, stamp, faulty); }
  }

  /** A call on an outdated database, logged changes included: it leaves a complete copy, and the
      live path holds the verified rebuild if it reports an upgrade, and all of the source if it
      fails. It upgrades exactly when the source can be rebuilt and the swap verifies. */
  lemma CallIsSafe<D(!new), S(!new)>(cfg: Config<D, S>, disk: Disk<D>, stamp: S, faulty: bool)
    requires Outdated(cfg, disk)
    ensures var source, w := disk.Logical().value, Attempt(cfg, disk, stamp, faulty);
            && HasCopy(w.disk, source)
            && (w.phase == Finished(Upgraded) <==> Rebuildable(cfg, source, stamp) && !faulty)
            && (if w.phase == Finished(Upgraded) then w.disk.Logical() == cfg.rebuild(source, stamp) && cfg.verify(w.disk.Logical().value)
                else w.phase == Finished(Failed) && w.disk.Logical() == Some(source))
  {
    var backedUp := disk.(backups := disk.backups + [Backup(disk.Logical().value, None, false)]);
    AttemptBacksUpFirst(cfg, disk, stamp, faulty);
    UpgradeStepsOutcome(cfg, backedUp, |disk.backups|, stamp, faulty);
  }
}
