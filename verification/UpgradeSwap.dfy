/** The file protocol around the rebuild: back up, stage, move the sidecars, swap, verify, and put
    the backup back when verification fails; with a crash possible between any two steps. */
module UpgradeSwap {
  import opened Options

  /** What the protocol asks of file contents `D`: whether they are a published v8 or v9 database,
      what they are rebuilt into under the ids and times `S` of one attempt, and whether they verify
      as v10. */
  datatype Config<!D, !S> = Config(inspect: D -> bool, rebuild: (D, S) -> Option<D>, verify: D -> bool)

  /** A backup and the sidecars moved next to it. */
  datatype Backup<D> = Backup(db: D, wal: Option<D>, shm: bool)

  /** `wal` holds what the live file is with its write-ahead log applied; `live` is what it is
      without. An empty live file counts as missing. */
  datatype Disk<D> = Disk(live: Option<D>, wal: Option<D>, shm: bool, backups: seq<Backup<D>>)
  {
    function Logical(): Option<D> {
      if live.Some? && wal.Some? then wal else live
    }
  }

  datatype Result = NotUpgraded | AlreadyCurrent | Upgraded | Failed

  datatype Phase<D> =
    | Idle
    | BackedUp(backup: nat)
    | Staged(backup: nat, stage: D)
    | WalMoved(backup: nat, stage: D)
    | ShmMoved(backup: nat, stage: D)
    | Swapped(backup: nat)
    | LiveMovedAway(backup: nat)
    | Finished(result: Result)

  datatype World<D> = World(disk: Disk<D>, phase: Phase<D>)

  /** `Advance` takes the next statement, with the fresh ids and times a rebuild would use; `Fault`
      is a post-swap verification that fails; `Crash` ends the process, and the next `Advance`
      starts the program again. */
  datatype Step<S> = Advance(stamp: S) | Fault | Crash

  /** The process's next statement. */
  function Advanced<D(!new), S(!new)>(cfg: Config<D, S>, w: World<D>, stamp: S): World<D>
    requires Wellformed(w)
  {
    var disk := w.disk;
    match w.phase
    case Idle =>
      if disk.live.None? then World(disk, Finished(NotUpgraded))
      else
        var db := disk.Logical().value;
        if cfg.verify(db) then World(disk, Finished(AlreadyCurrent))
        else if !cfg.inspect(db) then World(disk, Finished(Failed))
        else World(disk.(backups := disk.backups + [Backup(db, None, false)]), BackedUp(|disk.backups|))
    case BackedUp(k) =>
      var built := cfg.rebuild(disk.backups[k].db, stamp);
      if built.Some? && cfg.verify(built.value) then World(disk, Staged(k, built.value)) else World(disk, Finished(Failed))
    case Staged(k, stage) =>
      var moved := if disk.wal.Some? then disk.backups[k].(wal := disk.wal) else disk.backups[k];
      World(disk.(wal := None, backups := disk.backups[k := moved]), WalMoved(k, stage))
    case WalMoved(k, stage) =>
      var moved := if disk.shm then disk.backups[k].(shm := true) else disk.backups[k];
      World(disk.(shm := false, backups := disk.backups[k := moved]), ShmMoved(k, stage))
    case ShmMoved(k, stage) => World(disk.(live := Some(stage)), Swapped(k))
    case Swapped(k) =>
      if disk.live.Some? && cfg.verify(disk.live.value) then World(disk, Finished(Upgraded))
      else World(disk.(live := None), LiveMovedAway(k))
    case LiveMovedAway(k) => World(disk.(live := Some(disk.backups[k].db)), Finished(Failed))
    case Finished(_) => w
  }

  predicate Wellformed<D(==)>(w: World<D>) {
    match w.phase
    case Idle => true
    case Finished(_) => true
    case _ => w.phase.backup < |w.disk.backups|
  }

  function Next<D(!new), S(!new)>(cfg: Config<D, S>, w: World<D>, step: Step<S>): (r: World<D>)
    requires Wellformed(w)
    ensures Wellformed(r)
  {
    match step
    case Advance(stamp) => Advanced(cfg, w, stamp)
    case Fault => if w.phase.Swapped? then World(w.disk.(live := None), LiveMovedAway(w.phase.backup)) else w
    case Crash => World(w.disk, Idle)
  }

  function Run<D(!new), S(!new)>(cfg: Config<D, S>, w: World<D>, steps: seq<Step<S>>): (r: World<D>)
    requires Wellformed(w)
    ensures Wellformed(r)
  {
    if steps == [] then w else Next(cfg, Run(cfg, w, steps[..|steps| - 1]), steps[|steps| - 1])
  }

  // ---------- what a run keeps ----------

  /** `db` is a verified v10 rebuild of `source`, under some stamp. */
  ghost predicate IsUpgrade<D(!new), S(!new)>(cfg: Config<D, S>, source: D, db: D)
  {
    cfg.verify(db) && exists stamp :: cfg.rebuild(source, stamp) == Some(db)
  }

  /** The live path holds the complete source or a complete verified rebuild of it. */
  ghost predicate LiveComplete<D(!new), S(!new)>(cfg: Config<D, S>, source: D, disk: Disk<D>)
  {
    disk.Logical().Some? && (disk.Logical().value == source || IsUpgrade(cfg, source, disk.Logical().value))
  }

  predicate Checkpointed<D(==)>(disk: Disk<D>) {
    disk.live.Some? && disk.wal.Some? ==> disk.wal == disk.live
  }

  /** Without its log the live file is still the complete source or a rebuild of it. */
  ghost predicate LogExpendable<D(!new), S(!new)>(cfg: Config<D, S>, source: D, disk: Disk<D>) {
    disk.live.Some? ==> disk.live.value == source || IsUpgrade(cfg, source, disk.live.value)
  }

  predicate HasCopy<D(==)>(disk: Disk<D>, source: D) {
    exists k :: 0 <= k < |disk.backups| && disk.backups[k].db == source
  }

  ghost predicate Kept<D(!new), S(!new)>(cfg: Config<D, S>, source: D, w: World<D>)
    requires cfg.inspect(source) && Wellformed(w)
  {
    && LogExpendable(cfg, source, w.disk)
    && (match w.phase
        case Idle => true
        case Finished(_) => true
        case _ => w.disk.backups[w.phase.backup].db == source)
    && (w.phase.Staged? || w.phase.WalMoved? || w.phase.ShmMoved? ==> IsUpgrade(cfg, source, w.phase.stage))
    && (w.phase.WalMoved? || w.phase.ShmMoved? || w.phase.Swapped? || w.phase.LiveMovedAway? ==> w.disk.wal.None?)
    && (w.phase.Swapped? ==> w.disk.live.Some? && IsUpgrade(cfg, source, w.disk.live.value))
    && (w.phase.LiveMovedAway? || LiveComplete(cfg, source, w.disk))
  }

  /** A step that would lose the live path for good: dying between moving a failed upgrade away and
      copying the backup back. */
  predicate Interrupted<D(!new), S(!new)>(w: World<D>, step: Step<S>) {
    w.phase.LiveMovedAway? && step.Crash?
  }

  lemma StepKeeps<D(!new), S(!new)>(cfg: Config<D, S>, source: D, w: World<D>, step: Step<S>)
    requires cfg.inspect(source) && !cfg.verify(source) && Wellformed(w) && Kept(cfg, source, w)
    requires !Interrupted(w, step)
    ensures Kept(cfg, source, Next(cfg, w, step))
    ensures HasCopy(w.disk, source) ==> HasCopy(Next(cfg, w, step).disk, source)
  {
  }

  lemma CopiesStay<D(!new), S(!new)>(cfg: Config<D, S>, source: D, w: World<D>, step: Step<S>)
    requires Wellformed(w) && HasCopy(w.disk, source)
    ensures HasCopy(Next(cfg, w, step).disk, source)
  {
    var k :| 0 <= k < |w.disk.backups| && w.disk.backups[k].db == source;
    var after := Next(cfg, w, step).disk.backups;
    assert k < |after| && after[k].db == source;
  }

  lemma AdvanceKeeps<D(!new), S(!new)>(cfg: Config<D, S>, source: D, w: World<D>, stamp: S)
    requires cfg.inspect(source) && !cfg.verify(source) && Wellformed(w) && Kept(cfg, source, w)
    ensures Kept(cfg, source, Advanced(cfg, w, stamp))
  {
  }

  predicate Uninterrupted<D(!new), S(!new)>(cfg: Config<D, S>, w: World<D>, steps: seq<Step<S>>)
    requires Wellformed(w)
  {
    steps == []
    || (Uninterrupted(cfg, w, steps[..|steps| - 1]) && !Interrupted(Run(cfg, w, steps[..|steps| - 1]), steps[|steps| - 1]))
  }

  lemma {:induction false} RunKeeps<D(!new), S(!new)>(cfg: Config<D, S>, source: D, w: World<D>, steps: seq<Step<S>>)
    requires cfg.inspect(source) && !cfg.verify(source) && Wellformed(w) && Kept(cfg, source, w)
    requires Uninterrupted(cfg, w, steps)
    ensures Kept(cfg, source, Run(cfg, w, steps))
    ensures HasCopy(w.disk, source) ==> HasCopy(Run(cfg, w, steps).disk, source)
  {
    if steps != [] {
      RunKeeps(cfg, source, w, steps[..|steps| - 1]);
      StepKeeps(cfg, source, Run(cfg, w, steps[..|steps| - 1]), steps[|steps| - 1]);
    }
  }

  /** Before the first upgrade attempt: an unverified v8 or v9 database on the live path. */
  predicate Outdated<D, S>(cfg: Config<D, S>, disk: Disk<D>) {
    disk.live.Some? && cfg.inspect(disk.Logical().value) && !cfg.verify(disk.Logical().value)
  }

  predicate NoFault<S>(steps: seq<Step<S>>) {
    forall i :: 0 <= i < |steps| ==> !steps[i].Fault?
  }

  lemma {:induction false} NeverMovedAway<D(!new), S(!new)>(cfg: Config<D, S>, source: D, w: World<D>, steps: seq<Step<S>>)
    requires cfg.inspect(source) && !cfg.verify(source) && Wellformed(w) && Kept(cfg, source, w)
    requires NoFault(steps) && !w.phase.LiveMovedAway?
    ensures Kept(cfg, source, Run(cfg, w, steps)) && !Run(cfg, w, steps).phase.LiveMovedAway?
    ensures HasCopy(w.disk, source) ==> HasCopy(Run(cfg, w, steps).disk, source)
  {
    if steps != [] {
      NeverMovedAway(cfg, source, w, steps[..|steps| - 1]);
      StepKeeps(cfg, source, Run(cfg, w, steps[..|steps| - 1]), steps[|steps| - 1]);
    }
  }

  /** Upgrade swap safety: at every step boundary of every run whose post-swap verifications pass,
      crashes and reruns anywhere, the live path holds the complete source or a complete verified
      rebuild of it, and while an attempt is under way its backup is a complete copy. */
  lemma SwapSafety<D(!new), S(!new)>(cfg: Config<D, S>, disk: Disk<D>, steps: seq<Step<S>>)
    requires Outdated(cfg, disk) && LogExpendable(cfg, disk.Logical().value, disk) && NoFault(steps)
    ensures var source, w := disk.Logical().value, Run(cfg, World(disk, Idle), steps);
            && LiveComplete(cfg, source, w.disk)
            && (w.phase.Idle? || w.phase.Finished? || w.disk.backups[w.phase.backup].db == source)
  {
    NeverMovedAway(cfg, disk.Logical().value, World(disk, Idle), steps);
  }

  lemma {:induction false} RunAppend<D(!new), S(!new)>(cfg: Config<D, S>, w: World<D>, steps: seq<Step<S>>, more: seq<Step<S>>)
    requires Wellformed(w)
    ensures Run(cfg, w, steps + more) == Run(cfg, Run(cfg, w, steps), more)
  {
    if more == [] {
      assert steps + more == steps;
    } else {
      assert (steps + more)[..|steps + more| - 1] == steps + more[..|more| - 1];
      RunAppend(cfg, w, steps, more[..|more| - 1]);
    }
  }

  /** A complete copy made once is there from then on, whatever fails or crashes after it, even in
      the middle of a restore. */
  lemma {:induction false} CopyForGood<D(!new), S(!new)>(cfg: Config<D, S>, w: World<D>, source: D, steps: seq<Step<S>>)
    requires Wellformed(w) && HasCopy(w.disk, source)
    ensures HasCopy(Run(cfg, w, steps).disk, source)
  {
    if steps != [] {
      CopyForGood(cfg, w, source, steps[..|steps| - 1]);
      CopiesStay(cfg, source, Run(cfg, w, steps[..|steps| - 1]), steps[|steps| - 1]);
    }
  }

  /** What the program needs to carry on by itself: inside a restore the complete backup it is about to
      copy back, everywhere else a complete live path. */
  ghost predicate CarriesOn<D(!new), S(!new)>(cfg: Config<D, S>, source: D, w: World<D>)
    requires Wellformed(w)
  {
    if w.phase.LiveMovedAway? then w.disk.backups[w.phase.backup].db == source else LiveComplete(cfg, source, w.disk)
  }

  /** No live file, and no run under way that would put one there. */
  predicate Lost<D(==)>(w: World<D>) {
    w.disk.live.None? && (w.phase.Idle? || w.phase == Finished(NotUpgraded))
  }

  /** While the backup of a restore is not copied back, there is no live file. */
  predicate MovedMeansMissing<D(==)>(w: World<D>) {
    w.phase.LiveMovedAway? ==> w.disk.live.None?
  }

  lemma {:induction false} MovedIsMissing<D(!new), S(!new)>(cfg: Config<D, S>, w: World<D>, steps: seq<Step<S>>)
    requires Wellformed(w) && MovedMeansMissing(w)
    ensures MovedMeansMissing(Run(cfg, w, steps))
  {
    if steps != [] { MovedIsMissing(cfg, w, steps[..|steps| - 1]); }
  }

  lemma {:induction false} InterruptionLoses<D(!new), S(!new)>(cfg: Config<D, S>, w: World<D>, steps: seq<Step<S>>)
    requires Wellformed(w) && MovedMeansMissing(w) && !Uninterrupted(cfg, w, steps)
    ensures Lost(Run(cfg, w, steps))
  {
    var front := steps[..|steps| - 1];
    if Uninterrupted(cfg, w, front) { MovedIsMissing(cfg, w, front); } else { InterruptionLoses(cfg, w, front); }
  }

  /** With failing verifications too, the exact condition: after every run, with any faults and crashes,
      the program carries on by itself if and only if no crash fell between moving a failed upgrade away
      and copying the backup back. */
  lemma RestoreSafetyIff<D(!new), S(!new)>(cfg: Config<D, S>, disk: Disk<D>, steps: seq<Step<S>>)
    requires Outdated(cfg, disk) && LogExpendable(cfg, disk.Logical().value, disk)
    ensures Uninterrupted(cfg, World(disk, Idle), steps)
            <==> CarriesOn(cfg, disk.Logical().value, Run(cfg, World(disk, Idle), steps))
  {
    if Uninterrupted(cfg, World(disk, Idle), steps) {
      RunKeeps(cfg, disk.Logical().value, World(disk, Idle), steps);
    } else {
      InterruptionLoses(cfg, World(disk, Idle), steps);
    }
  }

  predicate HasLog<D(==)>(disk: Disk<D>, log: D) {
    disk.wal == Some(log) || exists k :: 0 <= k < |disk.backups| && disk.backups[k].wal == Some(log)
  }

  predicate LogKept<D(==)>(w: World<D>, log: D)
    requires Wellformed(w)
  {
    HasLog(w.disk, log) && (w.phase.BackedUp? || w.phase.Staged? ==> w.disk.backups[w.phase.backup].wal == None)
  }

  lemma StepKeepsLog<D(!new), S(!new)>(cfg: Config<D, S>, w: World<D>, step: Step<S>, log: D)
    requires Wellformed(w) && LogKept(w, log)
    ensures LogKept(Next(cfg, w, step), log)
  {
    var after := Next(cfg, w, step).disk.backups;
    if w.disk.wal == Some(log) {
      if w.phase.Staged? && step.Advance? { assert after[w.phase.backup].wal == Some(log); }
    } else {
      var k :| 0 <= k < |w.disk.backups| && w.disk.backups[k].wal == Some(log);
      assert k < |after| && after[k].wal == Some(log);
    }
  }

  /** Logged changes are never lost: a write-ahead log found at the start stays with the live file or
      lies next to a backup, through every crash and failure. */
  lemma {:induction false} LogForGood<D(!new), S(!new)>(cfg: Config<D, S>, w: World<D>, steps: seq<Step<S>>, log: D)
    requires Wellformed(w) && LogKept(w, log)
    ensures LogKept(Run(cfg, w, steps), log)
  {
    if steps != [] {
      LogForGood(cfg, w, steps[..|steps| - 1], log);
      StepKeepsLog(cfg, Run(cfg, w, steps[..|steps| - 1]), steps[|steps| - 1], log);
    }
  }

  // ---------- the two ways it can fail ----------

  lemma {:induction false} MissingStaysMissing<D(!new), S(!new)>(cfg: Config<D, S>, w: World<D>, steps: seq<Step<S>>)
    requires w.disk.live.None? && (w.phase.Idle? || w.phase == Finished(NotUpgraded))
    ensures var after := Run(cfg, w, steps);
            after.disk == w.disk && (after.phase.Idle? || after.phase == Finished(NotUpgraded))
  {
    if steps != [] { MissingStaysMissing(cfg, w, steps[..|steps| - 1]); }
  }

  function Advances<S(!new)>(stamp: S, n: nat): (r: seq<Step<S>>)
    ensures |r| == n && NoFault(r)
  {
    if n == 0 then [] else Advances(stamp, n - 1) + [Advance(stamp)]
  }

  lemma AdvancesOne<D(!new), S(!new)>(cfg: Config<D, S>, w: World<D>, stamp: S, n: nat)
    requires Wellformed(w)
    ensures Run(cfg, w, Advances(stamp, n + 1)) == Advanced(cfg, Run(cfg, w, Advances(stamp, n)), stamp)
  {
  }

  predicate Rebuildable<D, S>(cfg: Config<D, S>, source: D, stamp: S) {
    cfg.rebuild(source, stamp).Some? && cfg.verify(cfg.rebuild(source, stamp).value)
  }

  /** An attempt that starts on the source reaches its third statement with the log moved away. */
  lemma ReachesWalMoved<D(!new), S(!new)>(cfg: Config<D, S>, disk: Disk<D>, stamp: S)
    requires Outdated(cfg, disk) && Rebuildable(cfg, disk.Logical().value, stamp)
    ensures var w := Run(cfg, World(disk, Idle), Advances(stamp, 3));
            && w.phase.WalMoved? && w.disk.live == disk.live && w.disk.wal.None?
            && w.phase.stage == cfg.rebuild(disk.Logical().value, stamp).value
            && w.disk.backups[w.phase.backup].db == disk.Logical().value
  {
    AdvancesOne(cfg, World(disk, Idle), stamp, 0);
    AdvancesOne(cfg, World(disk, Idle), stamp, 1);
    AdvancesOne(cfg, World(disk, Idle), stamp, 2);
  }

  /** An outdated database whose upgrade fails its post-swap verification is moved away, with the
      source in the backup and no live file. */
  lemma FaultMovesLiveAway<D(!new), S(!new)>(cfg: Config<D, S>, disk: Disk<D>, stamp: S)
    requires Outdated(cfg, disk) && Rebuildable(cfg, disk.Logical().value, stamp)
    ensures var w := Run(cfg, World(disk, Idle), Advances(stamp, 5) + [Fault]);
            && w.phase.LiveMovedAway? && w.disk.live.None? && Wellformed(w)
            && w.disk.backups[w.phase.backup].db == disk.Logical().value
  {
    ReachesWalMoved(cfg, disk, stamp);
    AdvancesOne(cfg, World(disk, Idle), stamp, 3);
    AdvancesOne(cfg, World(disk, Idle), stamp, 4);
    assert (Advances(stamp, 5) + [Fault])[..5] == Advances(stamp, 5);
  }

  /** A crash inside a restore leaves no live database, and no later run puts one back: each reports
      that there was nothing to upgrade, while the complete copy lies among the backups. Any outdated
      database that can be rebuilt comes to this by one failed verification and one crash. */
  lemma InterruptedRestoreIsFinal<D(!new), S(!new)>(cfg: Config<D, S>, disk: Disk<D>, stamp: S, steps: seq<Step<S>>)
    requires Outdated(cfg, disk) && Rebuildable(cfg, disk.Logical().value, stamp)
    ensures var w := Run(cfg, World(disk, Idle), Advances(stamp, 5) + [Fault] + [Crash] + steps);
            Lost(w) && HasCopy(w.disk, disk.Logical().value)
  {
    var failed := Advances(stamp, 5) + [Fault];
    var w := Run(cfg, World(disk, Idle), failed);
    FaultMovesLiveAway(cfg, disk, stamp);
    assert (failed + [Crash])[..|failed|] == failed;
    assert Run(cfg, World(disk, Idle), failed + [Crash]) == World(w.disk, Idle);
    RunAppend(cfg, World(disk, Idle), failed + [Crash], steps);
    MissingStaysMissing(cfg, World(w.disk, Idle), steps);
  }

  /** A log that cannot be spared is missed: the third statement moves it away, and a crash then leaves
      neither the source nor a rebuild of it on the live path. */
  lemma MovedLogIsMissed<D(!new), S(!new)>(cfg: Config<D, S>, disk: Disk<D>, stamp: S)
    requires Outdated(cfg, disk) && Rebuildable(cfg, disk.Logical().value, stamp)
    requires !LogExpendable(cfg, disk.Logical().value, disk)
    ensures NoFault(Advances(stamp, 3) + [Crash])
    ensures !LiveComplete(cfg, disk.Logical().value, Run(cfg, World(disk, Idle), Advances(stamp, 3) + [Crash]).disk)
  {
    ReachesWalMoved(cfg, disk, stamp);
    assert (Advances(stamp, 3) + [Crash])[..3] == Advances(stamp, 3);
  }

  /** The log's own exact condition: swap safety of a source that can be rebuilt holds if and only if
      the live file is complete without its log. */
  lemma SwapSafetyIff<D(!new), S(!new)>(cfg: Config<D, S>, disk: Disk<D>, stamp: S)
    requires Outdated(cfg, disk) && Rebuildable(cfg, disk.Logical().value, stamp)
    ensures LogExpendable(cfg, disk.Logical().value, disk) <==>
            forall steps: seq<Step<S>> :: NoFault(steps) ==>
              LiveComplete(cfg, disk.Logical().value, Run(cfg, World(disk, Idle), steps).disk)
  {
    if LogExpendable(cfg, disk.Logical().value, disk) {
      forall steps: seq<Step<S>> | NoFault(steps)
        ensures LiveComplete(cfg, disk.Logical().value, Run(cfg, World(disk, Idle), steps).disk)
      {
        SwapSafety(cfg, disk, steps);
      }
    } else {
      MovedLogIsMissed(cfg, disk, stamp);
    }
  }

  /** A log that holds nothing the file lacks can always be spared; for a file that is not itself
      current, no other can. */
  lemma CheckpointedIff<D(!new), S(!new)>(cfg: Config<D, S>, disk: Disk<D>)
    requires Outdated(cfg, disk)
    ensures Checkpointed(disk) ==> LogExpendable(cfg, disk.Logical().value, disk)
    ensures !cfg.verify(disk.live.value) ==> (LogExpendable(cfg, disk.Logical().value, disk) <==> Checkpointed(disk))
  {
  }

  // ---------- rerunning ----------

  /** From wherever a run was, crashing and running again to the end under ids for which the source
      can be rebuilt leaves a complete verified rebuild of the source on the live path. */
  lemma RerunCompletes<D(!new), S(!new)>(cfg: Config<D, S>, disk: Disk<D>, steps: seq<Step<S>>, stamp: S)
    requires Outdated(cfg, disk) && LogExpendable(cfg, disk.Logical().value, disk) && NoFault(steps)
    requires Rebuildable(cfg, disk.Logical().value, stamp)
    ensures var source, w := disk.Logical().value, Run(cfg, World(disk, Idle), steps + [Crash] + Advances(stamp, 6));
            && (w.phase == Finished(Upgraded) || w.phase == Finished(AlreadyCurrent))
            && w.disk.Logical().Some? && IsUpgrade(cfg, source, w.disk.Logical().value)
  {
    var source, before := disk.Logical().value, Run(cfg, World(disk, Idle), steps);
    NeverMovedAway(cfg, source, World(disk, Idle), steps);
    RunAppend(cfg, World(disk, Idle), steps + [Crash], Advances(stamp, 6));
    assert (steps + [Crash])[..|steps|] == steps;
    var w := World(before.disk, Idle);
    assert Run(cfg, World(disk, Idle), steps + [Crash]) == w;
    if cfg.verify(w.disk.Logical().value) { StaysCurrent(cfg, w, stamp, 6); } else { AttemptCompletes(cfg, w, stamp); }
  }

  lemma {:induction false} StaysCurrent<D(!new), S(!new)>(cfg: Config<D, S>, w: World<D>, stamp: S, n: nat)
    requires w.phase.Idle? && w.disk.live.Some? && cfg.verify(w.disk.Logical().value) && n > 0
    ensures Run(cfg, w, Advances(stamp, n)) == World(w.disk, Finished(AlreadyCurrent))
  {
    AdvancesOne(cfg, w, stamp, n - 1);
    if n > 1 { StaysCurrent(cfg, w, stamp, n - 1); }
  }

  lemma AttemptCompletes<D(!new), S(!new)>(cfg: Config<D, S>, w: World<D>, stamp: S)
    requires w.phase.Idle? && Outdated(cfg, w.disk) && Rebuildable(cfg, w.disk.Logical().value, stamp)
    ensures var after := Run(cfg, w, Advances(stamp, 6));
            && after.phase == Finished(Upgraded) && after.disk.wal.None?
            && after.disk.live == cfg.rebuild(w.disk.Logical().value, stamp)
            && IsUpgrade(cfg, w.disk.Logical().value, after.disk.live.value)
  {
    AdvancesOne(cfg, w, stamp, 0);
    AdvancesOne(cfg, w, stamp, 1);
    AdvancesOne(cfg, w, stamp, 2);
    AdvancesOne(cfg, w, stamp, 3);
    AdvancesOne(cfg, w, stamp, 4);
    AdvancesOne(cfg, w, stamp, 5);
  }
}
