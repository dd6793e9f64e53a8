/**
 * The launcher as the object it is: fields, handlers, loops over the database files. Every method
 * logs each durable operation as a step of LauncherModel, so that whatever a method does is a run
 * of that system and every promise about runs is a promise about it. A crash is a run cut short:
 * the log holds every state in which that can happen.
 *
 * Operations that may fail choose freely whether to. A method that returns `threw` has met an
 * exception that its caller does not catch.
 */
module Launcher {
  import opened Optional
  import opened ServiceVersion
  import opened LauncherModel
  import opened LauncherSafety
  import opened LauncherTheorems
  import opened LauncherUpdates

  lemma AtStartingTrial(s: State)
    requires Inv(s) && s.point.StartingTrial?
    ensures s.alive == map[] && s.point.p.id in s.disk.backups && s.before.Some?
    ensures CopiedUpTo(s.disk.backups[s.point.p.id].files, s.before.value, s.point.p.dbPath, |SUFFIXES|)
  {
    hide Precedes;
  }

  lemma AtReturning(s: State)
    requires Inv(s) && s.point.Returning?
    ensures s.alive == map[] && s.child.None? && s.before.Some? && s.memory == s.disk.record
    ensures s.memory == ServiceState(s.point.p.fromVersion, Some(Awaiting(s.point.p)))
  {
    hide Precedes;
  }

  lemma AtStartingActive(s: State)
    requires Inv(s) && s.point.StartingActive?
    ensures s.alive == map[] && s.child.None? && s.point.v == s.disk.record.activeVersion
  {
    hide Precedes;
  }

  lemma AtTerminating(s: State)
    requires Inv(s) && s.point.Terminating?
    ensures s.child.None? && s.alive.Keys <= {s.point.number}
  {
    hide Precedes;
  }

  lemma AtIdle(s: State)
    requires Inv(s) && s.point.Idle?
    ensures s.child.Some? && s.alive.Keys <= {s.child.value.number} && s.memory == s.disk.record
    ensures s.child.value.role == Trial ==>
      IsPending(s.memory) && s.memory.update.value.p.targetVersion == s.child.value.version
    ensures IsPending(s.memory) ==> s.memory.update.value.p.fromVersion == s.memory.activeVersion
  {
    hide Precedes;
  }

  lemma AtRecovering(s: State)
    requires Inv(s) && s.point.Recovering?
    ensures s.alive == map[] && s.child.None? && s.memory == s.disk.record
  {
    hide Precedes;
  }

  lemma AtFailing(s: State)
    requires Inv(s) && s.point.Failing?
    ensures s.child.None? ==> s.alive == map[]
  {
    hide Precedes;
  }

  lemma TrialStarts(s: State)
    requires s.point.StartingTrial?
    ensures s.point.p.targetVersion in s.disk.runtimes ==>
      Enabled(s, Continue)
        && After(s, Continue) == Spawn(s.(trialed := s.trialed + {s.point.p.id}), s.point.p.targetVersion, Trial)
    ensures Enabled(s, SpawnFails) && After(s, SpawnFails) == s.(point := Returning(s.point.p, Failed))
  {
  }

  lemma ActiveStarts(s: State)
    requires s.point.StartingActive?
    ensures s.point.v in s.disk.runtimes ==> Enabled(s, Continue) && After(s, Continue) == Spawn(s, s.point.v, Active)
    ensures Enabled(s, SpawnFails) && After(s, SpawnFails) == s.(point := Failing)
  {
  }

  lemma ExitIsHandled(s: State, number: nat)
    requires s.point.Idle? && Manages(s, number) && number !in s.alive
    ensures Enabled(s, ExitHandled(number)) && After(s, ExitHandled(number)) == OnExit(s, s.child.value)
  {
  }

  /** An event of a child that is not managed, or not in the role the event is for, changes nothing. */
  lemma StaleStays(s: State, step: Step)
    requires Enabled(s, step)
    requires
      || (step.BeginTrial? && !(Manages(s, step.number) && s.child.value.role == Active && IsPending(s.memory)))
      || (step.PreparedTimeout? && !(Manages(s, step.number) && s.child.value.role == Trial && IsPending(s.memory)))
      || (step.ExitHandled? && !Manages(s, step.number))
    ensures After(s, step) == s
  {
  }

  /** The disks differ at most in the staging directory of one update, which the second one has. */
  predicate OnlyStaging(before: Disk, after: Disk, id: string) {
    && after == before.(staging := after.staging) && id in after.staging
  }

  class Launcher {
    // the world: durable files, processes, and the number of the next process
    var disk: Disk
    var alive: map<nat, Version>
    var spawned: nat
    // the launcher process
    var state: ServiceState
    var child: Option<Child>
    var timer: Option<Alarm>
    // the run so far
    ghost var here: State
    ghost var states: seq<State>
    ghost var steps: seq<Step>

    /** The log is a run from a fresh installation that ends in `here`. */
    ghost predicate Logged()
      reads this
    {
      IsRun(states, steps) && Initial(states[0]) && states[|steps|] == here && Inv(here)
    }

    /** The fields are those of the last logged state, and its program point is the given one. */
    ghost predicate At(point: Point)
      reads this
    {
      && Logged()
      && here.point == point && here.disk == disk && here.alive == alive
      && here.spawned == spawned && here.memory == state && here.child == child && here.timer == timer
    }

    /** What was logged stays logged. */
    twostate predicate Extended()
      reads this
    {
      old(steps) <= steps && old(states) <= states
    }

    ghost method Log(step: Step)
      requires Logged() && Enabled(here, step)
      modifies this`here, this`states, this`steps
      ensures Logged() && here == After(old(here), step) && Extended()
    {
      hide Inv;
      hide After;
      hide Enabled;
      hide Initial;
      StepPreserves(here, step);
      here := After(here, step);
      states := states + [here];
      steps := steps + [step];
    }

    /** A new launcher process, over whatever the run so far has left on disk. */
    constructor (world: Disk, next: nat, ghost earlier: seq<State>, ghost taken: seq<Step>)
      requires IsRun(earlier, taken) && Initial(earlier[0])
      requires earlier[|taken|].point == Down && earlier[|taken|].disk == world && earlier[|taken|].spawned == next
      ensures At(Recovering) && disk == world && state == world.record && child.None? && timer.None? && alive == map[]
      ensures steps == taken + [Boot] && states[..|earlier|] == earlier
    {
      disk, alive, spawned, state, child, timer := world, map[], next, world.record, None, None;
      var boot := After(earlier[|taken|], Boot);
      here, states, steps := boot, earlier + [boot], taken + [Boot];
      new;
      RunKeepsInv(earlier, taken, |taken|);
      StepPreserves(earlier[|taken|], Boot);
      AtRecovering(here);
      hide Inv;
    }

    /** A sidecar that does not exist is skipped. */
    method SkipFile(p: Pending, i: nat)
      requires At(Snapshotting(p, i)) && i < |SUFFIXES| && p.id in disk.staging
      requires p.dbPath + SUFFIXES[i] !in disk.files && SUFFIXES[i] != ""
      modifies this
      ensures Extended() && disk == old(disk) && spawned == old(spawned) && alive == old(alive)
      ensures At(Snapshotting(p, i + 1))
    {
      hide Inv;
      hide IsRun;
      hide Initial;
      hide Compare;
      Log(Continue);
    }

    /** While a file is copied its target holds anything. */
    method TearFile(p: Pending, i: nat)
      requires At(Snapshotting(p, i)) && i < |SUFFIXES| && p.id in disk.staging
      requires p.dbPath + SUFFIXES[i] in disk.files
      modifies this
      ensures Extended() && OnlyStaging(old(disk), disk, p.id) && spawned == old(spawned) && alive == old(alive)
      ensures At(Snapshotting(p, i))
    {
      hide Inv;
      hide IsRun;
      hide Initial;
      hide Compare;
      var partial: Content := *;
      disk := disk.(staging := disk.staging[p.id := disk.staging[p.id][SUFFIXES[i] := partial]]);
      Log(Torn(partial));
    }

    method CopyFile(p: Pending, i: nat)
      requires At(Snapshotting(p, i)) && i < |SUFFIXES| && p.id in disk.staging
      requires p.dbPath + SUFFIXES[i] in disk.files
      modifies this
      ensures Extended() && OnlyStaging(old(disk), disk, p.id) && spawned == old(spawned) && alive == old(alive)
      ensures At(Snapshotting(p, i + 1))
      ensures SUFFIXES[i] in disk.staging[p.id]
        && disk.staging[p.id][SUFFIXES[i]] == old(disk).files[p.dbPath + SUFFIXES[i]]
    {
      hide Inv;
      hide IsRun;
      hide Initial;
      hide Compare;
      var contents := disk.files[p.dbPath + SUFFIXES[i]];
      disk := disk.(staging := disk.staging[p.id := disk.staging[p.id][SUFFIXES[i] := contents]]);
      Log(Continue);
    }

    /** Copy one database file into the staging directory. */
    method StageFile(p: Pending, i: nat) returns (failed: bool)
      requires At(Snapshotting(p, i)) && i < |SUFFIXES| && p.id in disk.staging
      modifies this
      ensures Extended() && OnlyStaging(old(disk), disk, p.id)
      ensures spawned == old(spawned) && alive == old(alive)
      ensures At(Snapshotting(p, if failed then i else i + 1))
    {
      hide Inv;
      hide IsRun;
      hide Initial;
      hide Compare;
      hide After;
      hide Enabled;
      if p.dbPath + SUFFIXES[i] !in disk.files {
        if SUFFIXES[i] == "" {
          return true;
        }
        SkipFile(p, i);
        return false;
      }
      TearFile(p, i);
      if * {
        return true;
      }
      CopyFile(p, i);
      return false;
    }

    method StageFiles(p: Pending) returns (failed: bool)
      requires At(Snapshotting(p, 0)) && p.id in disk.staging
      modifies this
      ensures Extended() && OnlyStaging(old(disk), disk, p.id)
      ensures spawned == old(spawned) && alive == old(alive)
      ensures here.point.Snapshotting? && At(Snapshotting(p, here.point.i)) && (!failed ==> here.point.i == |SUFFIXES|)
    {
      hide Inv;
      hide IsRun;
      hide Initial;
      hide After;
      hide Enabled;
      failed := false;
      var i := 0;
      while i < |SUFFIXES| && !failed
        invariant 0 <= i <= |SUFFIXES| && At(Snapshotting(p, i)) && Extended()
        invariant alive == old(alive) && spawned == old(spawned)
        invariant OnlyStaging(old(disk), disk, p.id)
        invariant here.point == Snapshotting(p, i)
        decreases |SUFFIXES| - i, !failed
      {
        failed := StageFile(p, i);
        i := if failed then i else i + 1;
      }
    }

    /** A backup that is there is never taken again. */
    method ReuseBackup(p: Pending)
      requires At(CheckingBackup(p)) && p.id in disk.backups
      modifies this
      ensures Extended() && alive == old(alive) && spawned == old(spawned) && disk == old(disk)
      ensures At(StartingTrial(p)) && here.before.Some?
      ensures CopiedUpTo(disk.backups[p.id].files, here.before.value, p.dbPath, |SUFFIXES|)
    {
      hide Inv;
      hide IsRun;
      hide Initial;
      hide Compare;
      Log(Continue);
      AtStartingTrial(here);
    }

    /** Snapshot the database once per update. */
    method BackupDatabaseOnce(p: Pending) returns (threw: bool)
      requires At(CheckingBackup(p))
      modifies this
      ensures Extended() && alive == old(alive) && spawned == old(spawned)
      ensures disk.files == old(disk.files) && disk.record == old(disk.record)
      ensures threw ==> At(Returning(p, Failed))
      ensures !threw ==> At(StartingTrial(p)) && p.id in disk.backups && here.before.Some?
      ensures !threw ==> CopiedUpTo(disk.backups[p.id].files, here.before.value, p.dbPath, |SUFFIXES|)
      ensures p.id in old(disk.backups) ==> disk.backups == old(disk.backups)
    {
      hide Inv;
      hide IsRun;
      hide Initial;
      hide Compare;
      hide After;
      hide Enabled;
      if p.id in disk.backups {
        ReuseBackup(p);
        return false;
      }
      threw := TakeBackup(p);
    }

    method TakeBackup(p: Pending) returns (threw: bool)
      requires At(CheckingBackup(p)) && p.id !in disk.backups
      modifies this
      ensures Extended() && alive == old(alive) && spawned == old(spawned)
      ensures disk.files == old(disk.files) && disk.record == old(disk.record)
      ensures threw ==> At(Returning(p, Failed))
      ensures !threw ==> At(StartingTrial(p)) && p.id in disk.backups && here.before.Some?
      ensures !threw ==> CopiedUpTo(disk.backups[p.id].files, here.before.value, p.dbPath, |SUFFIXES|)
    {
      hide Inv;
      hide IsRun;
      hide Initial;
      hide Compare;
      hide After;
      hide Enabled;
      hide CopiedUpTo;
      ClearStaging(p);
      threw := StageFiles(p);
      if !threw {
        threw := PublishBackup(p);
      }
      if threw {
        AbandonStaging(p);
      }
    }

    method ClearStaging(p: Pending)
      requires At(CheckingBackup(p)) && p.id !in disk.backups
      modifies this
      ensures Extended() && OnlyStaging(old(disk), disk, p.id)
      ensures spawned == old(spawned) && alive == old(alive)
      ensures At(Snapshotting(p, 0))
    {
      hide Inv;
      hide IsRun;
      hide Initial;
      hide Compare;
      Log(Continue);
      disk := disk.(staging := disk.staging[p.id := map[]]);
      Log(Continue);
    }

    method AbandonStaging(p: Pending)
      requires (here.point.Snapshotting? || here.point.SyncingBackup?) && here.point.p == p && At(here.point)
      modifies this
      ensures Extended() && disk == old(disk).(staging := disk.staging)
      ensures spawned == old(spawned) && alive == old(alive)
      ensures At(Returning(p, Failed))
    {
      hide Inv;
      hide IsRun;
      hide Initial;
      hide Compare;
      Log(IoFails);
      disk := disk.(staging := disk.staging - {p.id});
      Log(Continue);
    }

    /** One rename makes the staged copy the backup; only then is its directory synced. */
    method PublishBackup(p: Pending) returns (threw: bool)
      requires At(Snapshotting(p, |SUFFIXES|)) && p.id in disk.staging
      modifies this
      ensures Extended() && alive == old(alive) && spawned == old(spawned)
      ensures disk.files == old(disk.files) && disk.record == old(disk.record)
      ensures threw ==> At(SyncingBackup(p))
      ensures !threw ==> At(StartingTrial(p)) && p.id in disk.backups && here.before.Some?
      ensures !threw ==> CopiedUpTo(disk.backups[p.id].files, here.before.value, p.dbPath, |SUFFIXES|)
    {
      hide Inv;
      hide IsRun;
      hide Initial;
      hide Compare;
      var complete := disk.staging[p.id];
      disk := disk.(staging := disk.staging - {p.id}, backups := disk.backups[p.id := Backup(complete, false)]);
      Log(Continue);
      if * {
        return true;
      }
      Log(Continue);
      AtStartingTrial(here);
      return false;
    }

    method RemoveFile(p: Pending, status: Status, i: nat)
      requires At(Restoring(p, status, i)) && i < |SUFFIXES| && p.id in disk.backups
        && SUFFIXES[i] !in disk.backups[p.id].files
      modifies this
      ensures Extended() && disk == old(disk).(files := disk.files)
      ensures spawned == old(spawned) && alive == old(alive) && here.before == old(here.before)
      ensures At(Restoring(p, status, i + 1))
    {
      hide Inv;
      hide IsRun;
      hide Initial;
      hide Compare;
      disk := disk.(files := Removed(disk.files, p.dbPath + SUFFIXES[i]));
      Log(Continue);
    }

    /** Put one database file back, or remove it when the backup has none. */
    method RestoreFile(p: Pending, status: Status, i: nat) returns (threw: bool)
      requires At(Restoring(p, status, i)) && i < |SUFFIXES| && p.id in disk.backups
      modifies this
      ensures Extended() && disk == old(disk).(files := disk.files)
      ensures spawned == old(spawned) && alive == old(alive) && here.before == old(here.before)
      ensures At(if threw then Failing else Restoring(p, status, i + 1))
    {
      hide Inv;
      hide IsRun;
      hide Initial;
      hide Compare;
      var target, files := p.dbPath + SUFFIXES[i], disk.backups[p.id].files;
      if SUFFIXES[i] !in files {
        RemoveFile(p, status, i);
        return false;
      }
      var partial: Content := *;
      disk := disk.(files := disk.files[target := partial]);
      Log(Torn(partial));
      if * {
        Log(IoFails);
        return true;
      }
      disk := disk.(files := disk.files[target := files[SUFFIXES[i]]]);
      Log(Continue);
      return false;
    }

    method RestoreFiles(p: Pending, status: Status) returns (threw: bool)
      requires At(Restoring(p, status, 0)) && p.id in disk.backups
      modifies this
      ensures Extended() && disk == old(disk).(files := disk.files)
      ensures spawned == old(spawned) && alive == old(alive) && here.before == old(here.before)
      ensures At(if threw then Failing else Restoring(p, status, |SUFFIXES|))
    {
      hide Inv;
      hide IsRun;
      hide Initial;
      hide After;
      hide Enabled;
      threw := false;
      var i := 0;
      while i < |SUFFIXES|
        invariant 0 <= i <= |SUFFIXES| && At(Restoring(p, status, i)) && Extended()
        invariant alive == old(alive) && spawned == old(spawned) && disk == old(disk).(files := disk.files)
        invariant here.before == old(here.before)
      {
        threw := RestoreFile(p, status, i);
        if threw {
          return;
        }
        i := i + 1;
      }
    }

    method MarkDatabaseRestorePending(p: Pending, status: Status)
      requires At(Returning(p, status)) && p.id in disk.backups
      modifies this
      ensures Extended() && disk ==
        old(disk).(backups := old(disk).backups[p.id := old(disk).backups[p.id].(restorePending := true)])
      ensures spawned == old(spawned) && alive == old(alive) && here.before == old(here.before)
      ensures At(Restoring(p, status, 0))
    {
      hide Inv;
      hide IsRun;
      hide Initial;
      hide Compare;
      Log(Continue);
      disk := disk.(backups := disk.backups[p.id := disk.backups[p.id].(restorePending := true)]);
      Log(Continue);
    }

    /** All files are back, or there never was a backup and none was touched. */
    method EnterSettling(p: Pending, status: Status)
      requires At(Restoring(p, status, |SUFFIXES|)) || (At(Returning(p, status)) && p.id !in disk.backups)
      modifies this
      ensures Extended() && disk == old(disk) && alive == old(alive) && spawned == old(spawned)
      ensures At(Settling(p, status)) && here.before == old(here.before) && here.before.Some?
      ensures SameDatabase(disk.files, here.before.value, p.dbPath)
    {
      hide Inv;
      hide IsRun;
      hide Initial;
      hide Compare;
      Log(Continue);
      AtSettling(here);
    }

    /** Mark the restore, then put every file back; a restore that was cut short starts over. */
    method RestoreDatabaseBackup(p: Pending, status: Status) returns (threw: bool)
      requires At(Returning(p, status))
      modifies this
      ensures Extended() && alive == old(alive) && spawned == old(spawned) && disk.record == old(disk.record)
      ensures threw ==> At(Failing)
      ensures !threw ==> At(Settling(p, status)) && here.before == old(here.before) && here.before.Some?
      ensures !threw ==> SameDatabase(disk.files, here.before.value, p.dbPath)
    {
      hide Inv;
      hide IsRun;
      hide Initial;
      hide Compare;
      hide After;
      hide Enabled;
      hide SameDatabase;
      if p.id !in disk.backups {
        EnterSettling(p, status);
        return false;
      }
      threw := PutFilesBack(p, status);
    }

    method PutFilesBack(p: Pending, status: Status) returns (threw: bool)
      requires At(Returning(p, status)) && p.id in disk.backups
      modifies this
      ensures Extended() && alive == old(alive) && spawned == old(spawned) && disk.record == old(disk.record)
      ensures threw ==> At(Failing)
      ensures !threw ==> At(Settling(p, status)) && here.before == old(here.before) && here.before.Some?
      ensures !threw ==> SameDatabase(disk.files, here.before.value, p.dbPath)
    {
      hide Inv;
      hide IsRun;
      hide Initial;
      hide Compare;
      hide After;
      hide Enabled;
      hide SameDatabase;
      MarkDatabaseRestorePending(p, status);
      threw := RestoreFiles(p, status);
      if !threw {
        EnterSettling(p, status);
      }
    }

    /** A child that was told to stop may go on writing until it is gone. */
    method AwaitExit(number: nat, next: Next)
      requires At(Terminating(number, next))
      modifies this
      ensures Extended() && At(AfterExit(next)) && alive == map[] && disk.record == old(disk.record)
    {
      hide Inv;
      hide IsRun;
      hide Initial;
      hide Compare;
      AtTerminating(here);
      if number in alive {
        var last: Files := *;
        disk := disk.(files := last);
        Log(ChildWrites(last));
        alive := alive - {number};
        Log(ChildExits(number));
      }
      Log(Continue);
    }

    method StartActive(v: Version) returns (threw: bool)
      requires At(StartingActive(v))
      modifies this
      ensures Extended() && disk == old(disk)
      ensures threw ==> At(Failing)
      ensures !threw ==> At(Idle) && child == Some(Child(old(spawned), v, Active)) && alive == map[old(spawned) := v]
    {
      hide Inv;
      hide IsRun;
      hide Initial;
      hide Compare;
      AtStartingActive(here);
      ActiveStarts(here);
      hide After;
      hide Enabled;
      var spawnError: bool := *;
      if v !in disk.runtimes || spawnError {
        Log(SpawnFails);
        return true;
      }
      alive, child, spawned := alive[spawned := v], Some(Child(spawned, v, Active)), spawned + 1;
      Log(Continue);
      return false;
    }

    /** One entry after the other is removed, and whatever is left is what a crash would leave. */
    method DiscardEntry(id: string, restart: Option<Version>)
      requires At(Discarding(id, restart)) && id in disk.backups
      modifies this
      ensures Extended() && At(Discarding(id, restart)) && id in disk.backups
      ensures disk == old(disk).(backups := disk.backups) && alive == old(alive) && child == old(child)
      ensures spawned == old(spawned) && state == old(state)
      ensures forall other :: other != id ==>
        (other in disk.backups <==> other in old(disk.backups))
        && (other in disk.backups ==> disk.backups[other] == old(disk.backups)[other])
    {
      hide Inv;
      hide IsRun;
      hide Initial;
      hide Compare;
      var left: Backup := *;
      disk := disk.(backups := disk.backups[id := left]);
      Log(DiscardPart(left));
    }

    /** A failure to remove the backup, or all of it, is ignored. */
    method DiscardDatabaseBackup(id: string, restart: Option<Version>)
      requires At(Discarding(id, restart))
      modifies this
      ensures Extended() && At(if restart.Some? then StartingActive(restart.value) else Idle)
      ensures disk.record == old(disk.record) && disk.files == old(disk.files) && alive == old(alive)
        && child == old(child)
      ensures spawned == old(spawned) && state == old(state)
    {
      hide Inv;
      hide IsRun;
      hide Initial;
      hide Compare;
      if id in disk.backups {
        var parts: int := *;
        while parts > 0
          invariant Extended() && At(Discarding(id, restart)) && id in disk.backups
          invariant disk == old(disk).(backups := disk.backups) && alive == old(alive) && child == old(child)
          invariant spawned == old(spawned) && state == old(state)
        {
          DiscardEntry(id, restart);
          parts := parts - 1;
        }
      }
      var removed := *;
      if removed {
        disk := disk.(backups := disk.backups - {id});
      }
      Log(DiscardEnds(removed));
    }

    /**
     * Restore, settle the record, discard the backup, start the previous version. When it comes
     * to the end the previous server runs on the database that the old child left.
     */
    method ReturnToPrevious(p: Pending, status: Status) returns (threw: bool)
      requires At(Returning(p, status))
      modifies this
      ensures Extended()
      ensures threw ==> At(Failing)
      ensures !threw ==> At(Idle) && alive == map[old(spawned) := p.fromVersion] && old(here.before).Some?
      ensures !threw ==> child == Some(Child(old(spawned), p.fromVersion, Active))
      ensures !threw ==> disk.record == ServiceState(p.fromVersion, Some(Terminal(p, status)))
      ensures !threw ==> SameDatabase(disk.files, old(here.before).value, p.dbPath)
    {
      hide Inv;
      hide IsRun;
      hide Initial;
      hide Compare;
      hide After;
      hide Enabled;
      AtReturning(here);
      threw := RestoreDatabaseBackup(p, status);
      if threw { return; }
      threw := WriteTerminal(p, status);
      if threw { return; }
      DiscardDatabaseBackup(p.id, Some(p.fromVersion));
      threw := StartActive(p.fromVersion);
    }

    /** The write that settles a rollback may fail, or be cut short on either side of its taking effect. */
    method WriteTerminal(p: Pending, status: Status) returns (threw: bool)
      requires At(Settling(p, status))
      modifies this
      ensures Extended() && disk == old(disk).(record := disk.record) && alive == old(alive) && spawned == old(spawned)
      ensures threw ==> At(Failing)
      ensures !threw ==> At(Discarding(p.id, Some(p.fromVersion)))
      ensures !threw ==> disk.record == ServiceState(p.fromVersion, Some(Terminal(p, status)))
    {
      hide Inv;
      hide IsRun;
      hide Initial;
      hide Compare;
      var next := ServiceState(p.fromVersion, Some(Terminal(p, status)));
      var io: Io := *;
      if !io.LostBefore? {
        disk := disk.(record := next);
      }
      if io.Done? {
        state := next;
      }
      Log(SettlingWrite(io));
      return !io.Done?;
    }

    method SpawnTrial(p: Pending) returns (failed: bool)
      requires At(StartingTrial(p))
      modifies this
      ensures Extended() && disk == old(disk)
      ensures failed ==> At(Returning(p, Failed))
      ensures !failed ==>
        && At(Idle) && child == Some(Child(old(spawned), p.targetVersion, Trial))
        && alive == map[old(spawned) := p.targetVersion]
    {
      hide Inv;
      hide IsRun;
      hide Initial;
      hide Compare;
      AtStartingTrial(here);
      TrialStarts(here);
      hide After;
      hide Enabled;
      var spawnError: bool := *;
      if p.targetVersion in disk.runtimes && !spawnError {
        alive, child := alive[spawned := p.targetVersion], Some(Child(spawned, p.targetVersion, Trial));
        timer, spawned := Some(PreparedDue(spawned)), spawned + 1;
        Log(Continue);
        return false;
      }
      Log(SpawnFails);
      return true;
    }

    /** The previous child is dead: back up, then start the candidate; either failing leads back. */
    method StartTrial(p: Pending) returns (threw: bool)
      requires At(CheckingBackup(p))
      modifies this
      ensures Extended()
      ensures threw ==> At(Failing)
      ensures !threw ==> At(Idle)
      ensures !threw && child.value.role == Trial ==>
        alive == map[child.value.number := p.targetVersion] && p.id in disk.backups
      ensures !threw && child.value.role == Active ==>
        disk.record == ServiceState(p.fromVersion, Some(Terminal(p, Failed)))
    {
      hide Inv;
      hide IsRun;
      hide Initial;
      hide Compare;
      hide After;
      hide Enabled;
      var failed := BackupDatabaseOnce(p);
      if !failed {
        failed := SpawnTrial(p);
        if !failed {
          return false;
        }
      }
      threw := ReturnToPrevious(p, Failed);
    }

    method ReadPendingRecord(p: Pending)
      requires At(Recovering) && state.update == Some(Awaiting(p))
      modifies this
      ensures Extended() && disk == old(disk) && alive == old(alive)
      ensures At(if RestoreMarked(here, p.id) || p.targetVersion !in disk.runtimes then Returning(p, Failed)
        else CheckingBackup(p))
    {
      hide Inv;
      hide IsRun;
      hide Initial;
      hide Compare;
      AtRecovering(here);
      Log(Continue);
    }

    /** A restore that was cut short is done again; a target that is gone is not tried. */
    method RecoverPending(p: Pending) returns (threw: bool)
      requires At(Recovering) && state.update == Some(Awaiting(p))
      modifies this
      ensures Extended()
      ensures threw ==> At(Failing)
      ensures !threw ==> At(Idle)
      ensures !threw && (old(RestoreMarked(here, p.id)) || p.targetVersion !in old(disk.runtimes)) ==>
        disk.record.update == Some(Terminal(p, Failed))
    {
      hide Inv;
      hide IsRun;
      hide Initial;
      hide Compare;
      hide After;
      hide Enabled;
      ReadPendingRecord(p);
      if p.id in disk.backups && disk.backups[p.id].restorePending {
        threw := ReturnToPrevious(p, Failed);
      } else if p.targetVersion !in disk.runtimes {
        threw := ReturnToPrevious(p, Failed);
      } else {
        threw := StartTrial(p);
      }
    }

    /** The first transition of a launcher process. */
    method Recover() returns (threw: bool)
      requires At(Recovering)
      modifies this
      ensures Extended()
      ensures threw ==> At(Failing)
      ensures !threw ==> At(Idle)
      ensures !threw && !old(IsPending(disk.record)) ==> child.value.role == Active && disk.record == old(disk.record)
      ensures !threw && old(IsPending(disk.record)) && old(RestoreMarked(here, disk.record.update.value.p.id)) ==>
        disk.record.update == Some(Terminal(old(disk.record.update.value.p), Failed))
      ensures !threw && old(IsPending(disk.record) && disk.record.update.value.p.targetVersion !in disk.runtimes) ==>
        disk.record.update == Some(Terminal(old(disk.record.update.value.p), Failed))
    {
      hide Inv;
      hide IsRun;
      hide Initial;
      hide Compare;
      AtRecovering(here);
      match state.update {
        case None =>
          Log(Continue);
          threw := StartActive(state.activeVersion);
        case Some(Settled(id, _, _, _)) =>
          Log(Continue);
          DiscardDatabaseBackup(id, Some(state.activeVersion));
          threw := StartActive(state.activeVersion);
        case Some(Awaiting(p)) =>
          threw := RecoverPending(p);
      }
    }

    /** The pending record is written; the write may fail, or be cut short on either side of its taking effect. */
    method AcceptUpdate(number: nat, target: Requested, dbPath: string, id: string) returns (threw: bool)
      requires At(Idle) && Manages(here, number)
      requires id !in here.issued && id !in disk.backups && id !in here.outcomes
      requires Rejection(state, child.value, disk.runtimes, target, dbPath).None?
      modifies this
      ensures Extended() && alive == old(alive) && child == old(child)
      ensures threw ==> At(Failing)
      ensures !threw ==>
        && At(Idle) && target.Exact?
        && IsPendingOn(here, Pending(id, old(child.value.version), target.v, dbPath))
    {
      hide Inv;
      hide IsRun;
      hide Initial;
      hide Compare;
      AtIdle(here);
      var p := Pending(id, child.value.version, target.v, dbPath);
      var next := state.(update := Some(Awaiting(p)));
      var io: Io := *;
      AcceptedState(here, RequestUpdate(number, target, dbPath, id, io), p);
      hide After;
      hide Rejection;
      if !io.LostBefore? {
        disk := disk.(record := next);
      }
      if io.Done? {
        state, timer := next, Some(HandOff(number));
      }
      Log(RequestUpdate(number, target, dbPath, id, io));
      return !io.Done?;
    }

    /** A request is answered; an accepted one is durable before the answer is sent. */
    method HandleUpdateRequest(number: nat, target: Requested, dbPath: string, id: string)
        returns (reply: Option<Reason>, threw: bool)
      requires At(Idle) && Manages(here, number)
      requires id !in here.issued && id !in disk.backups && id !in here.outcomes  // a fresh random id
      modifies this
      ensures Extended() && alive == old(alive) && child == old(child)
      ensures threw ==> At(Failing)
      ensures !threw ==> At(Idle)
      ensures reply.None? <==>
        && old(child.value.role) == Active && old(child.value.version) == old(state.activeVersion)
        && !old(IsPending(state)) && target.Exact? && Compare(target.v, old(child.value.version)) > 0
        && IsAbsolute(dbPath) && target.v in old(disk.runtimes)
      ensures reply.Some? ==>
        IsFirstFault(reply.value, old(state), old(child.value), old(disk.runtimes), target, dbPath)
      ensures reply.Some? ==> disk == old(disk)
      ensures reply.None? && !threw ==>
        target.Exact? && IsPendingOn(here, Pending(id, old(child.value.version), target.v, dbPath))
    {
      hide Inv;
      hide IsRun;
      hide Initial;
      hide Compare;
      AtIdle(here);
      reply := Rejection(state, child.value, disk.runtimes, target, dbPath);
      RefusedForFirstFault(state, child.value, disk.runtimes, target, dbPath);
      AcceptedWhen(state, child.value, disk.runtimes, target, dbPath);
      hide Rejection;
      if reply.Some? {
        threw := *;
        Log(RequestUpdate(number, target, dbPath, id, if threw then LostAfter else Done));
        return;
      }
      threw := AcceptUpdate(number, target, dbPath, id);
    }

    method StopForTrial(number: nat, p: Pending)
      requires At(Idle) && Manages(here, number) && child.value.role == Active && state.update == Some(Awaiting(p))
      modifies this
      ensures Extended() && disk == old(disk) && alive == old(alive) && At(Terminating(number, ToTrial(p)))
    {
      hide Inv;
      hide IsRun;
      hide Initial;
      hide Compare;
      AtIdle(here);
      child, timer := None, None;
      Log(BeginTrial(number));
    }

    /** The hand-off timer: stop the old server and try the new one, unless the timer is stale. */
    method HandleBeginTrial(number: nat) returns (threw: bool)
      requires At(Idle)
      modifies this
      ensures Extended()
      ensures threw ==> At(Failing)
      ensures !threw ==> At(Idle)
      ensures !(old(Manages(here, number)) && old(child.value.role) == Active && IsPending(old(state))) ==>
        !threw && disk == old(disk) && alive == old(alive) && child == old(child)
    {
      hide Inv;
      hide IsRun;
      hide Initial;
      hide Compare;
      hide After;
      AtIdle(here);
      if child.None? || child.value.number != number || child.value.role != Active || !IsPending(state) {
        StaleStays(here, BeginTrial(number));
        Log(BeginTrial(number));
        return false;
      }
      var p := state.update.value.p;
      StopForTrial(number, p);
      AwaitExit(number, ToTrial(p));
      threw := StartTrial(p);
    }

    method Commit(number: nat, p: Pending) returns (threw: bool)
      requires At(Idle) && Manages(here, number) && child.value.role == Trial && state.update == Some(Awaiting(p))
      modifies this
      ensures Extended()
      ensures threw ==> At(Failing)
      ensures !threw ==> At(Idle) && child == Some(old(child.value).(role := Active))
      ensures !threw ==>
        && disk.record == ServiceState(p.targetVersion, Some(Terminal(p, Committed)))
        && disk.files == old(disk.files)
    {
      hide Inv;
      hide IsRun;
      hide Initial;
      hide Compare;
      AtIdle(here);
      var next := ServiceState(p.targetVersion, Some(Terminal(p, Committed)));
      timer := None;
      if * {
        Log(Prepared(number, p.id, LostBefore));
        return true;
      }
      disk := disk.(record := next);
      if * {
        Log(Prepared(number, p.id, LostAfter));
        return true;
      }
      state := next;
      child := Some(child.value.(role := Active));
      Log(Prepared(number, p.id, Done));
      DiscardDatabaseBackup(p.id, None);
      if * {
        // the `committed` message cannot be sent
        Log(ChildError);
        return true;
      }
      return false;
    }

    /** A trial says it is prepared: commit, or roll back when what it says does not match. */
    method HandlePrepared(number: nat, updateId: string) returns (threw: bool)
      requires At(Idle) && Manages(here, number)
      modifies this
      ensures Extended()
      ensures threw ==> At(Failing)
      ensures !threw ==> At(Idle) && old(child.value.role) == Trial
      ensures !threw && old(IsPending(state)) && old(state.update.value.p.id) == updateId ==>
        && disk.record == ServiceState(old(state.update.value.p.targetVersion),
          Some(Terminal(old(state.update.value.p), Committed)))
        && disk.files == old(disk.files) && child == Some(old(child.value).(role := Active))
      ensures !threw && old(IsPending(state)) && old(state.update.value.p.id) != updateId ==>
        disk.record == ServiceState(old(state.update.value.p.fromVersion),
          Some(Terminal(old(state.update.value.p), RolledBack)))
    {
      hide Inv;
      hide IsRun;
      hide Initial;
      hide Compare;
      AtIdle(here);
      if child.value.role != Trial {
        Log(Prepared(number, updateId, Done));
        return true;
      }
      var p := state.update.value.p;
      if p.id != updateId {
        child := None;
        Log(Prepared(number, updateId, Done));
        AwaitExit(number, ToPrevious(p, RolledBack));
        threw := ReturnToPrevious(p, RolledBack);
        return;
      }
      threw := Commit(number, p);
    }

    /** A trial that never said it was prepared is to be stopped. */
    method StopTrial(number: nat, p: Pending)
      requires At(Idle) && Manages(here, number) && child.value.role == Trial && state.update == Some(Awaiting(p))
      modifies this
      ensures Extended() && disk == old(disk) && alive == old(alive)
        && At(Terminating(number, ToPrevious(p, RolledBack)))
    {
      hide Inv;
      hide IsRun;
      hide Initial;
      hide Compare;
      AtIdle(here);
      child, timer := None, None;
      Log(PreparedTimeout(number));
    }

    method HandlePreparedTimeout(number: nat) returns (threw: bool)
      requires At(Idle)
      modifies this
      ensures Extended()
      ensures threw ==> At(Failing)
      ensures !threw ==> At(Idle)
      ensures !threw && old(Manages(here, number)) && old(child.value.role) == Trial ==>
        disk.record == ServiceState(old(state.update.value.p.fromVersion),
          Some(Terminal(old(state.update.value.p), RolledBack)))
      ensures !(old(Manages(here, number)) && old(child.value.role) == Trial) ==>
        !threw && disk == old(disk) && alive == old(alive) && child == old(child)
    {
      hide Inv;
      hide IsRun;
      hide Initial;
      hide Compare;
      hide After;
      AtIdle(here);
      if child.None? || child.value.number != number || child.value.role != Trial {
        StaleStays(here, PreparedTimeout(number));
        Log(PreparedTimeout(number));
        return false;
      }
      var p := state.update.value.p;
      StopTrial(number, p);
      AwaitExit(number, ToPrevious(p, RolledBack));
      threw := ReturnToPrevious(p, RolledBack);
    }

    /**
     * A child has exited. That a managed trial could exit with nothing pending is ruled out by the
     * invariant, so the exception written for that case is never thrown.
     */
    method HandleExit(number: nat) returns (threw: bool)
      requires At(Idle) && number !in alive
      modifies this
      ensures Extended()
      ensures threw ==> At(Failing)
      ensures !threw ==> At(Idle)
      ensures !threw && old(Manages(here, number)) && old(child.value.role) == Trial ==>
        disk.record == ServiceState(old(state.update.value.p.fromVersion),
          Some(Terminal(old(state.update.value.p), RolledBack)))
      ensures old(Manages(here, number)) && !old(IsPending(state)) ==> threw && disk == old(disk)
      ensures !old(Manages(here, number)) ==> !threw && disk == old(disk) && alive == old(alive) && child == old(child)
    {
      hide Inv;
      hide IsRun;
      hide Initial;
      hide Compare;
      AtIdle(here);
      if child.None? || child.value.number != number {
        StaleStays(here, ExitHandled(number));
        hide After;
        Log(ExitHandled(number));
        return false;
      }
      hide After;
      hide Enabled;
      var role := child.value.role;
      NoteExit(number);
      if !IsPending(state) {
        return true;
      }
      var p := state.update.value.p;
      if role == Trial {
        threw := ReturnToPrevious(p, RolledBack);
      } else {
        threw := StartTrial(p);
      }
    }

    /** The managed child is gone: what follows depends on what it was, and on whether an update is pending. */
    method NoteExit(number: nat)
      requires At(Idle) && Manages(here, number) && number !in alive
      modifies this
      ensures Extended() && disk == old(disk) && alive == old(alive) && spawned == old(spawned) && state == old(state)
      ensures At(if !IsPending(state) then Failing
                 else if old(child.value.role) == Trial then Returning(state.update.value.p, RolledBack)
                 else CheckingBackup(state.update.value.p))
      ensures child.None? && timer.None?
    {
      hide Inv;
      hide IsRun;
      hide Initial;
      hide Compare;
      ExitIsHandled(here, number);
      hide After;
      hide Enabled;
      child, timer := None, None;
      Log(ExitHandled(number));
    }

    /** An exception that nobody caught, or a stop: the managed child is stopped and the launcher ends. */
    method Finish(stop: bool)
      requires At(if stop then Idle else Failing)
      modifies this
      ensures Extended() && At(Down) && alive == map[] && disk.record == old(disk.record)
    {
      hide Inv;
      hide IsRun;
      hide Initial;
      hide Compare;
      if stop {
        AtIdle(here);
      } else {
        AtFailing(here);
      }
      var step := if stop then Stop else Continue;
      timer := None;
      if child.None? {
        Log(step);
        return;
      }
      var number := child.value.number;
      child := None;
      Log(step);
      AwaitExit(number, ToDown);
    }
  }
}
