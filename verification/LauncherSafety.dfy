/** What holds in every state of every run of the launcher, crashes included. */
module LauncherSafety {
  import opened Optional
  import opened ServiceVersion
  import opened LauncherModel

  /** Two file systems agree, absence included, on the three files of a database. */
  predicate SameDatabase(a: Files, b: Files, dbPath: string) {
    forall i :: 0 <= i < |SUFFIXES| ==> SameAt(a, b, dbPath + SUFFIXES[i])
  }

  predicate SameAt(a: Files, b: Files, path: string) {
    && (path in a <==> path in b)
    && (path in a ==> a[path] == b[path])
  }

  /** `copy` holds, by suffix, exactly the files of the database in `files`, up to suffix number n. */
  predicate CopiedUpTo(copy: Files, files: Files, dbPath: string, n: nat) {
    forall i :: 0 <= i < n && i < |SUFFIXES| ==>
      && (SUFFIXES[i] in copy <==> dbPath + SUFFIXES[i] in files)
      && (SUFFIXES[i] in copy ==> copy[SUFFIXES[i]] == files[dbPath + SUFFIXES[i]])
  }

  predicate NothingStagedFrom(copy: Files, n: nat) {
    forall i :: n <= i < |SUFFIXES| ==> SUFFIXES[i] !in copy
  }

  lemma PathsDiffer(dbPath: string, i: nat, j: nat)
    requires i < |SUFFIXES| && j < |SUFFIXES| && i != j
    ensures dbPath + SUFFIXES[i] != dbPath + SUFFIXES[j]
    ensures SUFFIXES[i] != SUFFIXES[j]
  {
    var a, b := dbPath + SUFFIXES[i], dbPath + SUFFIXES[j];
    if |SUFFIXES[i]| != |SUFFIXES[j]| {
      assert |a| != |b|;
    } else {
      assert SUFFIXES[i][1] != SUFFIXES[j][1];
      assert a[|dbPath| + 1] == SUFFIXES[i][1] && b[|dbPath| + 1] == SUFFIXES[j][1];
    }
  }

  /** The update a transition in progress works on. */
  function Subject(point: Point): Option<Pending> {
    match point
    case Terminating(_, ToTrial(p)) => Some(p)
    case Terminating(_, ToPrevious(p, _)) => Some(p)
    case CheckingBackup(p) => Some(p)
    case ClearingStaging(p) => Some(p)
    case Snapshotting(p, _) => Some(p)
    case SyncingBackup(p) => Some(p)
    case AbandoningStaging(p) => Some(p)
    case StartingTrial(p) => Some(p)
    case Returning(p, _) => Some(p)
    case Marking(p, _) => Some(p)
    case Restoring(p, _, _) => Some(p)
    case Settling(p, _) => Some(p)
    case _ => None
  }

  /** Points at which the launcher may have a managed child. */
  predicate MayManage(point: Point) {
    point.Idle? || point.Failing? || point.Discarding?
  }

  predicate RestoreMarked(s: State, id: string) {
    id in s.disk.backups && s.disk.backups[id].restorePending
  }

  /** At most one child runs, and it is the managed one or the one being terminated. */
  predicate ProcessesInv(s: State) {
    && (forall n :: n in s.alive ==> n < s.spawned)
    && (s.child.Some? ==> MayManage(s.point) && s.child.value.number < s.spawned)
    && (s.child.Some? ==> forall n :: n in s.alive ==> n == s.child.value.number && s.alive[n] == s.child.value.version)
    && (s.child.None? && s.point.Terminating? ==> forall n :: n in s.alive ==> n == s.point.number)
    && (s.child.None? && !s.point.Terminating? ==> s.alive == map[])
    && (s.point.Idle? ==> s.child.Some?)
    && (s.point.Discarding? ==> (s.child.Some? <==> s.point.restart.None?))
  }

  /** The state document and what the launcher is doing agree. */
  predicate RecordInv(s: State) {
    var r := s.disk.record;
    && (s.point.Down? || s.point.Failing? || (s.point.Terminating? && s.point.next.ToDown?) || s.memory == r)
    && (IsPending(r) ==>
      r.update.value.p.fromVersion == r.activeVersion && Precedes(r.activeVersion, r.update.value.p.targetVersion))
    && (IsPending(r) ==> r.update.value.p.id in s.issued && r.update.value.p.id !in s.outcomes)
    && s.outcomes.Keys <= s.issued && s.trialed <= s.issued
    && (Subject(s.point).Some? ==> r.update == Some(Awaiting(Subject(s.point).value)))
    && (s.point.Discarding? ==> !IsPending(r) && r.update.Some? && r.update.value.id == s.point.id)
    && (s.point.Discarding? && s.point.restart.Some? ==> s.point.restart.value == r.activeVersion)
    && (s.point.StartingActive? ==> !IsPending(r) && s.point.v == r.activeVersion)
    && (s.point.Settling? ==> s.point.status != Committed)
    && (s.point.Returning? ==> s.point.status != Committed)
    && (s.point.Marking? ==> s.point.status != Committed)
    && (s.point.Restoring? ==> s.point.status != Committed)
    && (s.point.Terminating? && s.point.next.ToPrevious? ==> s.point.next.status != Committed)
  }

  /** A managed child is the selected active server or the trial of the pending update. */
  predicate RolesInv(s: State) {
    s.child.Some? && (s.point.Idle? || s.point.Discarding?) ==>
      var c, r := s.child.value, s.disk.record;
      match c.role
      case Active => c.version == r.activeVersion
      case Trial =>
        && s.point.Idle? && IsPending(r) && c.version == r.update.value.p.targetVersion
        && r.update.value.p.id in s.trialed
  }

  /** `before` is taken when the old child has died, and no later than the backup. */
  predicate BeforeInv(s: State, p: Pending) {
    s.before.None? ==>
      && s.alive != map[] && p.id !in s.trialed && p.id !in s.disk.backups
      && (s.point.Idle? || s.point.Failing? || (s.point.Terminating? && !s.point.next.ToPrevious?))
      && (s.point.Idle? ==> s.child.Some? && s.child.value.role == Active)
  }

  /** Until there is a backup the live files are untouched; the backup, once there, is complete. */
  predicate BackupInv(s: State, p: Pending) {
    && (s.before.Some? && p.id !in s.disk.backups ==>
      s.alive == map[] && p.id !in s.trialed && SameDatabase(s.disk.files, s.before.value, p.dbPath))
    && (p.id in s.disk.backups ==>
      s.before.Some? && CopiedUpTo(s.disk.backups[p.id].files, s.before.value, p.dbPath, |SUFFIXES|))
    && (RestoreMarked(s, p.id) ==> s.alive == map[] && MayMark(s.point))
  }

  /** How far the copying of the transition in progress has come. */
  predicate CopyingInv(s: State, p: Pending) {
    match s.point
    case ClearingStaging(_) => p.id !in s.disk.backups
    case Snapshotting(_, i) =>
      && p.id !in s.disk.backups && p.id in s.disk.staging && i <= |SUFFIXES|
      && CopiedUpTo(s.disk.staging[p.id], s.disk.files, p.dbPath, i)
      && NothingStagedFrom(s.disk.staging[p.id], i + 1)
      && (i < |SUFFIXES| && p.dbPath + SUFFIXES[i] !in s.disk.files ==> NothingStagedFrom(s.disk.staging[p.id], i))
    case SyncingBackup(_) => p.id in s.disk.backups
    case StartingTrial(_) => p.id in s.disk.backups
    case Marking(_, _) => p.id in s.disk.backups
    case Restoring(_, _, i) =>
      && RestoreMarked(s, p.id) && i <= |SUFFIXES| && s.before.Some?
      && RestoredUpTo(s.disk.files, s.before.value, p.dbPath, i)
    case Settling(_, _) => s.before.Some? && SameDatabase(s.disk.files, s.before.value, p.dbPath)
    case _ => true
  }

  /** The pending update's backup and the live files, at every moment, lead back to `before`. */
  predicate DataInv(s: State) {
    IsPending(s.disk.record) ==>
      var p := s.disk.record.update.value.p;
      BeforeInv(s, p) && BackupInv(s, p) && CopyingInv(s, p)
  }

  predicate RestoredUpTo(files: Files, before: Files, dbPath: string, n: nat) {
    forall i :: 0 <= i < n && i < |SUFFIXES| ==> SameAt(files, before, dbPath + SUFFIXES[i])
  }

  /** Where the launcher can be while the pending update's backup carries the restore marker. */
  predicate MayMark(point: Point) {
    || point.Down? || point.Recovering? || point.Failing? || point.Returning? || point.Marking?
    || point.Restoring? || point.Settling? || (point.Terminating? && point.next.ToDown?)
  }

  predicate Inv(s: State) {
    ProcessesInv(s) && RecordInv(s) && RolesInv(s) && DataInv(s)
  }

  lemma InitialInv(s: State)
    requires Initial(s)
    ensures Inv(s)
  {
  }

  predicate Outside(step: Step) {
    step.ChildWrites? || step.ChildExits? || step.Install? || step.Crash? || step.Boot?
  }

  lemma DeathPreserves(s: State, step: Step)
    requires Inv(s) && Enabled(s, step) && (step.ChildExits? || step.Crash?)
    ensures Inv(After(s, step))
  {
    hide Precedes;
  }

  lemma OutsidePreserves(s: State, step: Step)
    requires Inv(s) && Enabled(s, step) && Outside(step)
    ensures Inv(After(s, step))
  {
    hide Precedes;
    if step.ChildExits? || step.Crash? {
      DeathPreserves(s, step);
      hide Inv;
    }
  }

  lemma SnapshotTornPreserves(s: State, step: Step)
    requires Inv(s) && Enabled(s, step) && s.point.Snapshotting? && step.Torn?
    ensures Inv(After(s, step))
  {
    hide Precedes;
    var i := s.point.i;
    forall j: nat | j < |SUFFIXES| && i != j ensures SUFFIXES[i] != SUFFIXES[j] {
      PathsDiffer(s.point.p.dbPath, i, j);
    }
  }

  lemma SnapshotSkipPreserves(s: State)
    requires Inv(s) && CanContinue(s) && s.point.Snapshotting? && s.point.i < |SUFFIXES|
    requires s.point.p.dbPath + SUFFIXES[s.point.i] !in s.disk.files
    ensures Inv(Continued(s))
  {
    hide Precedes;
  }

  lemma SnapshotCopyPreserves(s: State)
    requires Inv(s) && CanContinue(s) && s.point.Snapshotting? && s.point.i < |SUFFIXES|
    requires s.point.p.dbPath + SUFFIXES[s.point.i] in s.disk.files
    ensures Inv(Continued(s))
  {
    hide Precedes;
    var i := s.point.i;
    forall j: nat | j < |SUFFIXES| && i != j ensures SUFFIXES[i] != SUFFIXES[j] {
      PathsDiffer(s.point.p.dbPath, i, j);
    }
  }

  lemma SnapshotRenamePreserves(s: State)
    requires Inv(s) && CanContinue(s) && s.point.Snapshotting? && s.point.i >= |SUFFIXES|
    ensures Inv(Continued(s))
  {
    hide Precedes;
    var p, s' := s.point.p, Continued(s);
    assert s'.disk.backups[p.id] == Backup(s.disk.staging[p.id], false);
    CopyOfSame(s.disk.staging[p.id], s.disk.files, s.before.value, p.dbPath);
  }

  lemma CopyOfSame(copy: Files, a: Files, b: Files, dbPath: string)
    requires CopiedUpTo(copy, a, dbPath, |SUFFIXES|) && SameDatabase(a, b, dbPath)
    ensures CopiedUpTo(copy, b, dbPath, |SUFFIXES|)
  {
    forall i: nat | i < |SUFFIXES|
      ensures SUFFIXES[i] in copy <==> dbPath + SUFFIXES[i] in b
      ensures SUFFIXES[i] in copy ==> copy[SUFFIXES[i]] == b[dbPath + SUFFIXES[i]]
    {
      assert SameAt(a, b, dbPath + SUFFIXES[i]);
    }
  }

  lemma RestoringPreserves(s: State, step: Step)
    requires Inv(s) && Enabled(s, step) && s.point.Restoring? && (step.Continue? || step.Torn?)
    ensures Inv(After(s, step))
  {
    hide Precedes;
    var i, dbPath := s.point.i, s.point.p.dbPath;
    forall j: nat | j < |SUFFIXES| && i < |SUFFIXES| && i != j ensures dbPath + SUFFIXES[i] != dbPath + SUFFIXES[j] {
      PathsDiffer(dbPath, i, j);
    }
  }

  lemma BackupPointsPreserve(s: State)
    requires Inv(s) && CanContinue(s)
    requires s.point.CheckingBackup? || s.point.ClearingStaging? || s.point.SyncingBackup? || s.point.AbandoningStaging?
    ensures Inv(Continued(s))
  {
    hide Precedes;
  }

  lemma SpawningPreserves(s: State)
    requires Inv(s) && CanContinue(s) && (s.point.StartingTrial? || s.point.StartingActive?)
    ensures Inv(Continued(s))
  {
    hide Precedes;
  }

  lemma ReturningPreserves(s: State)
    requires Inv(s) && CanContinue(s) && (s.point.Returning? || s.point.Marking?)
    ensures Inv(Continued(s))
  {
    hide Precedes;
  }

  lemma RecoveringPreserves(s: State)
    requires Inv(s) && CanContinue(s) && (s.point.Recovering? || s.point.Terminating? || s.point.Failing?)
    ensures Inv(Continued(s))
  {
    hide Precedes;
  }

  lemma FailurePreserves(s: State, step: Step)
    requires Inv(s) && Enabled(s, step)
    requires step.IoFails? || step.SpawnFails? || step.DiscardPart? || step.DiscardEnds?
    ensures Inv(After(s, step))
  {
    hide Precedes;
    if step.DiscardPart? || step.DiscardEnds? {
      DiscardPreserves(s, step);
      hide Inv;
    }
  }

  lemma DiscardPreserves(s: State, step: Step)
    requires Inv(s) && Enabled(s, step) && (step.DiscardPart? || step.DiscardEnds?)
    ensures Inv(After(s, step))
  {
    hide Precedes;
    hide DataInv;
    assert !IsPending(After(s, step).disk.record);
    DataInvOfSettled(After(s, step));
  }

  lemma SettlingFailurePreserves(s: State, step: Step)
    requires Inv(s) && Enabled(s, step) && step == SettlingWrite(LostBefore)
    ensures Inv(After(s, step))
  {
    hide Precedes;
  }

  /** Once the record is terminal nothing more is required of the files. */
  lemma SettlingPreserves(s: State, step: Step)
    requires Inv(s) && Enabled(s, step) && step.SettlingWrite? && step != SettlingWrite(LostBefore)
    ensures Inv(After(s, step))
  {
    hide Precedes;
    hide DataInv;
    assert !IsPending(After(s, step).disk.record);
    DataInvOfSettled(After(s, step));
  }

  lemma DataInvOfSettled(s: State)
    requires !IsPending(s.disk.record)
    ensures DataInv(s)
  {
  }

  lemma EventPreserves(s: State, step: Step)
    requires Inv(s) && Enabled(s, step)
    requires step.BeginTrial? || step.PreparedTimeout? || step.Stop? || step.ChildError?
    ensures Inv(After(s, step))
  {
    hide Precedes;
    if step.BeginTrial? || step.PreparedTimeout? {
      AlarmPreserves(s, step);
      hide Inv;
    }
  }

  lemma AlarmPreserves(s: State, step: Step)
    requires Inv(s) && Enabled(s, step) && (step.BeginTrial? || step.PreparedTimeout?)
    ensures Inv(After(s, step))
  {
    hide Precedes;
  }

  /** A `prepared` message that does not match ends in a rollback or a stop. */
  lemma MismatchPreserves(s: State, step: Step)
    requires Inv(s) && Enabled(s, step) && step.Prepared? && !Commits(s, step)
    ensures Inv(After(s, step))
  {
    hide Precedes;
  }

  lemma CommitFailurePreserves(s: State, step: Step)
    requires Inv(s) && Enabled(s, step) && Commits(s, step) && step.io.LostBefore?
    ensures Inv(After(s, step))
  {
    hide Precedes;
  }

  lemma CommitPreserves(s: State, step: Step)
    requires Inv(s) && Enabled(s, step) && Commits(s, step) && !step.io.LostBefore?
    ensures Inv(After(s, step))
  {
    hide Inv;
    if step.io.LostAfter? {
      CutCommitPreserves(s, step);
    } else {
      FullCommitPreserves(s, step);
    }
    hide After;
  }

  lemma CutCommitPreserves(s: State, step: Step)
    requires Inv(s) && Enabled(s, step) && Commits(s, step) && step.io.LostAfter?
    ensures Inv(After(s, step))
  {
    hide Precedes;
    hide DataInv;
    CommittedState(s, step);
    hide After;
    DataInvOfSettled(After(s, step));
  }

  lemma FullCommitPreserves(s: State, step: Step)
    requires Inv(s) && Enabled(s, step) && Commits(s, step) && step.io.Done?
    ensures Inv(After(s, step))
  {
    hide Precedes;
    hide DataInv;
    CommittedState(s, step);
    hide After;
    DataInvOfSettled(After(s, step));
  }

  lemma CommittedState(s: State, step: Step)
    requires Enabled(s, step) && Commits(s, step) && !step.io.LostBefore?
    ensures var p := s.memory.update.value.p;
      var record := ServiceState(p.targetVersion, Some(Terminal(p, Committed)));
      var w := s.(disk := s.disk.(record := record), timer := None, outcomes := s.outcomes[p.id := Committed]);
      After(s, step) ==
        if step.io.LostAfter? then w.(point := Failing)
        else w.(memory := record, child := Some(s.child.value.(role := Active)), point := Discarding(p.id, None))
  {
  }

  /** The managed trial reports the pending update as prepared. */
  predicate Commits(s: State, step: Step) {
    && step.Prepared? && Manages(s, step.number) && s.child.value.role == Trial && IsPending(s.memory)
    && s.memory.update.value.p.id == step.updateId && s.memory.update.value.p.targetVersion == s.child.value.version
  }

  lemma ExitPreserves(s: State, step: Step)
    requires Inv(s) && Enabled(s, step) && step.ExitHandled?
    ensures Inv(After(s, step))
  {
    hide Precedes;
  }

  lemma NewerPrecedes(a: Version, b: Version)
    requires Compare(b, a) > 0
    ensures Precedes(a, b)
  {
    CompareIsTotalPreorder();
  }

  /** The request is accepted: a pending record for it is to be written. */
  predicate Accepts(s: State, step: Step) {
    && step.RequestUpdate? && Manages(s, step.number)
    && Rejection(s.memory, s.child.value, s.disk.runtimes, step.target, step.dbPath).None?
  }

  lemma RequestPreserves(s: State, step: Step)
    requires Inv(s) && Enabled(s, step) && step.RequestUpdate? && !Accepts(s, step)
    ensures Inv(After(s, step))
  {
    hide Compare;
    hide Precedes;
  }

  lemma AcceptPreserves(s: State, step: Step)
    requires Inv(s) && Enabled(s, step) && Accepts(s, step)
    ensures Inv(After(s, step))
  {
    var c := s.child.value;
    var p := Pending(step.id, c.version, step.target.v, step.dbPath);
    NewerPrecedes(c.version, step.target.v);
    AcceptedState(s, step, p);
    hide Precedes;
    hide Compare;
    hide Rejection;
    hide After;
  }

  lemma AcceptedState(s: State, step: Step, p: Pending)
    requires Inv(s) && Enabled(s, step) && Accepts(s, step)
    requires p == Pending(step.id, s.child.value.version, step.target.v, step.dbPath)
    ensures s.child.value.role == Active && p.fromVersion == s.memory.activeVersion
    ensures !IsPending(s.memory) && Compare(p.targetVersion, p.fromVersion) > 0
    ensures step.io.LostBefore? ==> After(s, step) == s.(point := Failing)
    ensures !step.io.LostBefore? ==>
      var w := s.(disk := s.disk.(record := s.memory.(update := Some(Awaiting(p)))),
                  issued := s.issued + {p.id}, before := None);
      After(s, step) == Note(if step.io.Done? then w.(memory := w.disk.record, timer := Some(HandOff(step.number)))
                             else w.(point := Failing))
  {
    hide Compare;
  }

  lemma ContinuePreserves(s: State)
    requires Inv(s) && CanContinue(s)
    ensures Inv(Continued(s))
  {
    hide Precedes;
    match s.point
    case Snapshotting(p, i) =>
      if i >= |SUFFIXES| {
        SnapshotRenamePreserves(s);
      } else if p.dbPath + SUFFIXES[i] in s.disk.files {
        SnapshotCopyPreserves(s);
      } else {
        SnapshotSkipPreserves(s);
      }
    case Restoring(_, _, _) => RestoringPreserves(s, Continue);
    case CheckingBackup(_) => BackupPointsPreserve(s);
    case ClearingStaging(_) => BackupPointsPreserve(s);
    case SyncingBackup(_) => BackupPointsPreserve(s);
    case AbandoningStaging(_) => BackupPointsPreserve(s);
    case StartingTrial(_) => SpawningPreserves(s);
    case StartingActive(_) => SpawningPreserves(s);
    case Returning(_, _) => ReturningPreserves(s);
    case Marking(_, _) => ReturningPreserves(s);
    case _ => RecoveringPreserves(s);
  }

  /** Every step keeps the invariant. */
  lemma StepPreserves(s: State, step: Step)
    requires Inv(s) && Enabled(s, step)
    ensures Inv(After(s, step))
  {
    hide Precedes;
    match step
    case Continue => ContinuePreserves(s);
    case Torn(_) => if s.point.Snapshotting? { SnapshotTornPreserves(s, step); } else { RestoringPreserves(s, step); }
    case SettlingWrite(io) =>
      if io.LostBefore? { SettlingFailurePreserves(s, step); } else { SettlingPreserves(s, step); }
    case RequestUpdate(_, _, _, _, _) =>
      if Accepts(s, step) { AcceptPreserves(s, step); } else { RequestPreserves(s, step); }
    case Prepared(_, _, io) =>
      if !Commits(s, step) {
        MismatchPreserves(s, step);
      } else if io.LostBefore? {
        CommitFailurePreserves(s, step);
      } else {
        CommitPreserves(s, step);
      }
    case ExitHandled(_) => ExitPreserves(s, step);
    case BeginTrial(_) => EventPreserves(s, step);
    case PreparedTimeout(_) => EventPreserves(s, step);
    case Stop => EventPreserves(s, step);
    case ChildError => EventPreserves(s, step);
    case ChildWrites(_) => OutsidePreserves(s, step);
    case ChildExits(_) => OutsidePreserves(s, step);
    case Install(_) => OutsidePreserves(s, step);
    case Crash => OutsidePreserves(s, step);
    case Boot => OutsidePreserves(s, step);
    case _ => FailurePreserves(s, step);
  }
}
