/** The promises of the launcher over whole runs, with crashes between any two steps. */
module LauncherTheorems {
  import opened Optional
  import opened ServiceVersion
  import opened LauncherModel
  import opened LauncherSafety

  predicate IsPendingOn(s: State, p: Pending) {
    s.disk.record.update == Some(Awaiting(p))
  }

  /** The pending record of p becomes a terminal one. */
  predicate Settles(s: State, s': State, p: Pending, status: Status) {
    IsPendingOn(s, p) && s'.disk.record.update == Some(Terminal(p, status))
  }

  /**
   * Every process that is alive, managed or being terminated, runs the selected version or is the trial of the pending
   * update.
   */
  predicate AllSelected(s: State) {
    forall n :: n in s.alive ==> Selected(s, s.alive[n])
  }

  predicate Selected(s: State, v: Version) {
    || v == s.disk.record.activeVersion
    || (&& IsPending(s.disk.record) && v == s.disk.record.update.value.p.targetVersion
        && s.disk.record.update.value.p.id in s.trialed)
  }

  /**
   * A process that is alive runs the selected version; or it is the trial of the pending update, which
   * has a complete backup of the database that no restore has marked.
   */
  predicate Backed(s: State, v: Version) {
    || v == s.disk.record.activeVersion
    || (&& IsPending(s.disk.record)
        && var p := s.disk.record.update.value.p;
        && v == p.targetVersion && p.fromVersion == s.disk.record.activeVersion && p.id in s.trialed
        && p.id in s.disk.backups && !RestoreMarked(s, p.id)
        && s.before.Some? && CopiedUpTo(s.disk.backups[p.id].files, s.before.value, p.dbPath, |SUFFIXES|))
  }

  /**
   * What a reader of the state relies on at any moment, the launcher failing or terminating a child
   * included. Roles are given to managed children, and are right unless the launcher is failing.
   */
  predicate Safe(s: State) {
    && (forall m, n :: m in s.alive && n in s.alive ==> m == n)
    && (forall n :: n in s.alive ==> Backed(s, s.alive[n]))
    && (forall n :: n in s.alive && Manages(s, n) ==> s.alive[n] == s.child.value.version)
    && (s.child.Some? && s.child.value.role == Active && !s.point.Failing? ==>
      s.child.value.version == s.disk.record.activeVersion)
    && (s.child.Some? && s.child.value.role == Trial && !s.point.Failing? ==>
      && IsPending(s.disk.record) && s.child.value.version == s.disk.record.update.value.p.targetVersion
      && s.disk.record.update.value.p.id in s.disk.backups)
  }

  /** An update that had a trial has a complete backup, marked only once no process is alive. */
  lemma TriedIsBacked(s: State, v: Version)
    requires Inv(s) && Selected(s, v) && s.alive != map[]
    ensures Backed(s, v)
  {
    hide Precedes, CopiedUpTo, SameDatabase, CopyingInv;
  }

  lemma InvIsSafe(s: State)
    requires Inv(s) && AllSelected(s)
    ensures Safe(s)
  {
    forall n | n in s.alive ensures Backed(s, s.alive[n]) {
      TriedIsBacked(s, s.alive[n]);
    }
    hide Precedes, CopiedUpTo, SameDatabase, CopyingInv, Backed;
  }

  /** Which processes are alive after a step: those before it, or fewer, or the one it starts. */
  lemma AliveChanges(s: State, step: Step)
    requires Enabled(s, step) && (step == Continue ==> !s.point.StartingTrial? && !s.point.StartingActive?)
    ensures forall n :: n in After(s, step).alive ==> n in s.alive && After(s, step).alive[n] == s.alive[n]
    ensures After(s, step).spawned == s.spawned
  {
    if step == Continue {
      ContinuedAlive(s);
      hide Continued;
    }
    hide Rejection;
  }

  lemma ContinuedAlive(s: State)
    requires CanContinue(s) && !s.point.StartingTrial? && !s.point.StartingActive?
    ensures Continued(s).alive == s.alive && Continued(s).spawned == s.spawned
  {
  }

  lemma StartIsSelected(s: State)
    requires Inv(s) && CanContinue(s) && (s.point.StartingTrial? || s.point.StartingActive?)
    ensures AllSelected(Continued(s))
  {
    hide Precedes, Compare, DataInv;
  }

  /** Nobody is alive while the record of a rollback is written. */
  lemma NobodyAtSettling(s: State, step: Step)
    requires Inv(s) && Enabled(s, step) && step.SettlingWrite?
    ensures After(s, step).alive == map[]
  {
    hide Precedes, Compare, DataInv, RolesInv;
  }

  lemma CommitSelects(s: State, step: Step)
    requires Inv(s) && Enabled(s, step) && Commits(s, step)
    ensures AllSelected(s) ==> AllSelected(After(s, step))
  {
    hide Precedes, Compare, DataInv;
  }

  lemma AcceptKeepsSelected(s: State, step: Step)
    requires Inv(s) && Enabled(s, step) && Accepts(s, step)
    ensures AllSelected(s) ==> AllSelected(After(s, step))
  {
    AcceptedState(s, step, Pending(step.id, s.child.value.version, step.target.v, step.dbPath));
    hide Inv, After, Enabled, Compare, Rejection;
  }

  lemma TrialedGrows(s: State, step: Step)
    requires Enabled(s, step)
    ensures s.trialed <= After(s, step).trialed
  {
    hide Rejection, Compare;
    if step == Continue {
      ContinuedTrialed(s);
      hide Continued;
    }
  }

  lemma ContinuedTrialed(s: State)
    requires CanContinue(s)
    ensures s.trialed <= Continued(s).trialed
  {
  }

  /** No step leaves a process that is neither of the selected version nor the pending trial. */
  lemma StepKeepsSelected(s: State, step: Step)
    requires Inv(s) && AllSelected(s) && Enabled(s, step)
    ensures AllSelected(After(s, step))
  {
    hide Inv, Precedes, Compare, Rejection;
    if step == Continue && (s.point.StartingTrial? || s.point.StartingActive?) {
      StartIsSelected(s);
    } else if step.SettlingWrite? {
      NobodyAtSettling(s, step);
    } else if Commits(s, step) {
      CommitSelects(s, step);
    } else if Accepts(s, step) {
      AcceptKeepsSelected(s, step);
    } else {
      RecordFrame(s, step);
      AliveChanges(s, step);
      TrialedGrows(s, step);
      hide After, Enabled;
    }
  }

  lemma {:induction false} RunKeepsInv(states: seq<State>, steps: seq<Step>, k: nat)
    requires IsRun(states, steps) && Initial(states[0]) && k < |states|
    ensures Inv(states[k])
  {
    hide Inv;
    hide After;
    hide Enabled;
    if k == 0 {
      InitialInv(states[0]);
    } else {
      RunKeepsInv(states, steps, k - 1);
      StepPreserves(states[k - 1], steps[k - 1]);
    }
  }

  lemma {:induction false} RunKeepsSelected(states: seq<State>, steps: seq<Step>, k: nat)
    requires IsRun(states, steps) && Initial(states[0]) && k < |states|
    ensures AllSelected(states[k])
  {
    hide Inv, After, Enabled, Selected;
    if k > 0 {
      RunKeepsInv(states, steps, k - 1);
      RunKeepsSelected(states, steps, k - 1);
      StepKeepsSelected(states[k - 1], steps[k - 1]);
    }
  }

  /** Every state of every run is safe, however often and wherever the launcher crashes. */
  lemma EveryRunIsSafe(states: seq<State>, steps: seq<Step>, k: nat)
    requires IsRun(states, steps) && Initial(states[0]) && k < |states|
    ensures Safe(states[k])
  {
    RunKeepsInv(states, steps, k);
    RunKeepsSelected(states, steps, k);
    InvIsSafe(states[k]);
  }

  /**
   * A child is started only when no other runs, and never for an update whose restore is marked:
   * a trial only over a complete backup, an active server only when nothing is pending.
   */
  lemma StartsAreSafe(s: State, step: Step)
    requires Inv(s) && Enabled(s, step) && After(s, step).spawned != s.spawned
    ensures s.alive == map[] && After(s, step).spawned == s.spawned + 1
    ensures IsPending(s.disk.record) ==>
      var p := s.disk.record.update.value.p;
      && p.id in s.disk.backups && !RestoreMarked(s, p.id)
      && After(s, step).alive == map[s.spawned := p.targetVersion]
    ensures !IsPending(s.disk.record) ==> After(s, step).alive == map[s.spawned := s.disk.record.activeVersion]
  {
    if !(step == Continue && (s.point.StartingTrial? || s.point.StartingActive?)) {
      AliveChanges(s, step);
    }
    AtStart(s);
    StartedAlive(s);
    hide Inv, Continued;
  }

  lemma StartedAlive(s: State)
    requires CanContinue(s) && (s.point.StartingTrial? || s.point.StartingActive?)
    ensures Continued(s).spawned == s.spawned + 1
    ensures Continued(s).alive ==
      s.alive[s.spawned := if s.point.StartingTrial? then s.point.p.targetVersion else s.point.v]
  {
  }

  lemma AtStart(s: State)
    requires Inv(s) && (s.point.StartingTrial? || s.point.StartingActive?)
    ensures s.alive == map[]
    ensures s.point.StartingTrial? ==>
      && s.disk.record.update == Some(Awaiting(s.point.p))
      && s.point.p.id in s.disk.backups && !RestoreMarked(s, s.point.p.id)
    ensures s.point.StartingActive? ==> !IsPending(s.disk.record) && s.point.v == s.disk.record.activeVersion
  {
    hide Precedes, CopiedUpTo, SameDatabase;
  }

  predicate SameRecords(s: State, s': State) {
    s'.disk.record == s.disk.record && s'.before == s.before && s'.outcomes == s.outcomes && s'.issued == s.issued
  }

  lemma CopyingFrame(s: State)
    requires CanContinue(s)
      && (s.point.Snapshotting? || s.point.Restoring? || s.point.Marking? || s.point.ClearingStaging?)
    ensures SameRecords(s, Continued(s))
  {
  }

  lemma StartingFrame(s: State)
    requires CanContinue(s)
      && (s.point.Recovering? || s.point.Failing? || s.point.StartingTrial? || s.point.StartingActive?)
    ensures SameRecords(s, Continued(s))
  {
  }

  lemma ContinuedFrame(s: State)
    requires CanContinue(s)
    ensures SameRecords(s, Continued(s))
  {
    if s.point.Snapshotting? || s.point.Restoring? || s.point.Marking? || s.point.ClearingStaging? {
      CopyingFrame(s);
    } else if s.point.Recovering? || s.point.Failing? || s.point.StartingTrial? || s.point.StartingActive? {
      StartingFrame(s);
    } else {
      OtherFrame(s);
    }
  }

  lemma OtherFrame(s: State)
    requires CanContinue(s)
    requires s.point.Terminating? || s.point.CheckingBackup? || s.point.SyncingBackup? || s.point.AbandoningStaging?
             || s.point.Returning?
    ensures SameRecords(s, Continued(s))
  {
  }

  /** Steps other than an accepted request, a commit and the settling of a rollback leave the record alone. */
  lemma RecordFrame(s: State, step: Step)
    requires Enabled(s, step) && !step.SettlingWrite? && !Commits(s, step) && !Accepts(s, step)
    ensures After(s, step).disk.record == s.disk.record
    ensures After(s, step).outcomes == s.outcomes && After(s, step).issued == s.issued
    ensures
      || After(s, step).before == s.before
      || (After(s, step).alive == map[] && After(s, step).before == Some(After(s, step).disk.files) && s.before.None?)
  {
    hide Compare;
    hide Rejection;
    if step.Continue? {
      ContinuedFrame(s);
      hide Continued;
    }
  }

  /** How one step may change the durable record. */
  lemma RecordChanges(s: State, step: Step)
    requires Inv(s) && Enabled(s, step)
    ensures
      var r, r' := s.disk.record, After(s, step).disk.record;
      || r' == r
      || (Accepts(s, step) && !IsPending(r) && r'.activeVersion == r.activeVersion
          && IsPending(r') && r'.update.value.p.id == step.id && step.id !in s.issued)
      || (IsPending(r) && r'.activeVersion == r.activeVersion
          && (Settles(s, After(s, step), r.update.value.p, RolledBack)
            || Settles(s, After(s, step), r.update.value.p, Failed)))
      || (Commits(s, step) && r'.activeVersion == r.update.value.p.targetVersion
        && Precedes(r.activeVersion, r'.activeVersion)
          && Settles(s, After(s, step), r.update.value.p, Committed))
  {
    hide Compare;
    hide Precedes;
    if Accepts(s, step) {
      AcceptedState(s, step, Pending(step.id, s.child.value.version, step.target.v, step.dbPath));
    } else if !step.SettlingWrite? && !Commits(s, step) {
      RecordFrame(s, step);
      hide Inv;
      hide After;
    }
  }

  /** The selected version changes at a matching commit only, and then to a newer one. */
  lemma OnlyCommitsSelect(s: State, step: Step)
    requires Inv(s) && Enabled(s, step)
    requires After(s, step).disk.record.activeVersion != s.disk.record.activeVersion
    ensures Commits(s, step) && IsPending(s.disk.record)
    ensures After(s, step).disk.record.activeVersion == s.disk.record.update.value.p.targetVersion
    ensures Precedes(s.disk.record.activeVersion, After(s, step).disk.record.activeVersion)
  {
    RecordChanges(s, step);
  }

  /** Over a run the selected version never goes back. */
  lemma {:induction false} SelectionNeverGoesBack(states: seq<State>, steps: seq<Step>, j: nat, k: nat)
    requires IsRun(states, steps) && Initial(states[0]) && j <= k < |states|
    ensures states[k].disk.record.activeVersion == states[j].disk.record.activeVersion
         || Precedes(states[j].disk.record.activeVersion, states[k].disk.record.activeVersion)
  {
    hide Inv;
    hide After;
    hide Enabled;
    hide Precedes;
    if j < k {
      SelectionNeverGoesBack(states, steps, j, k - 1);
      RunKeepsInv(states, steps, k - 1);
      var a, b, c := states[j].disk.record.activeVersion, states[k - 1].disk.record.activeVersion,
        states[k].disk.record.activeVersion;
      if b != c {
        OnlyCommitsSelect(states[k - 1], steps[k - 1]);
        PrecedesIsStrict(a, b, c);
      }
    }
  }

  lemma IssuedChanges(s: State, step: Step)
    requires Inv(s) && Enabled(s, step)
    ensures s.issued <= After(s, step).issued
  {
    hide Inv;
    hide Precedes;
    hide Compare;
  }

  lemma PendingAtEnd(s: State, step: Step)
    requires Inv(s) && Enabled(s, step) && (step.SettlingWrite? || Commits(s, step))
    ensures IsPending(s.disk.record) && s.disk.record.update.value.p.id !in s.outcomes
    ensures step.SettlingWrite? ==> s.disk.record.update.value.p == s.point.p
    ensures Commits(s, step) ==> s.memory == s.disk.record
  {
    hide Precedes;
  }

  lemma SettlingOutcome(s: State, step: Step)
    requires Inv(s) && Enabled(s, step) && (step.SettlingWrite? || Commits(s, step))
    ensures IsPending(s.disk.record) && s.disk.record.update.value.p.id !in s.outcomes
    ensures Concludes(s, After(s, step))
  {
    PendingAtEnd(s, step);
    hide Inv;
    if step.SettlingWrite? {
      SettlingConcludes(s, step);
    } else {
      CommitConcludes(s, step);
    }
    hide After;
  }

  /** The record stays, or becomes terminal together with the outcome of the update that was pending. */
  predicate Concludes(s: State, s': State) {
    && IsPending(s.disk.record) && s'.before == s.before
    && if s'.disk.record == s.disk.record then s'.outcomes == s.outcomes
       else
         && s'.disk.record.update.Some? && !IsPending(s'.disk.record)
         && s'.outcomes == s.outcomes[s.disk.record.update.value.p.id := s'.disk.record.update.value.status]
  }

  lemma SettlingConcludes(s: State, step: Step)
    requires Enabled(s, step) && step.SettlingWrite? && IsPending(s.disk.record)
      && s.disk.record.update.value.p == s.point.p
    ensures Concludes(s, After(s, step))
  {
  }

  lemma CommitConcludes(s: State, step: Step)
    requires Enabled(s, step) && Commits(s, step) && s.memory == s.disk.record
    ensures Concludes(s, After(s, step))
  {
  }

  lemma AcceptNotes(s: State, step: Step)
    requires Inv(s) && Enabled(s, step) && Accepts(s, step)
    ensures
      var s' := After(s, step);
      && s'.outcomes == s.outcomes
      && (s'.disk.record == s.disk.record ==> s' == s.(point := Failing))
      && (s'.disk.record != s.disk.record ==> IsPending(s'.disk.record))
      && (s'.disk.record != s.disk.record ==> s'.before == if s.alive == map[] then Some(s.disk.files) else None)
      && s'.alive == s.alive && s'.disk.files == s.disk.files
  {
    AcceptedState(s, step, Pending(step.id, s.child.value.version, step.target.v, step.dbPath));
    AcceptIsFresh(s, step);
    hide OnRequest;
    hide Inv;
    hide Compare;
  }

  lemma AcceptIsFresh(s: State, step: Step)
    requires Inv(s) && Enabled(s, step) && Accepts(s, step)
    ensures s.memory == s.disk.record && step.id !in s.trialed
  {
    hide Precedes;
    hide Compare;
  }

  /** `before` is taken when the last child of a pending, untried update is gone, and kept until a new request. */
  lemma BeforeChanges(s: State, step: Step)
    requires Inv(s) && Enabled(s, step)
    ensures
      var s' := After(s, step);
      || s'.before == s.before
      || (s'.alive == map[] && s'.before == Some(s'.disk.files) && (s.before.None? || s'.disk.record != s.disk.record))
      || (s'.before.None? && s'.disk.record != s.disk.record && IsPending(s'.disk.record))
    ensures
      var s' := After(s, step);
      IsPending(s'.disk.record) && s'.disk.record != s.disk.record && s'.before.Some? ==>
        s'.alive == map[] && s'.before == Some(s'.disk.files)
  {
    hide Precedes;
    hide Compare;
    hide Inv;
    if step.SettlingWrite? || Commits(s, step) {
      SettlingOutcome(s, step);
    } else if Accepts(s, step) {
      AcceptNotes(s, step);
    } else {
      RecordFrame(s, step);
    }
    hide After;
  }

  lemma PendingIsNew(s: State)
    requires Inv(s) && IsPending(s.disk.record)
    ensures s.disk.record.update.value.p.id !in s.outcomes
  {
    hide Precedes;
  }

  /** A terminal record and its outcome appear together, for the update that was pending. */
  lemma OutcomeChanges(s: State, step: Step)
    requires Inv(s) && Enabled(s, step)
    ensures
      var s' := After(s, step);
      if s'.disk.record == s.disk.record || IsPending(s'.disk.record) then s'.outcomes == s.outcomes
      else
        && IsPending(s.disk.record) && s.disk.record.update.value.p.id !in s.outcomes
        && s'.disk.record.update.Some?
        && s'.outcomes == s.outcomes[s.disk.record.update.value.p.id := s'.disk.record.update.value.status]
  {
    hide Precedes;
    hide Compare;
    hide Inv;
    if step.SettlingWrite? || Commits(s, step) {
      SettlingOutcome(s, step);
      hide After;
    } else if Accepts(s, step) {
      AcceptNotes(s, step);
      hide After;
    } else {
      RecordFrame(s, step);
      hide After;
    }
  }

  lemma OnlySettlingRollsBack(s: State, step: Step, p: Pending, status: Status)
    requires Inv(s) && Enabled(s, step) && Settles(s, After(s, step), p, status) && status != Committed
    ensures step.SettlingWrite?
  {
    if Accepts(s, step) {
      RecordChanges(s, step);
      hide After;
    } else if !step.SettlingWrite? && !Commits(s, step) {
      RecordFrame(s, step);
      hide After;
    }
  }

  /** At the moment of a rollback the database is what it was when the old child had died. */
  lemma RollbackRestores(s: State, step: Step, p: Pending, status: Status)
    requires Inv(s) && Enabled(s, step) && Settles(s, After(s, step), p, status) && status != Committed
    ensures s.before.Some? && SameDatabase(After(s, step).disk.files, s.before.value, p.dbPath)
  {
    hide Inv;
    OnlySettlingRollsBack(s, step, p, status);
    AtSettling(s);
  }

  lemma AtSettling(s: State)
    requires Inv(s) && s.point.Settling?
    ensures s.alive == map[] && s.child.None? && s.before.Some? && IsPendingOn(s, s.point.p)
    ensures SameDatabase(s.disk.files, s.before.value, s.point.p.dbPath)
  {
    hide Precedes;
  }

  /** An update id is used once: after p has left the record it never comes back. */
  lemma {:induction false} PendingIsContiguous(states: seq<State>, steps: seq<Step>, p: Pending, i: nat, m: nat, k: nat)
    requires IsRun(states, steps) && Initial(states[0]) && i <= m <= k < |states|
    requires IsPendingOn(states[i], p) && IsPendingOn(states[k], p)
    ensures IsPendingOn(states[m], p)
  {
    hide After;
    hide Enabled;
    hide Precedes;
    if !IsPendingOn(states[m], p) {
      RunKeepsInv(states, steps, i);
      IssuedGrows(states, steps, i, m);
      NeverAgain(states, steps, p, m, k);
      assert false;
    }
  }

  lemma {:induction false} IssuedGrows(states: seq<State>, steps: seq<Step>, i: nat, m: nat)
    requires IsRun(states, steps) && Initial(states[0]) && i <= m < |states|
    ensures states[i].issued <= states[m].issued
  {
    hide Inv;
    hide After;
    hide Enabled;
    hide Precedes;
    if i < m {
      IssuedGrows(states, steps, i, m - 1);
      RunKeepsInv(states, steps, m - 1);
      IssuedChanges(states[m - 1], steps[m - 1]);
    }
  }

  lemma {:induction false} NeverAgain(states: seq<State>, steps: seq<Step>, p: Pending, m: nat, k: nat)
    requires IsRun(states, steps) && Initial(states[0]) && m <= k < |states|
    requires p.id in states[m].issued && !IsPendingOn(states[m], p)
    ensures !IsPendingOn(states[k], p)
  {
    hide Inv;
    hide After;
    hide Enabled;
    hide Precedes;
    if m < k {
      NeverAgain(states, steps, p, m, k - 1);
      IssuedGrows(states, steps, m, k - 1);
      RunKeepsInv(states, steps, k - 1);
      RecordChanges(states[k - 1], steps[k - 1]);
    }
  }

  /** j is the first moment of the run at which p is pending and no child is alive. */
  predicate OldChildGone(states: seq<State>, p: Pending, j: nat) {
    && j < |states| && IsPendingOn(states[j], p) && states[j].alive == map[]
    && forall i :: 0 <= i < j ==> !(IsPendingOn(states[i], p) && states[i].alive == map[])
  }

  lemma {:induction false} NothingNotedYet(states: seq<State>, steps: seq<Step>, p: Pending, j: nat, i: nat)
    requires IsRun(states, steps) && Initial(states[0]) && OldChildGone(states, p, j) && i < j
    ensures IsPendingOn(states[i], p) ==> states[i].before.None?
  {
    hide Inv;
    hide After;
    hide Enabled;
    hide Precedes;
    if IsPendingOn(states[i], p) {
      NothingNotedYet(states, steps, p, j, i - 1);
      RunKeepsInv(states, steps, i - 1);
      BeforeChanges(states[i - 1], steps[i - 1]);
    }
  }

  lemma NotedWhenDead(s: State, p: Pending)
    requires Inv(s) && IsPendingOn(s, p) && s.alive == map[]
    ensures s.before.Some?
  {
    hide Precedes;
  }

  lemma NotedAtDeath(states: seq<State>, steps: seq<Step>, p: Pending, j: nat)
    requires IsRun(states, steps) && Initial(states[0]) && OldChildGone(states, p, j)
    ensures states[j].before == Some(states[j].disk.files)
  {
    hide Inv, After, Enabled, Precedes;
    RunKeepsInv(states, steps, j - 1);
    NothingNotedYet(states, steps, p, j, j - 1);
    BeforeChanges(states[j - 1], steps[j - 1]);
    RunKeepsInv(states, steps, j);
    NotedWhenDead(states[j], p);
  }

  lemma {:induction false} NoteStays(states: seq<State>, steps: seq<Step>, p: Pending, j: nat, k: nat)
    requires IsRun(states, steps) && Initial(states[0]) && j <= k < |states|
    requires IsPendingOn(states[j], p) && states[j].before.Some? && IsPendingOn(states[k], p)
    ensures states[k].before == states[j].before
  {
    hide Inv;
    hide After;
    hide Enabled;
    hide Precedes;
    if j < k {
      PendingIsContiguous(states, steps, p, j, k - 1, k);
      NoteStays(states, steps, p, j, k - 1);
      RunKeepsInv(states, steps, k - 1);
      BeforeChanges(states[k - 1], steps[k - 1]);
      RecordChanges(states[k - 1], steps[k - 1]);
    }
  }

  /**
   * Crash-safe rollback. In every run, with crashes anywhere, including inside the backup and the
   * restore: when the record of p becomes rolled-back or failed, each of the three database files
   * is, absence included, what it was when the old child was gone and before any trial of p.
   */
  lemma CrashSafeRollback(states: seq<State>, steps: seq<Step>, p: Pending, j: nat, k: nat, status: Status)
    requires IsRun(states, steps) && Initial(states[0]) && OldChildGone(states, p, j)
    requires j <= k < |steps| && Settles(states[k], states[k + 1], p, status) && status != Committed
    ensures p.id !in states[j].trialed
    ensures SameDatabase(states[k + 1].disk.files, states[j].disk.files, p.dbPath)
  {
    NotedAtDeath(states, steps, p, j);
    NoteStays(states, steps, p, j, k);
    RunKeepsInv(states, steps, k);
    RollbackRestores(states[k], steps[k], p, status);
    NoTrialBeforeDeath(states, steps, p, j);
  }

  lemma {:induction false} NoTrialBeforeDeath(states: seq<State>, steps: seq<Step>, p: Pending, j: nat)
    requires IsRun(states, steps) && Initial(states[0]) && OldChildGone(states, p, j)
    ensures p.id !in states[j].trialed
  {
    hide Inv, After, Enabled, Precedes, Compare;
    RunKeepsInv(states, steps, j - 1);
    NothingNotedYet(states, steps, p, j, j - 1);
    var s, step := states[j - 1], steps[j - 1];
    RecordChanges(s, step);
    UnnotedIsUntried(s, p);
    TrialsNeedNoLiveChild(s, step);
  }

  /** An update that is not issued yet, or whose old child was not seen dead yet, had no trial. */
  lemma UnnotedIsUntried(s: State, p: Pending)
    requires Inv(s)
    ensures p.id !in s.issued || (IsPendingOn(s, p) && s.before.None?) ==> p.id !in s.trialed
  {
    hide Precedes;
  }

  lemma TrialsNeedNoLiveChild(s: State, step: Step)
    requires Inv(s) && Enabled(s, step)
    ensures After(s, step).trialed == s.trialed || After(s, step).alive != map[]
  {
    hide Precedes;
    hide CopiedUpTo, SameDatabase, Rejection, DataInv, RolesInv;
    hide Compare;
    if step.Continue? && s.point.StartingTrial? {
      assert s.spawned in After(s, step).alive;
    }
  }

  /** An update never gets a second terminal status, across any number of launcher lives. */
  lemma {:induction false} OutcomesAreFinal(states: seq<State>, steps: seq<Step>, id: string, j: nat, k: nat)
    requires IsRun(states, steps) && Initial(states[0]) && j <= k < |states| && id in states[j].outcomes
    ensures id in states[k].outcomes && states[k].outcomes[id] == states[j].outcomes[id]
  {
    hide Inv;
    hide After;
    hide Enabled;
    hide Precedes;
    if j < k {
      OutcomesAreFinal(states, steps, id, j, k - 1);
      RunKeepsInv(states, steps, k - 1);
      OutcomeChanges(states[k - 1], steps[k - 1]);
    }
  }
}
