/**
 * A pending update always comes to an end as long as the launcher itself neither crashes nor is
 * stopped and its restore and state writes succeed: every step that is not a stutter brings it
 * nearer, some step is always possible, and at most one trial is spawned on the way.
 */
module LauncherProgress {
  import opened Optional
  import opened ServiceVersion
  import opened LauncherModel
  import opened LauncherSafety
  import opened LauncherTheorems

  predicate InBackup(point: Point) {
    point.CheckingBackup? || point.ClearingStaging? || point.Snapshotting? || point.SyncingBackup?
      || point.AbandoningStaging?
  }

  /**
   * No crash, stop or child process error; state writes and restores succeed (a failing backup or
   * spawn is allowed); and a server started as active does not claim to be a prepared trial.
   */
  predicate Quiet(s: State, step: Step) {
    match step
    case Crash => false
    case Boot => false
    case Stop => false
    case ChildError => false
    case IoFails => InBackup(s.point)
    case SettlingWrite(io) => io.Done?
    case RequestUpdate(_, _, _, _, io) => io.Done?
    case Prepared(number, _, io) => io.Done? && (Manages(s, number) ==> s.child.value.role == Trial)
    case _ => true
  }

  /** The launcher runs and is not on its way down. */
  predicate Up(s: State) {
    !(s.point.Down? || s.point.Failing? || (s.point.Terminating? && s.point.next.ToDown?))
  }

  function PointRank(s: State): nat {
    match s.point
    case Recovering => 90
    case Idle => if s.child.Some? && s.child.value.role == Trial then 40 else 90
    case Terminating(_, ToTrial(_)) => 80
    case CheckingBackup(_) => 70
    case ClearingStaging(_) => 69
    case Snapshotting(_, i) => if i <= 4 then 68 - i else 0
    case SyncingBackup(_) => 60
    case AbandoningStaging(_) => 58
    case StartingTrial(_) => 50
    case Terminating(_, ToPrevious(_, _)) => 30
    case Returning(_, _) => 20
    case Marking(_, _) => 19
    case Restoring(_, _, i) => if i <= 4 then 18 - i else 0
    case Settling(_, _) => 10
    case _ => 0
  }

  /** How far the pending update is from its end: first the hand-off, then the trial, then the return. */
  function Rank(s: State): nat {
    PointRank(s) + if s.alive == map[] then 0 else 1
  }

  /** A step that leaves the update where it is: outside writes, a partial copy, or an event without effect. */
  predicate Stutters(s: State, step: Step)
    requires Enabled(s, step)
  {
    step.ChildWrites? || step.Install? || step.Torn? || After(s, step) == s
  }

  predicate Pends(s: State, p: Pending) {
    Inv(s) && Up(s) && IsPendingOn(s, p)
  }

  /** The end of p: its one terminal record, and the launcher still up. */
  predicate Ends(s: State, s': State, p: Pending) {
    && Inv(s') && Up(s') && s'.disk.record.update.Some? && s'.disk.record.update.value.Settled?
    && s'.disk.record.update == Some(Terminal(p, s'.disk.record.update.value.status))
    && p.id !in s.outcomes && p.id in s'.outcomes
    && s'.outcomes[p.id] == s'.disk.record.update.value.status
  }

  lemma SnapshotBound(s: State, p: Pending)
    requires Pends(s, p)
    ensures s.point.Snapshotting? ==> s.point.i <= 3
    ensures s.point.Restoring? ==> s.point.i <= 3
    ensures !s.point.Discarding? && !s.point.StartingActive?
    ensures s.point.Idle? ==> s.child.Some? && Manages(s, s.child.value.number)
  {
    hide Precedes;
  }

  lemma ContinueAdvances(s: State, p: Pending)
    requires Pends(s, p) && CanContinue(s)
    ensures IsPendingOn(Continued(s), p) && Up(Continued(s)) && Rank(Continued(s)) < Rank(s)
  {
    SnapshotBound(s, p);
    MemoryMatches(s);
    ContinuedFrame(s);
    hide Inv;
    hide Precedes;
    if s.point.StartingTrial? {
      TrialRanksLower(s);
    } else {
      ContinuedAlive(s);
      PointFalls(s, p);
    }
    hide Continued;
    hide PointRank;
  }

  lemma TrialRanksLower(s: State)
    requires CanContinue(s) && s.point.StartingTrial?
    ensures Up(Continued(s)) && Rank(Continued(s)) < Rank(s)
  {
  }

  lemma PointFalls(s: State, p: Pending)
    requires CanContinue(s) && Up(s) && s.memory.update == Some(Awaiting(p))
    requires !s.point.StartingTrial? && !s.point.StartingActive? && !s.point.Discarding?
    requires s.point.Snapshotting? ==> s.point.i <= 3
    requires s.point.Restoring? ==> s.point.i <= 3
    ensures Up(Continued(s)) && PointRank(Continued(s)) < PointRank(s)
  {
  }

  lemma ExitAdvances(s: State, p: Pending, number: nat)
    requires Pends(s, p) && number in s.alive
    ensures IsPendingOn(After(s, ChildExits(number)), p) && Up(After(s, ChildExits(number)))
    ensures Rank(After(s, ChildExits(number))) < Rank(s)
  {
    hide Precedes;
    assert s.alive - {number} == map[];
  }

  /** A commit, or the write that settles a rollback, ends p. */
  lemma SettlingEnds(s: State, step: Step, p: Pending)
    requires Pends(s, p) && Enabled(s, step) && Quiet(s, step) && (step.SettlingWrite? || Commits(s, step))
    ensures Ends(s, After(s, step), p)
  {
    StepPreserves(s, step);
    PendingIsNew(s);
    hide Inv;
    MemoryMatches(s);
  }

  lemma MemoryMatches(s: State)
    requires Inv(s) && Up(s)
    ensures s.memory == s.disk.record
    ensures Subject(s.point).Some? ==> s.disk.record.update == Some(Awaiting(Subject(s.point).value))
    ensures IsPending(s.disk.record) && s.child.Some? && s.child.value.role == Trial ==>
      s.child.value.version == s.disk.record.update.value.p.targetVersion
  {
    hide Precedes;
  }

  lemma EventAdvances(s: State, step: Step, p: Pending)
    requires Pends(s, p) && Enabled(s, step) && Quiet(s, step) && !Stutters(s, step) && !Commits(s, step)
    requires step.RequestUpdate? || step.BeginTrial? || step.Prepared? || step.PreparedTimeout? || step.ExitHandled?
    ensures IsPendingOn(After(s, step), p) && Up(After(s, step)) && Rank(After(s, step)) < Rank(s)
  {
    SnapshotBound(s, p);
    MemoryMatches(s);
    hide Inv;
    hide Precedes;
    hide Compare;
  }

  lemma FailureAdvances(s: State, step: Step, p: Pending)
    requires Pends(s, p) && Enabled(s, step) && Quiet(s, step) && (step.IoFails? || step.SpawnFails?)
    ensures IsPendingOn(After(s, step), p) && Up(After(s, step)) && Rank(After(s, step)) < Rank(s)
  {
    SnapshotBound(s, p);
    hide Inv;
    hide Precedes;
  }

  /** A quiet step stutters, or brings the update strictly nearer to its end, or is its end. */
  lemma QuietStepsAdvance(s: State, step: Step, p: Pending)
    requires Pends(s, p) && Enabled(s, step) && Quiet(s, step)
    ensures
      var s' := After(s, step);
      || (Pends(s', p) && Stutters(s, step) && Rank(s') == Rank(s) && s'.trialed == s.trialed)
      || (Pends(s', p) && Rank(s') < Rank(s))
      || Ends(s, s', p)
  {
    StepPreserves(s, step);
    SnapshotBound(s, p);
    if step.SettlingWrite? || Commits(s, step) {
      SettlingEnds(s, step, p);
    } else if Stutters(s, step) {
      hide Inv;
      hide Precedes;
    } else {
      match step {
        case Continue => ContinueAdvances(s, p);
        case ChildExits(number) => ExitAdvances(s, p, number);
        case IoFails => FailureAdvances(s, step, p);
        case SpawnFails => FailureAdvances(s, step, p);
        case RequestUpdate(_, _, _, _, _) => EventAdvances(s, step, p);
        case BeginTrial(_) => EventAdvances(s, step, p);
        case Prepared(_, _, _) => EventAdvances(s, step, p);
        case PreparedTimeout(_) => EventAdvances(s, step, p);
        case ExitHandled(_) => EventAdvances(s, step, p);
        case _ =>
      }
      hide Inv;
    }
  }

  /** The event a timer brings about. */
  function Rings(alarm: Alarm): Step {
    match alarm
    case HandOff(number) => BeginTrial(number)
    case PreparedDue(number) => PreparedTimeout(number)
  }

  /** While an update is pending an idle launcher has the timer set that moves it on. */
  predicate TimerInv(s: State) {
    s.point.Idle? && s.child.Some? && IsPending(s.disk.record) ==>
      s.timer == Some(if s.child.value.role == Active then HandOff(s.child.value.number)
        else PreparedDue(s.child.value.number))
  }

  lemma StepKeepsTimer(s: State, step: Step)
    requires Inv(s) && TimerInv(s) && Enabled(s, step)
    ensures TimerInv(After(s, step))
  {
    hide DataInv, Precedes, Compare;
    if Accepts(s, step) {
      AcceptedState(s, step, Pending(step.id, s.child.value.version, step.target.v, step.dbPath));
      hide After;
    } else {
      hide Rejection;
    }
  }

  /** In every run, with any crashes, the timer is set whenever it is needed. */
  lemma {:induction false} TimerIsSet(states: seq<State>, steps: seq<Step>, k: nat)
    requires IsRun(states, steps) && Initial(states[0]) && k < |states|
    ensures TimerInv(states[k])
  {
    hide Inv, After, Enabled;
    if k > 0 {
      RunKeepsInv(states, steps, k - 1);
      TimerIsSet(states, steps, k - 1);
      StepKeepsTimer(states[k - 1], steps[k - 1]);
    }
  }

  /** What moves a pending update on from here: its timer, the exit of a child, or the transition in progress. */
  function Forward(s: State): Step {
    match s.point
    case Idle => if s.timer.Some? then Rings(s.timer.value) else Install(s.disk.runtimes)
    case Terminating(number, _) => if number in s.alive then ChildExits(number) else Continue
    case Snapshotting(_, _) => if CanContinue(s) then Continue else IoFails
    case StartingTrial(_) => if CanContinue(s) then Continue else SpawnFails
    case Settling(_, _) => SettlingWrite(Done)
    case _ => Continue
  }

  /** The update is never stuck: a timer that was set, or an operation that is due, moves it on. */
  lemma SomeStepAdvances(s: State, p: Pending)
    requires Pends(s, p) && TimerInv(s)
    ensures Enabled(s, Forward(s)) && Quiet(s, Forward(s)) && !Stutters(s, Forward(s))
    ensures s.point.Idle? ==> s.timer.Some? && Forward(s) == Rings(s.timer.value)
  {
    hide Precedes;
    hide Compare;
    SnapshotBound(s, p);
    MemoryMatches(s);
    if s.point.Terminating? && s.point.number in s.alive {
      assert s.point.number !in After(s, Forward(s)).alive;
    }
  }

  /** A run of quiet steps that starts with p pending. */
  ghost predicate QuietRun(states: seq<State>, steps: seq<Step>, p: Pending) {
    && IsRun(states, steps) && Pends(states[0], p)
    && forall k {:trigger steps[k]} :: 0 <= k < |steps| ==> Quiet(states[k], steps[k])
  }

  /** How many of the first n steps did not stutter. */
  ghost function Moves(states: seq<State>, steps: seq<Step>, n: nat): nat
    requires IsRun(states, steps) && n <= |steps|
  {
    if n == 0 then 0
    else Moves(states, steps, n - 1) + if Stutters(states[n - 1], steps[n - 1]) then 0 else 1
  }

  /** While p is pending, every step that did not stutter has used up rank: no more than Rank of them can occur. */
  lemma {:induction false} MovesAreBounded(states: seq<State>, steps: seq<Step>, p: Pending, n: nat)
    requires QuietRun(states, steps, p) && n <= |steps|
    requires forall k :: 0 <= k < n ==> IsPendingOn(states[k], p)
    ensures n > 0 ==> Pends(states[n - 1], p)
    ensures IsPendingOn(states[n], p) ==>
      Pends(states[n], p) && Moves(states, steps, n) + Rank(states[n]) <= Rank(states[0])
    ensures !IsPendingOn(states[n], p) ==>
      Ends(states[n - 1], states[n], p) && Moves(states, steps, n) <= Rank(states[0]) + 1
  {
    hide Inv;
    hide After;
    hide Enabled;
    hide Stutters;
    hide Rank;
    if n > 0 {
      MovesAreBounded(states, steps, p, n - 1);
      QuietStepsAdvance(states[n - 1], steps[n - 1], p);
    }
  }

  /** The step spawns a trial. */
  predicate SpawnsTrial(s: State, step: Step) {
    step == Continue && s.point.StartingTrial?
  }

  lemma {:induction false} RankNeverGrows(states: seq<State>, steps: seq<Step>, p: Pending, i: nat, k: nat)
    requires QuietRun(states, steps, p) && i <= k <= |steps|
    requires forall m :: 0 <= m <= k ==> IsPendingOn(states[m], p)
    ensures Pends(states[i], p) && Pends(states[k], p) && Rank(states[k]) <= Rank(states[i])
  {
    hide Inv;
    hide After;
    hide Enabled;
    hide Stutters;
    hide Rank;
    MovesAreBounded(states, steps, p, i);
    if i < k {
      RankNeverGrows(states, steps, p, i, k - 1);
      QuietStepsAdvance(states[k - 1], steps[k - 1], p);
    }
  }

  /** Without a crash no update is tried twice. */
  lemma OneTrialPerUpdate(states: seq<State>, steps: seq<Step>, p: Pending, i: nat, k: nat)
    requires QuietRun(states, steps, p) && i < k < |steps|
    requires forall m :: 0 <= m <= k ==> IsPendingOn(states[m], p)
    requires SpawnsTrial(states[i], steps[i])
    ensures !SpawnsTrial(states[k], steps[k])
  {
    hide Inv, After, Enabled, Rank, Quiet, Up;
    RankNeverGrows(states, steps, p, 0, i);
    RankNeverGrows(states, steps, p, i + 1, k);
    SpawnUsesRank(states[i], p);
    assert states[i + 1] == After(states[i], steps[i]);
    if SpawnsTrial(states[k], steps[k]) {
      SpawnUsesRank(states[k], p);
    }
  }

  /** Trials are spawned at one rank, and leave it. */
  lemma SpawnUsesRank(s: State, p: Pending)
    requires Pends(s, p) && Enabled(s, Continue) && s.point.StartingTrial?
    ensures Rank(s) == 50 && Rank(After(s, Continue)) < 50
  {
    ContinueAdvances(s, p);
    hide Precedes;
  }
}
