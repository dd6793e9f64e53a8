/**
 * That updates go through: from an idle launcher an admissible request leads over hand-off, backup
 * and trial to the selected target, and an update that a crash cut short still does.
 */
module LauncherUpdates {
  import opened Optional
  import opened ServiceVersion
  import opened LauncherModel
  import opened LauncherSafety

  /** The steps can be taken one after the other, and end in the second state. */
  ghost predicate Leads(s: State, steps: seq<Step>, end: State)
    decreases |steps|
  {
    if steps == [] then s == end
    else Enabled(s, steps[0]) && Leads(After(s, steps[0]), steps[1..], end)
  }

  lemma {:induction false} LeadsOn(s: State, first: seq<Step>, mid: State, rest: seq<Step>, end: State)
    requires Leads(s, first, mid) && Leads(mid, rest, end)
    ensures Leads(s, first + rest, end)
    decreases |first|
  {
    hide Enabled, After;
    if first == [] {
      assert first + rest == rest;
    } else {
      assert (first + rest)[1..] == first[1..] + rest;
      LeadsOn(After(s, first[0]), first[1..], mid, rest, end);
    }
  }

  lemma LeadsByOne(s: State, steps: seq<Step>, mid: State, step: Step)
    requires Leads(s, steps, mid) && Enabled(mid, step)
    ensures Leads(s, steps + [step], After(mid, step))
  {
    assert Leads(After(mid, step), [], After(mid, step));
    assert [step][1..] == [];
    assert Leads(mid, [step], After(mid, step));
    hide Enabled, After;
    LeadsOn(s, steps, mid, [step], After(mid, step));
  }

  lemma StartHere(s: State) returns (steps: seq<Step>)
    ensures steps == [] && Leads(s, steps, s)
  {
    steps := [];
  }

  // ---- from the old child's end to the trial ----

  /** A transition for p is at this point, and nothing runs. */
  predicate Works(s: State, p: Pending, point: Point) {
    && s.point == point && s.alive == map[] && s.child.None? && s.memory.update == Some(Awaiting(p))
    && s.memory == s.disk.record
  }

  /** The target was tried, said it was prepared, and is selected and served. */
  predicate CommittedWith(s: State, p: Pending) {
    && s.point.Idle? && s.disk.record == s.memory == ServiceState(p.targetVersion, Some(Terminal(p, Committed)))
    && p.id in s.trialed && p.id in s.outcomes && s.outcomes[p.id] == Committed
    && s.child.Some? && s.child.value.role == Active && s.child.value.version == p.targetVersion
    && s.alive == map[s.child.value.number := p.targetVersion]
  }

  lemma TrialCommits(s: State, p: Pending) returns (steps: seq<Step>, end: State)
    requires Works(s, p, StartingTrial(p)) && p.targetVersion in s.disk.runtimes
    ensures Leads(s, steps, end) && CommittedWith(end, p)
  {
    steps := StartHere(s);
    var trial, number := After(s, Continue), s.spawned;
    assert trial.point == Idle && trial.child == Some(Child(number, p.targetVersion, Trial));
    assert trial.alive == map[number := p.targetVersion];
    LeadsByOne(s, steps, s, Continue);
    steps := steps + [Continue];
    var prepared := Prepared(number, p.id, Done);
    var committed := After(trial, prepared);
    assert committed.point == Discarding(p.id, None);
    assert committed.child == Some(Child(number, p.targetVersion, Active));
    LeadsByOne(s, steps, trial, prepared);
    steps := steps + [prepared];
    end := After(committed, DiscardEnds(true));
    LeadsByOne(s, steps, committed, DiscardEnds(true));
    steps := steps + [DiscardEnds(true)];
  }

  /** One file is staged, or is not there and is not the main one. */
  lemma StagesOne(s: State, p: Pending, i: nat)
    requires i < |SUFFIXES| && Works(s, p, Snapshotting(p, i)) && p.dbPath in s.disk.files
    ensures CanContinue(s)
    ensures var next := After(s, Continue);
      && Works(next, p, Snapshotting(p, i + 1))
      && next.disk.files == s.disk.files && next.disk.runtimes == s.disk.runtimes
  {
    assert p.dbPath + "" == p.dbPath;
  }

  /** Without a backup but with a main database file one is taken. */
  lemma BackupSucceeds(s: State, p: Pending) returns (steps: seq<Step>, end: State)
    requires Works(s, p, CheckingBackup(p)) && (p.id in s.disk.backups || p.dbPath in s.disk.files)
    ensures Leads(s, steps, end) && Works(end, p, StartingTrial(p)) && end.disk.runtimes == s.disk.runtimes
  {
    steps := StartHere(s);
    end := After(s, Continue);
    LeadsByOne(s, steps, s, Continue);
    steps := steps + [Continue];
    if p.id !in s.disk.backups {
      var cleared := After(end, Continue);
      LeadsByOne(s, steps, end, Continue);
      steps := steps + [Continue];
      var rest, staged := StagingSucceeds(cleared, p);
      LeadsOn(s, steps, cleared, rest, staged);
      steps, end := steps + rest, staged;
    }
  }

  lemma StagingSucceeds(s: State, p: Pending) returns (steps: seq<Step>, end: State)
    requires Works(s, p, Snapshotting(p, 0)) && p.dbPath in s.disk.files
    ensures Leads(s, steps, end) && Works(end, p, StartingTrial(p)) && end.disk.runtimes == s.disk.runtimes
  {
    hide Enabled, After, CanContinue;
    steps := StartHere(s);
    end := s;
    for i := 0 to |SUFFIXES|
      invariant Leads(s, steps, end) && Works(end, p, Snapshotting(p, i))
      invariant end.disk.files == s.disk.files && end.disk.runtimes == s.disk.runtimes
    {
      StagesOne(end, p, i);
      ContinueIsEnabled(end);
      LeadsByOne(s, steps, end, Continue);
      steps, end := steps + [Continue], After(end, Continue);
    }
    Publishes(end, p);
    LeadsByOne(s, steps, end, Continue);
    steps, end := steps + [Continue], After(end, Continue);
    LeadsByOne(s, steps, end, Continue);
    steps, end := steps + [Continue], After(end, Continue);
  }

  lemma ContinueIsEnabled(s: State)
    ensures Enabled(s, Continue) <==> CanContinue(s)
  {
  }

  lemma Publishes(s: State, p: Pending)
    requires Works(s, p, Snapshotting(p, |SUFFIXES|))
    ensures Enabled(s, Continue)
    ensures var published := After(s, Continue);
      && Enabled(published, Continue)
      && var next := After(published, Continue);
      Works(next, p, StartingTrial(p)) && next.disk.runtimes == s.disk.runtimes
  {
  }

  /** From the backup to the committed trial. */
  lemma PendingCommits(s: State, p: Pending) returns (steps: seq<Step>, end: State)
    requires Works(s, p, CheckingBackup(p)) && (p.id in s.disk.backups || p.dbPath in s.disk.files)
    requires p.targetVersion in s.disk.runtimes
    ensures Leads(s, steps, end) && CommittedWith(end, p)
  {
    hide Enabled, After;
    var mid: State;
    steps, mid := BackupSucceeds(s, p);
    var rest;
    rest, end := TrialCommits(mid, p);
    LeadsOn(s, steps, mid, rest, end);
    steps := steps + rest;
  }

  // ---- requests ----

  /** What a request must meet: an idle selected server, nothing pending, and an installed, newer, exact target. */
  predicate Admissible(s: State, target: Requested, dbPath: string) {
    && s.point.Idle? && s.child.Some? && s.child.value.role == Active
    && s.child.value.version == s.memory.activeVersion
    && (s.memory.update.Some? ==> s.memory.update.value.Settled?)
    && target.Exact? && Precedes(s.child.value.version, target.v) && "/" <= dbPath && target.v in s.disk.runtimes
  }

  /** The old child is told to stop, and has exited. */
  lemma HandsOff(s: State, p: Pending, number: nat) returns (steps: seq<Step>, end: State)
    requires s.point.Idle? && s.child.Some? && s.child.value.number == number && s.child.value.role == Active
    requires s.alive.Keys <= {number} && s.memory == s.disk.record && s.memory.update == Some(Awaiting(p))
    ensures Leads(s, steps, end) && Works(end, p, CheckingBackup(p))
    ensures end.disk == s.disk
  {
    steps := StartHere(s);
    LeadsByOne(s, steps, s, BeginTrial(number));
    end := After(s, BeginTrial(number));
    steps := steps + [BeginTrial(number)];
    if number in s.alive {
      LeadsByOne(s, steps, end, ChildExits(number));
      end := After(end, ChildExits(number));
      steps := steps + [ChildExits(number)];
    }
    assert end.alive == map[] && end.point == Terminating(number, ToTrial(p));
    LeadsByOne(s, steps, end, Continue);
    end := After(end, Continue);
    steps := steps + [Continue];
  }

  lemma RequestIsAccepted(s: State, number: nat, v: Version, dbPath: string, id: string)
    requires Inv(s) && Admissible(s, Exact(v), dbPath) && Manages(s, number)
    requires Enabled(s, RequestUpdate(number, Exact(v), dbPath, id, Done))
    ensures var p := Pending(id, s.child.value.version, v, dbPath);
      var next := After(s, RequestUpdate(number, Exact(v), dbPath, id, Done));
      && next.disk == s.disk.(record := s.disk.record.(update := Some(Awaiting(p)))) && next.memory == next.disk.record
      && next.point.Idle? && next.child == s.child && next.alive == s.alive
      && s.alive.Keys <= {number}
  {
    PrecedesIsGreater(s.child.value.version, v);
    hide Compare, Precedes, DataInv, RolesInv;
  }

  lemma PrecedesIsGreater(a: Version, b: Version)
    ensures Precedes(a, b) <==> Compare(b, a) > 0
  {
    CompareIsTotalPreorder();
  }

  /**
   * From every idle state of the launcher an admissible request, with a database file to back up, leads to a committed
   * update with the requested version selected.
   */
  lemma AdmissibleRequestCommits(s: State, number: nat, v: Version, dbPath: string, id: string)
      returns (steps: seq<Step>, end: State)
    requires Inv(s) && Admissible(s, Exact(v), dbPath) && Manages(s, number) && dbPath in s.disk.files
    requires Enabled(s, RequestUpdate(number, Exact(v), dbPath, id, Done))
    ensures Leads(s, [RequestUpdate(number, Exact(v), dbPath, id, Done)] + steps, end)
    ensures CommittedWith(end, Pending(id, s.child.value.version, v, dbPath))
  {
    hide Inv, Enabled, After;
    var p, request := Pending(id, s.child.value.version, v, dbPath), RequestUpdate(number, Exact(v), dbPath, id, Done);
    var none := StartHere(s);
    RequestIsAccepted(s, number, v, dbPath, id);
    LeadsByOne(s, none, s, request);
    assert none + [request] == [request];
    var accepted := After(s, request);
    var first, mid := HandsOff(accepted, p, number);
    var rest;
    rest, end := PendingCommits(mid, p);
    LeadsOn(accepted, first, mid, rest, end);
    steps := first + rest;
    LeadsOn(s, [request], accepted, steps, end);
  }

  /** An update that a crash cut short, unless a restore was under way, still goes through after the next start. */
  lemma InterruptedUpdateCommits(s: State, p: Pending) returns (steps: seq<Step>, end: State)
    requires Inv(s) && s.point.Down? && s.alive == map[] && s.child.None? && s.disk.record.update == Some(Awaiting(p))
    requires !RestoreMarked(s, p.id) && p.targetVersion in s.disk.runtimes
    requires p.id in s.disk.backups || p.dbPath in s.disk.files
    ensures Leads(s, [Boot] + steps, end) && CommittedWith(end, p)
  {
    hide Inv;
    var none := StartHere(s);
    LeadsByOne(s, none, s, Boot);
    assert none + [Boot] == [Boot];
    var booted := After(s, Boot);
    LeadsByOne(s, [Boot], booted, Continue);
    var due := After(booted, Continue);
    assert Works(due, p, CheckingBackup(p));
    hide Enabled, After;
    var rest;
    rest, end := PendingCommits(due, p);
    LeadsOn(s, [Boot] + [Continue], due, rest, end);
    steps := [Continue] + rest;
    assert [Boot] + steps == [Boot] + [Continue] + rest;
  }

  /** An update whose restore had begun, or whose target is gone, is given up without a backup or a trial. */
  lemma HopelessUpdateIsGivenUp(s: State, p: Pending)
    requires s.point.Recovering? && s.memory.update == Some(Awaiting(p))
    requires RestoreMarked(s, p.id) || p.targetVersion !in s.disk.runtimes
    ensures Enabled(s, Continue) && After(s, Continue) == s.(point := Returning(p, Failed))
  {
  }

  /** Every reason for refusing a request: the fault it is given for. */
  predicate Faulty(reason: Reason, memory: ServiceState, child: Child, runtimes: set<Version>, target: Requested,
      dbPath: string) {
    match reason
    case NotActive => child.role == Trial
    case NotSelected => child.version != memory.activeVersion
    case AlreadyPending => memory.update.Some? && memory.update.value.Awaiting?
    case NotExact => target == Inexact
    case NotNewer => target.Exact? && !Precedes(child.version, target.v)
    case NotAbsolute => !("/" <= dbPath)
    case NotInstalled => target.Exact? && target.v !in runtimes
  }

  /** The order in which the faults are looked for. */
  function Position(reason: Reason): nat {
    match reason
    case NotActive => 0
    case NotSelected => 1
    case AlreadyPending => 2
    case NotExact => 3
    case NotNewer => 4
    case NotAbsolute => 5
    case NotInstalled => 6
  }

  /** The reason has its fault, and no fault is there that is looked for earlier. */
  ghost predicate IsFirstFault(reason: Reason, memory: ServiceState, child: Child, runtimes: set<Version>,
      target: Requested, dbPath: string) {
    && Faulty(reason, memory, child, runtimes, target, dbPath)
    && forall other :: Position(other) < Position(reason) ==>
      !Faulty(other, memory, child, runtimes, target, dbPath)
  }

  /** A request is refused for its first fault, and accepted without one. */
  lemma RefusedForFirstFault(memory: ServiceState, child: Child, runtimes: set<Version>, target: Requested,
      dbPath: string)
    ensures var reply := Rejection(memory, child, runtimes, target, dbPath);
      reply.Some? ==> IsFirstFault(reply.value, memory, child, runtimes, target, dbPath)
  {
    if target.Exact? {
      PrecedesIsGreater(child.version, target.v);
    }
    assert IsAbsolute(dbPath) <==> "/" <= dbPath;
    hide Compare, Precedes, IsAbsolute;
  }

  lemma AcceptedWhen(memory: ServiceState, child: Child, runtimes: set<Version>, target: Requested, dbPath: string)
    ensures Rejection(memory, child, runtimes, target, dbPath).None? <==>
      && child.role == Active && child.version == memory.activeVersion && !IsPending(memory)
      && target.Exact? && Compare(target.v, child.version) > 0 && IsAbsolute(dbPath) && target.v in runtimes
  {
    hide Compare;
  }
}
