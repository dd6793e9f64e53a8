/**
 * The service launcher as a system of small steps.
 *
 * One step is one durable operation, one reaction to an event, or one move of the world outside
 * (a child writes or exits, a runtime is installed, the launcher process dies). Transitions of the
 * launcher are serialized, so a single program point says how far the current one has come.
 * Queued events are not listed: any event, stale or not, may be handled whenever the launcher is
 * idle, which covers every queue the real program can have. `timer` says which event is still to
 * come by itself.
 */
module LauncherModel {
  import opened Optional
  import opened ServiceVersion

  type Content = seq<bv8>
  type Files = map<string, Content>

  /** SQLite keeps the main file, the write-ahead log and the shared-memory file. */
  const SUFFIXES: seq<string> := ["", "-wal", "-shm"]

  datatype Status = Committed | RolledBack | Failed
  datatype Pending = Pending(id: string, fromVersion: Version, targetVersion: Version, dbPath: string)
  datatype Record = Awaiting(p: Pending)
                  | Settled(id: string, fromVersion: Version, targetVersion: Version, status: Status)
  datatype ServiceState = ServiceState(activeVersion: Version, update: Option<Record>)

  /** A complete backup directory: file contents by suffix, and whether the restore marker is there. */
  datatype Backup = Backup(files: Files, restorePending: bool)

  datatype Disk = Disk(
    record: ServiceState,
    files: Files,
    staging: map<string, Files>,
    backups: map<string, Backup>,
    runtimes: set<Version>)

  datatype Role = Active | Trial
  datatype Child = Child(number: nat, version: Version, role: Role)

  /** The timer of an accepted update, or of a trial that is to say it is prepared. */
  datatype Alarm = HandOff(number: nat) | PreparedDue(number: nat)

  /** What follows once a child that was told to stop has exited. */
  datatype Next = ToTrial(p: Pending) | ToPrevious(p: Pending, status: Status) | ToDown

  datatype Point =
    | Down
    | Recovering
    | Idle
    | Terminating(number: nat, next: Next)
    | CheckingBackup(p: Pending)
    | ClearingStaging(p: Pending)
    | Snapshotting(p: Pending, i: nat)
    | SyncingBackup(p: Pending)
    | AbandoningStaging(p: Pending)
    | StartingTrial(p: Pending)
    | Returning(p: Pending, status: Status)
    | Marking(p: Pending, status: Status)
    | Restoring(p: Pending, status: Status, i: nat)
    | Settling(p: Pending, status: Status)
    | Discarding(id: string, restart: Option<Version>)
    | StartingActive(v: Version)
    | Failing

  /**
   * `alive` are the running child processes; `memory`, `child` and `timer` belong to the launcher
   * process. A timer that has gone off counts as set until its event is handled.
   * The last five fields are history: how many children were ever spawned, which update ids were
   * ever issued, which of them ever had a trial spawned, the live files as the old child of the
   * pending update left them, and the terminal status each update got.
   */
  datatype State = State(
    disk: Disk,
    alive: map<nat, Version>,
    point: Point,
    memory: ServiceState,
    child: Option<Child>,
    timer: Option<Alarm>,
    spawned: nat,
    issued: set<string>,
    trialed: set<string>,
    before: Option<Files>,
    outcomes: map<string, Status>)

  datatype Requested = Exact(v: Version) | Inexact
  datatype Reason = NotActive | NotSelected | AlreadyPending | NotExact | NotNewer | NotAbsolute | NotInstalled

  /** A write of the state file (with the message sent after it) succeeds, or throws before or after its rename. */
  datatype Io = Done | LostBefore | LostAfter

  datatype Step =
    // the world outside
    | ChildWrites(files: Files)
    | ChildExits(number: nat)
    | Install(runtimes: set<Version>)
    | Crash
    | Boot
    // the transition in progress
    | Continue
    | Torn(content: Content)
    | IoFails
    | SpawnFails
    | SettlingWrite(io: Io)
    | DiscardPart(left: Backup)
    | DiscardEnds(removed: bool)
    // events, handled when no transition is in progress
    | RequestUpdate(number: nat, target: Requested, dbPath: string, id: string, io: Io)
    | BeginTrial(number: nat)
    | Prepared(number: nat, updateId: string, io: Io)
    | PreparedTimeout(number: nat)
    | ExitHandled(number: nat)
    | Stop
    | ChildError

  predicate IsPending(s: ServiceState) {
    s.update.Some? && s.update.value.Awaiting?
  }

  predicate IsAbsolute(path: string) {
    path != "" && path[0] == '/'
  }

  /** The checks of an update request, in the order they are made. */
  function Rejection(memory: ServiceState, child: Child, runtimes: set<Version>, target: Requested,
      dbPath: string): Option<Reason> {
    if child.role != Active then Some(NotActive)
    else if child.version != memory.activeVersion then Some(NotSelected)
    else if IsPending(memory) then Some(AlreadyPending)
    else if target.Inexact? then Some(NotExact)
    else if Compare(target.v, child.version) <= 0 then Some(NotNewer)
    else if !IsAbsolute(dbPath) then Some(NotAbsolute)
    else if target.v !in runtimes then Some(NotInstalled)
    else None
  }

  function Terminal(p: Pending, status: Status): Record {
    Settled(p.id, p.fromVersion, p.targetVersion, status)
  }

  /** While an update is pending, untried and no child runs, the files are as the old child left them. */
  function Note(s: State): State {
    if IsPending(s.disk.record) && s.alive == map[] && s.disk.record.update.value.p.id !in s.trialed && s.before.None?
    then s.(before := Some(s.disk.files))
    else s
  }

  function WithRecord(s: State, record: ServiceState): State {
    s.(disk := s.disk.(record := record), memory := record)
  }

  /** Starting a child: it runs, and the launcher manages it. */
  function Spawn(s: State, version: Version, role: Role): State {
    s.(alive := s.alive[s.spawned := version], child := Some(Child(s.spawned, version, role)),
       timer := if role == Trial then Some(PreparedDue(s.spawned)) else s.timer,
       spawned := s.spawned + 1, point := Idle)
  }

  /** Tell the managed child, if there is one, to stop; its exit is awaited before `next`. */
  function Release(s: State, next: Next): State {
    match s.child
    case None => s.(point := AfterExit(next))
    case Some(c) => s.(child := None, point := Terminating(c.number, next))
  }

  function AfterExit(next: Next): Point {
    match next
    case ToTrial(p) => CheckingBackup(p)
    case ToPrevious(p, status) => Returning(p, status)
    case ToDown => Down
  }

  /** Removing a file with `force`: absent or not, it is gone afterwards. */
  function Removed(files: Files, path: string): Files {
    files - {path}
  }

  /** The next operation of the transition in progress goes well. */
  predicate CanContinue(s: State) {
    match s.point
    case Down => false
    case Idle => false
    case Settling(_, _) => false
    case Discarding(_, _) => false
    case Terminating(number, _) => number !in s.alive
    case Snapshotting(p, i) =>
      i >= |SUFFIXES| || SUFFIXES[i] != "" || p.dbPath + SUFFIXES[i] in s.disk.files
    case StartingTrial(p) => p.targetVersion in s.disk.runtimes
    case StartingActive(v) => v in s.disk.runtimes
    case _ => true
  }

  function Continued(s: State): State
    requires CanContinue(s)
  {
    var d := s.disk;
    match s.point
    case Recovering =>
      (match s.memory.update
       case None => s.(point := StartingActive(s.memory.activeVersion))
       case Some(Settled(id, _, _, _)) => s.(point := Discarding(id, Some(s.memory.activeVersion)))
       case Some(Awaiting(p)) =>
         if p.id in d.backups && d.backups[p.id].restorePending then s.(point := Returning(p, Failed))
         else if p.targetVersion !in d.runtimes then s.(point := Returning(p, Failed))
         else s.(point := CheckingBackup(p)))
    case Terminating(_, next) => s.(point := AfterExit(next))
    case CheckingBackup(p) =>
      if p.id in d.backups then s.(point := StartingTrial(p)) else s.(point := ClearingStaging(p))
    case ClearingStaging(p) =>
      s.(disk := d.(staging := d.staging[p.id := map[]]), point := Snapshotting(p, 0))
    case Snapshotting(p, i) =>
      var staged: Files := if p.id in d.staging then d.staging[p.id] else map[];
      if i >= |SUFFIXES| then
        s.(disk := d.(staging := d.staging - {p.id}, backups := d.backups[p.id := Backup(staged, false)]),
           point := SyncingBackup(p))
      else if p.dbPath + SUFFIXES[i] in d.files then
        s.(disk := d.(staging := d.staging[p.id := staged[SUFFIXES[i] := d.files[p.dbPath + SUFFIXES[i]]]]),
           point := Snapshotting(p, i + 1))
      else s.(point := Snapshotting(p, i + 1))
    case SyncingBackup(p) => s.(point := StartingTrial(p))
    case AbandoningStaging(p) =>
      s.(disk := d.(staging := d.staging - {p.id}), point := Returning(p, Failed))
    case StartingTrial(p) => Spawn(s.(trialed := s.trialed + {p.id}), p.targetVersion, Trial)
    case Returning(p, status) =>
      s.(point := if p.id in d.backups then Marking(p, status) else Settling(p, status))
    case Marking(p, status) =>
      var files: Files := if p.id in d.backups then d.backups[p.id].files else map[];
      s.(disk := d.(backups := d.backups[p.id := Backup(files, true)]), point := Restoring(p, status, 0))
    case Restoring(p, status, i) =>
      var files: Files := if p.id in d.backups then d.backups[p.id].files else map[];
      if i >= |SUFFIXES| then s.(point := Settling(p, status))
      else
        var path := p.dbPath + SUFFIXES[i];
        var live := if SUFFIXES[i] in files then d.files[path := files[SUFFIXES[i]]] else Removed(d.files, path);
        s.(disk := d.(files := live), point := Restoring(p, status, i + 1))
    case StartingActive(v) => Spawn(s, v, Active)
    case Failing => Release(s, ToDown).(timer := None)
    case _ => s
  }

  /** The copy in progress has so far put some bytes, right or wrong, in its target. */
  predicate CanTear(s: State) {
    match s.point
    case Snapshotting(p, i) => i < |SUFFIXES| && p.dbPath + SUFFIXES[i] in s.disk.files
    case Restoring(p, _, i) => i < |SUFFIXES| && p.id in s.disk.backups && SUFFIXES[i] in s.disk.backups[p.id].files
    case _ => false
  }

  function WithTorn(s: State, content: Content): State
    requires CanTear(s)
  {
    var d := s.disk;
    match s.point
    case Snapshotting(p, i) =>
      var staged: Files := if p.id in d.staging then d.staging[p.id] else map[];
      s.(disk := d.(staging := d.staging[p.id := staged[SUFFIXES[i] := content]]))
    case Restoring(p, _, i) => s.(disk := d.(files := d.files[p.dbPath + SUFFIXES[i] := content]))
    case _ => s
  }

  /** Where an exception thrown at this point leads, if one can be thrown. */
  function OnException(point: Point): Option<Point> {
    match point
    case CheckingBackup(p) => Some(AbandoningStaging(p))
    case ClearingStaging(p) => Some(AbandoningStaging(p))
    case Snapshotting(p, _) => Some(AbandoningStaging(p))
    case SyncingBackup(p) => Some(AbandoningStaging(p))
    case AbandoningStaging(p) => Some(Returning(p, Failed))
    case Recovering => Some(Failing)
    case Returning(_, _) => Some(Failing)
    case Marking(_, _) => Some(Failing)
    case Restoring(_, _, _) => Some(Failing)
    case _ => None
  }

  /** The durable write of a new state document, and where the transition goes when it throws. */
  function Written(s: State, record: ServiceState, io: Io): State {
    match io
    case Done => WithRecord(s, record)
    case LostBefore => s.(point := Failing)
    case LostAfter => WithRecord(s, record).(point := Failing, memory := s.memory)
  }

  function OnRequest(s: State, c: Child, target: Requested, dbPath: string, id: string, io: Io): State {
    if Rejection(s.memory, c, s.disk.runtimes, target, dbPath).Some? || target.Inexact? then
      if io.Done? then s else s.(point := Failing)
    else
      var p := Pending(id, c.version, target.v, dbPath);
      var w := Written(s, s.memory.(update := Some(Awaiting(p))), io);
      var timer := if io.Done? then Some(HandOff(c.number)) else s.timer;
      if io.LostBefore? then w else Note(w.(issued := s.issued + {id}, before := None, timer := timer))
  }

  function OnPrepared(s: State, c: Child, updateId: string, io: Io): State {
    if c.role == Trial && IsPending(s.memory) then
      var p := s.memory.update.value.p;
      if p.id == updateId && p.targetVersion == c.version then
        var w := Written(s.(timer := None), ServiceState(p.targetVersion, Some(Terminal(p, Committed))), io);
        match io
        case LostBefore => w
        case LostAfter => w.(outcomes := s.outcomes[p.id := Committed])
        case Done =>
          w.(outcomes := s.outcomes[p.id := Committed], child := Some(c.(role := Active)),
             point := Discarding(p.id, None))
      else Release(s, ToPrevious(p, RolledBack))
    else s.(point := Failing)
  }

  function OnExit(s: State, c: Child): State {
    if IsPending(s.memory) then
      var p := s.memory.update.value.p;
      s.(child := None, timer := None, point := if c.role == Trial then Returning(p, RolledBack) else CheckingBackup(p))
    else s.(child := None, timer := None, point := Failing)
  }

  predicate Manages(s: State, number: nat) {
    s.child.Some? && s.child.value.number == number
  }

  predicate Enabled(s: State, step: Step) {
    match step
    case ChildWrites(_) => s.alive != map[]
    case ChildExits(number) => number in s.alive
    case Install(_) => true
    case Crash => s.point != Down
    case Boot => s.point == Down
    case Continue => CanContinue(s)
    case Torn(_) => CanTear(s)
    case IoFails => OnException(s.point).Some?
    case SpawnFails => s.point.StartingTrial? || s.point.StartingActive?
    case SettlingWrite(_) => s.point.Settling?
    case DiscardPart(_) => s.point.Discarding? && s.point.id in s.disk.backups
    case DiscardEnds(_) => s.point.Discarding?
    case RequestUpdate(_, _, _, id, _) =>
      s.point == Idle && id !in s.issued && id !in s.disk.backups && id !in s.outcomes
    case ExitHandled(number) => s.point == Idle && number !in s.alive
    case BeginTrial(_) => s.point == Idle
    case Prepared(_, _, _) => s.point == Idle
    case PreparedTimeout(_) => s.point == Idle
    case Stop => s.point == Idle
    case ChildError => s.point == Idle
  }

  function After(s: State, step: Step): State
    requires Enabled(s, step)
  {
    match step
    case ChildWrites(files) => s.(disk := s.disk.(files := files))
    case ChildExits(number) => Note(s.(alive := s.alive - {number}))
    case Install(runtimes) => s.(disk := s.disk.(runtimes := runtimes))
    case Crash => Note(s.(alive := map[], point := Down, child := None, timer := None))
    case Boot => s.(point := Recovering, memory := s.disk.record, timer := None)
    case Continue => Continued(s)
    case Torn(content) => WithTorn(s, content)
    case IoFails => s.(point := OnException(s.point).value)
    case SpawnFails =>
      (match s.point
       case StartingTrial(p) => s.(point := Returning(p, Failed))
       case _ => s.(point := Failing))
    case SettlingWrite(io) =>
      var p, status := s.point.p, s.point.status;
      var w := Written(s, ServiceState(p.fromVersion, Some(Terminal(p, status))), io);
      (match io
       case LostBefore => w
       case LostAfter => w.(outcomes := s.outcomes[p.id := status])
       case Done => w.(outcomes := s.outcomes[p.id := status], point := Discarding(p.id, Some(p.fromVersion))))
    case DiscardPart(left) => s.(disk := s.disk.(backups := s.disk.backups[s.point.id := left]))
    case DiscardEnds(removed) =>
      var backups := if removed then s.disk.backups - {s.point.id} else s.disk.backups;
      s.(disk := s.disk.(backups := backups),
         point := if s.point.restart.Some? then StartingActive(s.point.restart.value) else Idle)
    case RequestUpdate(number, target, dbPath, id, io) =>
      if Manages(s, number) then OnRequest(s, s.child.value, target, dbPath, id, io) else s
    case BeginTrial(number) =>
      if Manages(s, number) && s.child.value.role == Active && IsPending(s.memory)
      then Release(s, ToTrial(s.memory.update.value.p)).(timer := None) else s
    case Prepared(number, updateId, io) =>
      if Manages(s, number) then OnPrepared(s, s.child.value, updateId, io) else s
    case PreparedTimeout(number) =>
      if Manages(s, number) && s.child.value.role == Trial && IsPending(s.memory)
      then Release(s, ToPrevious(s.memory.update.value.p, RolledBack)).(timer := None) else s
    case ExitHandled(number) =>
      if Manages(s, number) then OnExit(s, s.child.value) else s
    case Stop => Release(s, ToDown).(timer := None)
    case ChildError => s.(point := Failing)
  }

  /** A fresh installation: nothing runs, no update is pending and none was ever issued. */
  predicate Initial(s: State) {
    && s.point == Down && s.alive == map[] && s.child.None? && s.timer.None?
    && !IsPending(s.disk.record)
    && s.issued == {} && s.trialed == {} && s.before.None? && s.outcomes == map[]
  }

  /** `states` is a run taking `steps`. */
  ghost predicate IsRun(states: seq<State>, steps: seq<Step>) {
    && |states| == |steps| + 1
    && forall k {:trigger steps[k]} :: 0 <= k < |steps| ==>
      Enabled(states[k], steps[k]) && states[k + 1] == After(states[k], steps[k])
  }
}
