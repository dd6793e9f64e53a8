/**
 * Server startup and its command gate: a readiness reference, a deferred that is set once, an
 * unbounded queue with one worker, roots parked at an activation barrier, and callers that may
 * arrive at any time. One step is one effect of one fiber; every interleaving is a run.
 */
module CommandGate {
  import opened Optional

  type Id = nat
  type Value = int

  /** How a command ends for its caller: with its own exit, or with the startup error. */
  datatype Exit = Own(value: Value) | StartupError

  datatype Readiness = Pending | Ready | Failed
  datatype Gate = Unset | Open | Broken
  datatype Barrier = Closed | Activated | Died

  datatype Caller = Arrived | Offering | Waiting | RunningDirectly | Returned(exit: Exit)
  datatype Worker = Taking | AwaitingGate(id: Id) | Running(id: Id)
  datatype Root = Forked | Parked | Started

  /** The startup effect, from forking its roots to publishing readiness, and its failure handler. */
  datatype Phase =
    | ForkingRoots(left: nat)
    | AwaitingParked(left: nat)
    | WaitingForHttp
    | PreparingTrial
    | Activating
    | SettingReady
    | OpeningGate
    | PublishingReady
    | Complete
    | SettingFailed
    | BreakingGate
    | Aborting
    | Aborted

  /**
   * `offered` lists every command ever queued, `taken` how many of them the worker took; `queued`
   * and `direct` list the commands whose effect was begun by the worker and by their caller.
   */
  datatype State = State(
    configured: bool,
    phase: Phase,
    prepared: bool,
    readiness: Readiness,
    gate: Gate,
    barrier: Barrier,
    roots: seq<Root>,
    callers: map<Id, Caller>,
    queue: seq<Id>,
    worker: Worker,
    results: map<Id, Exit>,
    offered: seq<Id>,
    taken: nat,
    queued: seq<Id>,
    direct: set<Id>,
    exits: map<Id, Value>)

  datatype Step =
    | Arrive(id: Id)
    | ReadReadiness(id: Id)
    | Offer(id: Id)
    | Collect(id: Id)
    | FinishDirect(id: Id, value: Value)
    | Take
    | PassGate
    | FinishQueued(value: Value)
    | StartupContinues
    | StartupFails
    | RootParks(root: nat)
    | RootStarts(root: nat)

  predicate CanFail(phase: Phase) {
    match phase
    case Complete => false
    case SettingFailed => false
    case BreakingGate => false
    case Aborting => false
    case Aborted => false
    case _ => true
  }

  predicate Enabled(s: State, step: Step) {
    match step
    case Arrive(id) => id !in s.callers
    case ReadReadiness(id) => id in s.callers && s.callers[id] == Arrived
    case Offer(id) => id in s.callers && s.callers[id] == Offering
    case Collect(id) => id in s.callers && s.callers[id] == Waiting && id in s.results
    case FinishDirect(id, _) => id in s.callers && s.callers[id] == RunningDirectly
    case Take => s.worker == Taking && s.queue != []
    case PassGate => s.worker.AwaitingGate? && s.gate != Unset
    case FinishQueued(_) => s.worker.Running?
    case StartupContinues =>
      (match s.phase
       case AwaitingParked(_) => s.roots != [] && s.roots[|s.roots| - 1] != Forked
       case Complete => false
       case Aborted => false
       case _ => true)
    case StartupFails => CanFail(s.phase)
    case RootParks(root) => root < |s.roots| && s.roots[root] == Forked
    case RootStarts(root) => root < |s.roots| && s.roots[root] == Parked && s.barrier == Activated
  }

  function WithCaller(s: State, id: Id, caller: Caller): State {
    s.(callers := s.callers[id := caller])
  }

  /** A deferred keeps the first value it gets. */
  function SetOnce(gate: Gate, value: Gate): Gate {
    if gate == Unset then value else gate
  }

  function After(s: State, step: Step): State
    requires Enabled(s, step)
  {
    match step
    case Arrive(id) => WithCaller(s, id, Arrived)
    case ReadReadiness(id) =>
      (match s.readiness
       case Ready => WithCaller(s, id, RunningDirectly).(direct := s.direct + {id})
       case Failed => WithCaller(s, id, Returned(StartupError))
       case Pending => WithCaller(s, id, Offering))
    case Offer(id) => WithCaller(s, id, Waiting).(queue := s.queue + [id], offered := s.offered + [id])
    case Collect(id) => WithCaller(s, id, Returned(s.results[id]))
    case FinishDirect(id, value) => WithCaller(s, id, Returned(Own(value))).(exits := s.exits[id := value])
    case Take => s.(worker := AwaitingGate(s.queue[0]), queue := s.queue[1..], taken := s.taken + 1)
    case PassGate =>
      if s.gate == Open then s.(worker := Running(s.worker.id), queued := s.queued + [s.worker.id])
      else s.(worker := Taking, results := s.results[s.worker.id := StartupError])
    case FinishQueued(value) =>
      s.(worker := Taking, results := s.results[s.worker.id := Own(value)], exits := s.exits[s.worker.id := value])
    case StartupContinues =>
      (match s.phase
       case ForkingRoots(left) =>
         if left == 0 then s.(phase := WaitingForHttp)
         else if s.configured then s.(phase := AwaitingParked(left - 1), roots := s.roots + [Forked])
         else s.(phase := ForkingRoots(left - 1), roots := s.roots + [Started])
       case AwaitingParked(left) => s.(phase := ForkingRoots(left))
       case WaitingForHttp => s.(phase := PreparingTrial)
       case PreparingTrial => s.(phase := Activating, prepared := true)
       case Activating => s.(phase := SettingReady, barrier := if s.barrier == Closed then Activated else s.barrier)
       case SettingReady => s.(phase := OpeningGate, readiness := Ready)
       case OpeningGate => s.(phase := PublishingReady, gate := SetOnce(s.gate, Open))
       case PublishingReady => s.(phase := Complete)
       case SettingFailed => s.(phase := BreakingGate, readiness := Failed)
       case BreakingGate => s.(phase := Aborting, gate := SetOnce(s.gate, Broken))
       case Aborting => s.(phase := Aborted, barrier := if s.barrier == Closed then Died else s.barrier)
       case _ => s)
    case StartupFails => s.(phase := SettingFailed)
    case RootParks(root) => s.(roots := s.roots[root := Parked])
    case RootStarts(root) => s.(roots := s.roots[root := Started])
  }

  predicate Initial(s: State) {
    && s.phase.ForkingRoots? && !s.prepared && s.readiness == Pending && s.gate == Unset && s.barrier == Closed
    && s.roots == [] && s.callers == map[] && s.queue == [] && s.worker == Taking && s.results == map[]
    && s.offered == [] && s.taken == 0 && s.queued == [] && s.direct == {} && s.exits == map[]
  }

  /** Before the prepared boundary. */
  predicate Early(phase: Phase) {
    phase.ForkingRoots? || phase.AwaitingParked? || phase.WaitingForHttp? || phase.PreparingTrial?
  }

  predicate Distinct(ids: seq<Id>) {
    forall i, j :: 0 <= i < j < |ids| ==> ids[i] != ids[j]
  }

  /** How many queued commands the worker is through with. */
  function Finished(s: State): int {
    if s.worker == Taking then s.taken else s.taken - 1
  }

  predicate StartupInv(s: State) {
    && (Early(s.phase) ==> !s.prepared && s.readiness == Pending && s.gate == Unset && s.barrier == Closed)
    && (s.phase.Activating? ==> s.barrier == Closed)
    && (s.phase.Activating? || s.phase.SettingReady? ==> s.readiness == Pending && s.gate == Unset)
    && (s.phase.OpeningGate? ==> s.readiness == Ready && s.gate == Unset)
    && (s.phase.PublishingReady? || s.phase.Complete? ==> s.readiness == Ready && s.gate == Open)
    && (s.phase.SettingFailed? ==> s.readiness != Failed && s.gate != Broken)
    && (s.phase.BreakingGate? ==> s.readiness == Failed && s.gate != Broken)
    && (s.phase.Aborting? || s.phase.Aborted? ==> s.readiness == Failed && s.gate != Unset)
    && (s.phase.Activating? || s.phase.SettingReady? || s.phase.OpeningGate? ==> s.prepared)
    && (s.readiness == Ready || s.gate == Open || s.barrier == Activated ==> s.prepared)
    && (s.readiness == Pending ==> s.gate == Unset && s.direct == {})
    && (s.direct != {} ==> s.prepared)
    && (s.configured && !s.prepared ==> forall r :: 0 <= r < |s.roots| ==> s.roots[r] != Started)
  }

  predicate QueueInv(s: State) {
    && Distinct(s.offered)
    && s.taken <= |s.offered| && s.queue == s.offered[s.taken..]
    && (s.worker != Taking ==> s.taken > 0 && s.worker.id == s.offered[s.taken - 1])
    && (s.worker.Running? ==> s.gate == Open)
    && (s.gate == Open ==> s.queued == s.offered[..if s.worker.AwaitingGate? then s.taken - 1 else s.taken])
    && (s.gate != Open ==> s.queued == [])
    && (s.gate == Unset ==> Finished(s) == 0)
  }

  predicate ResultsInv(s: State) {
    && (forall k :: 0 <= k < |s.offered| ==> (s.offered[k] in s.results <==> k < Finished(s)))
    && (forall id :: id in s.results ==> id in s.offered)
    && (forall id :: id in s.results ==>
      if s.gate == Open then id in s.exits && s.results[id] == Own(s.exits[id]) else s.results[id] == StartupError)
  }

  /** A caller is where its command is: not yet decided, queued, or run on its own. */
  predicate CallerOk(s: State, id: Id)
    requires id in s.callers
  {
    match s.callers[id]
    case Arrived => id !in s.offered && id !in s.direct
    case Offering => id !in s.offered && id !in s.direct
    case Waiting => id in s.offered && id !in s.direct
    case RunningDirectly => id !in s.offered && id in s.direct
    case Returned(exit) =>
      if id in s.offered then id !in s.direct && id in s.results && exit == s.results[id]
      else if id in s.direct then id in s.exits && exit == Own(s.exits[id])
      else exit == StartupError && s.readiness == Failed
  }

  predicate CallersInv(s: State) {
    && (forall id :: id in s.offered ==> id in s.callers)
    && (forall id :: id in s.direct ==> id in s.callers)
    && (forall id :: id in s.callers ==> CallerOk(s, id))
  }

  predicate Inv(s: State) {
    StartupInv(s) && QueueInv(s) && ResultsInv(s) && CallersInv(s)
  }

  lemma InitialInv(s: State)
    requires Initial(s)
    ensures Inv(s)
  {
  }

  /** Until the gate is set the worker has settled nothing. */
  lemma UnsetMeansUnsettled(s: State)
    requires Inv(s) && s.gate == Unset
    ensures s.results == map[] && s.queued == [] && Finished(s) == 0
  {
  }

  lemma GateKeepsQueue(s: State, gate: Gate, s': State)
    requires Inv(s) && s.gate == Unset && s'.gate == gate
    requires s' == s.(gate := gate, phase := s'.phase)
    ensures QueueInv(s') && ResultsInv(s')
  {
    UnsetMeansUnsettled(s);
  }

  lemma StartupKeepsCallers(s: State, s': State)
    requires CallersInv(s) && (s.readiness == Failed ==> s'.readiness == Failed)
    requires s'.callers == s.callers && s'.offered == s.offered && s'.direct == s.direct
    requires s'.results == s.results && s'.exits == s.exits
    ensures CallersInv(s')
  {
    forall id | id in s'.callers ensures CallerOk(s', id) {
      assert CallerOk(s, id);
    }
  }

  lemma StartupKeepsStartup(s: State, step: Step)
    requires StartupInv(s) && Enabled(s, step) && (step.StartupContinues? || step.StartupFails?)
    ensures StartupInv(After(s, step))
  {
    if step.StartupFails? {
      FailingKeepsStartup(s, step);
    } else if s.phase.ForkingRoots? {
      ForkingKeepsStartup(s, step);
    } else if s.phase.SettingFailed? || s.phase.BreakingGate? || s.phase.Aborting? {
      EndingKeepsStartup(s, step);
    }
  }

  lemma EndingKeepsStartup(s: State, step: Step)
    requires StartupInv(s) && Enabled(s, step) && step.StartupContinues?
    requires s.phase.SettingFailed? || s.phase.BreakingGate? || s.phase.Aborting?
    ensures StartupInv(After(s, step))
  {
  }

  lemma FailingKeepsStartup(s: State, step: Step)
    requires StartupInv(s) && Enabled(s, step) && step.StartupFails?
    ensures StartupInv(After(s, step))
  {
  }

  lemma ForkingKeepsStartup(s: State, step: Step)
    requires StartupInv(s) && Enabled(s, step) && (step.StartupContinues? || step.StartupFails?)
      && s.phase.ForkingRoots?
    ensures StartupInv(After(s, step))
  {
    var s' := After(s, step);
    assert forall r :: 0 <= r < |s.roots| ==> s'.roots[r] == s.roots[r];
  }

  lemma StartupShape(s: State, step: Step)
    requires StartupInv(s) && Enabled(s, step) && (step.StartupContinues? || step.StartupFails?)
    ensures s.readiness == Failed ==> After(s, step).readiness == Failed
    ensures
      var s' := After(s, step);
      if s'.gate == s.gate
      then s' == s.(phase := s'.phase, prepared := s'.prepared, readiness := s'.readiness,
                    barrier := s'.barrier, roots := s'.roots)
      else s.gate == Unset && s' == s.(gate := s'.gate, phase := s'.phase)
  {
  }

  lemma StartupPreserves(s: State, step: Step)
    requires Inv(s) && Enabled(s, step)
    requires step.StartupContinues? || step.StartupFails?
    ensures Inv(After(s, step))
  {
    var s' := After(s, step);
    StartupKeepsStartup(s, step);
    StartupShape(s, step);
    hide QueueInv;
    hide ResultsInv;
    hide CallersInv;
    hide StartupInv;
    hide After;
    hide Enabled;
    if s'.gate != s.gate {
      GateKeepsQueue(s, s'.gate, s');
    } else {
      StartupKeepsQueue(s, s');
    }
    StartupKeepsCallers(s, s');
  }

  lemma StartupKeepsQueue(s: State, s': State)
    requires Inv(s) && s'.gate == s.gate
    requires s' == s.(phase := s'.phase, prepared := s'.prepared, readiness := s'.readiness,
                      barrier := s'.barrier, roots := s'.roots)
    ensures QueueInv(s') && ResultsInv(s')
  {
  }

  lemma RootsKeepStartup(s: State, step: Step)
    requires StartupInv(s) && Enabled(s, step) && (step.RootParks? || step.RootStarts?)
    ensures StartupInv(After(s, step))
  {
  }

  lemma RootsPreserve(s: State, step: Step)
    requires Inv(s) && Enabled(s, step)
    requires step.RootParks? || step.RootStarts?
    ensures Inv(After(s, step))
  {
    RootsKeepStartup(s, step);
    hide QueueInv;
    hide ResultsInv;
    hide CallersInv;
    hide StartupInv;
    StartupKeepsQueue(s, After(s, step));
    StartupKeepsCallers(s, After(s, step));
  }

  lemma ArriveKeepsCallers(s: State, step: Step)
    requires Inv(s) && Enabled(s, step) && step.Arrive?
    ensures CallersInv(After(s, step))
  {
    var s' := After(s, step);
    NewcomersAreUnqueued(s, step.id);
    hide StartupInv;
    hide QueueInv;
    hide ResultsInv;
    forall id | id in s'.callers && id != step.id ensures CallerOk(s', id) {
      assert CallerOk(s, id);
    }
  }

  lemma DecidingKeepsCallers(s: State, s': State, id: Id, decided: Caller)
    requires CallersInv(s) && id in s.callers && id !in s.offered && id !in s.direct
    requires s' == s.(callers := s.callers[id := decided],
                      direct := if decided.RunningDirectly? then s.direct + {id} else s.direct)
    requires decided.RunningDirectly? || decided.Offering?
      || (decided == Returned(StartupError) && s.readiness == Failed)
    ensures CallersInv(s')
  {
    forall other | other in s'.callers ensures CallerOk(s', other) {
      assert CallerOk(s, other);
      assert other != id ==> (other in s'.direct <==> other in s.direct);
    }
  }

  lemma ReadingKeepsCallers(s: State, step: Step)
    requires Inv(s) && Enabled(s, step) && step.ReadReadiness?
    ensures CallersInv(After(s, step))
  {
    hide StartupInv;
    hide QueueInv;
    hide ResultsInv;
    hide CallersInv;
    NewcomersAreUnqueued(s, step.id);
    DecidingKeepsCallers(s, After(s, step), step.id, After(s, step).callers[step.id]);
  }

  lemma ArrivalPreserves(s: State, step: Step)
    requires Inv(s) && Enabled(s, step)
    requires step.Arrive? || step.ReadReadiness?
    ensures Inv(After(s, step))
  {
    var s' := After(s, step);
    hide QueueInv;
    hide ResultsInv;
    hide CallersInv;
    if step.Arrive? {
      ArriveKeepsCallers(s, step);
    } else {
      ReadingKeepsCallers(s, step);
    }
    CallersKeepQueue(s, s');
  }

  lemma NewcomersAreUnqueued(s: State, id: Id)
    requires Inv(s) && (id in s.callers ==> s.callers[id] == Arrived)
    ensures id !in s.offered && id !in s.direct
  {
    if id in s.callers {
      assert CallerOk(s, id);
    }
  }

  lemma CallersKeepQueue(s: State, s': State)
    requires Inv(s) && s' == s.(callers := s'.callers, direct := s'.direct)
    ensures QueueInv(s') && ResultsInv(s')
  {
  }

  lemma OfferPreserves(s: State, step: Step)
    requires Inv(s) && Enabled(s, step) && step.Offer?
    ensures Inv(After(s, step))
  {
    var s' := After(s, step);
    OfferKeepsQueue(s, step);
    hide QueueInv;
    hide ResultsInv;
    OfferKeepsCallers(s, step);
  }

  lemma OfferKeepsCallers(s: State, step: Step)
    requires CallersInv(s) && Enabled(s, step) && step.Offer?
    ensures CallersInv(After(s, step))
  {
    var s' := After(s, step);
    assert CallerOk(s, step.id);
    forall id | id in s'.callers ensures CallerOk(s', id) {
      assert id in s.callers && CallerOk(s, id);
      assert id in s'.offered <==> id in s.offered || id == step.id;
    }
  }

  lemma OfferKeepsQueue(s: State, step: Step)
    requires Inv(s) && Enabled(s, step) && step.Offer?
    ensures QueueInv(After(s, step)) && ResultsInv(After(s, step))
  {
    var s', id := After(s, step), step.id;
    assert CallerOk(s, id);
    assert id !in s.offered && id !in s.results;
    hide StartupInv, CallersInv, QueueInv, ResultsInv, After, Enabled, CallerOk;
    QueueGrows(s, s', id);
    ResultsStay(s, s', id);
  }

  predicate OneMoreOffered(s: State, s': State, id: Id) {
    s' == s.(callers := s'.callers, queue := s.queue + [id], offered := s.offered + [id])
  }

  lemma QueueGrows(s: State, s': State, id: Id)
    requires QueueInv(s) && id !in s.offered && OneMoreOffered(s, s', id)
    ensures QueueInv(s')
  {
    assert s'.offered[s.taken..] == s.offered[s.taken..] + [id];
    assert s.taken > 0 ==> s'.offered[s.taken - 1] == s.offered[s.taken - 1];
    assert s'.offered[..s.taken] == s.offered[..s.taken];
    assert s.taken > 0 ==> s'.offered[..s.taken - 1] == s.offered[..s.taken - 1];
  }

  lemma ResultsStay(s: State, s': State, id: Id)
    requires ResultsInv(s) && s.taken <= |s.offered| && id !in s.results && OneMoreOffered(s, s', id)
    ensures ResultsInv(s')
  {
    var n := |s.offered|;
    forall k | 0 <= k <= n ensures s'.offered[k] in s'.results <==> k < Finished(s') {
      assert k < n ==> s'.offered[k] == s.offered[k];
    }
    forall r | r in s'.results ensures r in s'.offered {
      assert r in s.offered;
    }
  }

  lemma CollectPreserves(s: State, step: Step)
    requires Inv(s) && Enabled(s, step) && step.Collect?
    ensures Inv(After(s, step))
  {
    var s' := After(s, step);
    CallersKeepQueue(s, s');
    hide QueueInv;
    hide ResultsInv;
    assert CallerOk(s, step.id);
    forall id | id in s'.callers && id != step.id ensures CallerOk(s', id) {
      assert CallerOk(s, id);
    }
  }

  /** A command run by its caller is not a queued one, so no queued result depends on its exit. */
  lemma DirectKeepsResults(s: State, step: Step)
    requires Inv(s) && Enabled(s, step) && step.FinishDirect?
    ensures step.id !in s.offered && step.id in s.direct && step.id !in s.results
    ensures QueueInv(After(s, step)) && ResultsInv(After(s, step))
  {
    assert CallerOk(s, step.id);
    hide CallersInv;
    hide StartupInv;
  }

  lemma FinishDirectPreserves(s: State, step: Step)
    requires Inv(s) && Enabled(s, step) && step.FinishDirect?
    ensures Inv(After(s, step))
  {
    var s' := After(s, step);
    DirectKeepsResults(s, step);
    hide QueueInv;
    hide ResultsInv;
    forall id | id in s'.callers && id != step.id ensures CallerOk(s', id) {
      assert CallerOk(s, id);
    }
  }

  lemma TakeKeepsQueue(s: State)
    requires QueueInv(s) && ResultsInv(s) && Enabled(s, Take)
    ensures QueueInv(After(s, Take)) && ResultsInv(After(s, Take))
  {
    assert s.offered[s.taken..][1..] == s.offered[s.taken + 1..];
  }

  lemma TakePreserves(s: State, step: Step)
    requires Inv(s) && Enabled(s, step) && step.Take?
    ensures Inv(After(s, step))
  {
    hide QueueInv;
    hide ResultsInv;
    hide CallersInv;
    TakeKeepsQueue(s);
    StartupKeepsCallers(s, After(s, step));
  }

  /** The command the worker is at is the last one it took, and no one else has settled it. */
  lemma WorkerIsAtLast(s: State)
    requires QueueInv(s) && ResultsInv(s) && s.worker != Taking
    ensures 0 < s.taken <= |s.offered| && s.offered[s.taken - 1] == s.worker.id
    ensures s.worker.id in s.offered && s.worker.id !in s.results
    ensures s.offered[..s.taken] == s.offered[..s.taken - 1] + [s.worker.id]
    ensures forall k :: 0 <= k < |s.offered| && k != s.taken - 1 ==> s.offered[k] != s.worker.id
  {
    assert s.offered[s.taken - 1] == s.worker.id;
  }

  lemma PassKeepsQueue(s: State)
    requires QueueInv(s) && ResultsInv(s) && Enabled(s, PassGate)
    ensures QueueInv(After(s, PassGate)) && ResultsInv(After(s, PassGate))
  {
    WorkerIsAtLast(s);
  }

  lemma FinishKeepsQueue(s: State, value: Value)
    requires QueueInv(s) && ResultsInv(s) && Enabled(s, FinishQueued(value))
    ensures QueueInv(After(s, FinishQueued(value))) && ResultsInv(After(s, FinishQueued(value)))
  {
    WorkerIsAtLast(s);
  }

  lemma WorkerKeepsQueue(s: State, step: Step)
    requires QueueInv(s) && ResultsInv(s) && Enabled(s, step) && (step.PassGate? || step.FinishQueued?)
    ensures QueueInv(After(s, step)) && ResultsInv(After(s, step))
    ensures s.worker.id in s.offered && s.worker.id !in s.results
  {
    WorkerIsAtLast(s);
    hide QueueInv;
    hide ResultsInv;
    if step.PassGate? {
      PassKeepsQueue(s);
    } else {
      FinishKeepsQueue(s, step.value);
    }
  }

  lemma WorkerKeepsCallers(s: State, s': State, id: Id)
    requires CallersInv(s) && id in s.offered && id !in s.results
    requires s'.callers == s.callers && s'.offered == s.offered && s'.direct == s.direct && s'.readiness == s.readiness
    requires forall other :: other != id ==> (other in s'.results <==> other in s.results)
    requires forall other :: other in s.results && other != id ==> s'.results[other] == s.results[other]
    requires forall other :: other != id ==> (other in s'.exits <==> other in s.exits)
    requires forall other :: other in s.exits && other != id ==> s'.exits[other] == s.exits[other]
    ensures CallersInv(s')
  {
    forall other | other in s'.callers ensures CallerOk(s', other) {
      assert CallerOk(s, other);
    }
  }

  lemma WorkerPreserves(s: State, step: Step)
    requires Inv(s) && Enabled(s, step) && (step.PassGate? || step.FinishQueued?)
    ensures Inv(After(s, step))
  {
    hide QueueInv;
    hide ResultsInv;
    hide CallersInv;
    WorkerKeepsQueue(s, step);
    WorkerKeepsCallers(s, After(s, step), s.worker.id);
  }

  lemma StepPreserves(s: State, step: Step)
    requires Inv(s) && Enabled(s, step)
    ensures Inv(After(s, step))
  {
    match step {
      case StartupContinues => StartupPreserves(s, step);
      case StartupFails => StartupPreserves(s, step);
      case RootParks(_) => RootsPreserve(s, step);
      case RootStarts(_) => RootsPreserve(s, step);
      case Arrive(_) => ArrivalPreserves(s, step);
      case ReadReadiness(_) => ArrivalPreserves(s, step);
      case Offer(_) => OfferPreserves(s, step);
      case Collect(_) => CollectPreserves(s, step);
      case FinishDirect(_, _) => FinishDirectPreserves(s, step);
      case Take => TakePreserves(s, step);
      case PassGate => WorkerPreserves(s, step);
      case FinishQueued(_) => WorkerPreserves(s, step);
    }
  }

  ghost predicate IsRun(states: seq<State>, steps: seq<Step>) {
    && |states| == |steps| + 1 && Initial(states[0])
    && forall k {:trigger steps[k]} :: 0 <= k < |steps| ==>
      Enabled(states[k], steps[k]) && states[k + 1] == After(states[k], steps[k])
  }

  lemma {:induction false} RunKeepsInv(states: seq<State>, steps: seq<Step>, k: nat)
    requires IsRun(states, steps) && k < |states|
    ensures Inv(states[k])
  {
    hide Inv;
    hide After;
    hide Enabled;
    if k == 0 {
      InitialInv(states[0]);
    } else {
      RunKeepsInv(states, steps, k - 1);
      StepPreserves(states[k - 1], steps[k - 1]);
    }
  }

  /** The effect of a command has begun, by the worker or by its caller. */
  predicate Begun(s: State, id: Id) {
    id in s.queued || id in s.direct
  }

  /**
   * Nothing runs before the prepared boundary: no command ever, and with an activation configured
   * no root either.
   */
  lemma NothingBeforePrepared(states: seq<State>, steps: seq<Step>, k: nat)
    requires IsRun(states, steps) && k < |states| && !states[k].prepared
    ensures forall id: Id :: !Begun(states[k], id)
    ensures states[k].configured ==> forall r :: 0 <= r < |states[k].roots| ==> states[k].roots[r] != Started
  {
    RunKeepsInv(states, steps, k);
    hide ResultsInv;
    hide CallersInv;
  }

  /** Queued commands begin in the order in which they were queued, none twice, none skipped. */
  lemma QueuedInOrder(states: seq<State>, steps: seq<Step>, k: nat)
    requires IsRun(states, steps) && k < |states|
    ensures Distinct(states[k].offered) && states[k].queued <= states[k].offered
    ensures forall id :: id in states[k].queued ==> id !in states[k].direct
  {
    RunKeepsInv(states, steps, k);
    var s := states[k];
    forall id | id in s.queued ensures id !in s.direct {
      assert id in s.offered;
      assert CallerOk(s, id);
    }
  }

  /**
   * The gate is set once, and what it was set to decides every queued command: opened, a settled
   * command has its own exit; broken, it has the startup error and its effect never began.
   */
  lemma GateDecides(states: seq<State>, steps: seq<Step>, k: nat, id: Id)
    requires IsRun(states, steps) && k < |states| && id in states[k].results
    ensures states[k].gate != Unset
    ensures states[k].gate == Open ==>
      id in states[k].queued && id in states[k].exits && states[k].results[id] == Own(states[k].exits[id])
    ensures states[k].gate == Broken ==> !Begun(states[k], id) && states[k].results[id] == StartupError
  {
    RunKeepsInv(states, steps, k);
    var s := states[k];
    var i :| 0 <= i < |s.offered| && s.offered[i] == id;
    assert i < Finished(s);
    assert CallerOk(s, id);
    if s.gate == Open {
      assert s.queued[i] == id;
    }
  }

  lemma SettledOnceStep(s: State, step: Step, id: Id)
    requires Inv(s) && Enabled(s, step)
    ensures s.gate != Unset ==> After(s, step).gate == s.gate
    ensures id in s.results ==> id in After(s, step).results && After(s, step).results[id] == s.results[id]
  {
    hide StartupInv, QueueInv, ResultsInv, CallersInv;
    if step.PassGate? || step.FinishQueued? {
      WorkerKeepsQueue(s, step);
    } else {
      OthersSettleNothing(s, step);
    }
  }

  lemma OthersSettleNothing(s: State, step: Step)
    requires Enabled(s, step) && !step.PassGate? && !step.FinishQueued?
    ensures s.gate != Unset ==> After(s, step).gate == s.gate
    ensures After(s, step).results == s.results
  {
    if step.StartupContinues? {
      StartupSettlesNothing(s);
    }
  }

  lemma StartupSettlesNothing(s: State)
    requires Enabled(s, StartupContinues)
    ensures s.gate != Unset ==> After(s, StartupContinues).gate == s.gate
    ensures After(s, StartupContinues).results == s.results
  {
  }

  /** A result, once settled, and the gate, once set, never change. */
  lemma {:induction false} SettledOnce(states: seq<State>, steps: seq<Step>, j: nat, k: nat, id: Id)
    requires IsRun(states, steps) && j <= k < |states|
    ensures states[j].gate != Unset ==> states[k].gate == states[j].gate
    ensures id in states[j].results ==> id in states[k].results && states[k].results[id] == states[j].results[id]
  {
    hide Inv;
    hide After;
    hide Enabled;
    if j < k {
      SettledOnce(states, steps, j, k - 1, id);
      RunKeepsInv(states, steps, k - 1);
      SettledOnceStep(states[k - 1], steps[k - 1], id);
    }
  }

  /** A startup that fails before readiness was ever signalled runs no command, then or later. */
  lemma FailureFirst(states: seq<State>, steps: seq<Step>, j: nat, k: nat, id: Id)
    requires IsRun(states, steps) && j <= k < |states|
    requires states[j].phase == SettingFailed && states[j].readiness == Pending
    ensures !Begun(states[k], id)
    ensures id in states[k].results ==> states[k].results[id] == StartupError
  {
    FailureStays(states, steps, j, k);
    RunKeepsInv(states, steps, k);
    hide CallersInv;
    if id in states[k].results {
      GateDecides(states, steps, k, id);
    }
  }

  predicate FailedFirst(s: State) {
    && (s.phase == SettingFailed || s.phase == BreakingGate || s.phase == Aborting || s.phase == Aborted)
    && s.readiness != Ready && s.gate != Open && s.direct == {}
  }

  lemma FailureStaysStep(s: State, step: Step)
    requires FailedFirst(s) && Enabled(s, step)
    ensures FailedFirst(After(s, step))
  {
    match step
    case StartupContinues =>
    case ReadReadiness(_) =>
    case _ => assert After(s, step).direct == s.direct;
  }

  lemma {:induction false} FailureStays(states: seq<State>, steps: seq<Step>, j: nat, k: nat)
    requires IsRun(states, steps) && j <= k < |states|
    requires states[j].phase == SettingFailed && states[j].readiness == Pending
    ensures FailedFirst(states[k])
  {
    if j == k {
      RunKeepsInv(states, steps, k);
      hide QueueInv;
      hide ResultsInv;
      hide CallersInv;
    } else {
      FailureStays(states, steps, j, k - 1);
      hide Inv;
      FailureStaysStep(states[k - 1], steps[k - 1]);
      hide FailedFirst;
    }
  }

  /** What a caller is given back is the settled result, its own exit, or the startup error. */
  lemma CallersGetTheirOwn(states: seq<State>, steps: seq<Step>, k: nat, id: Id)
    requires IsRun(states, steps) && k < |states| && id in states[k].callers && states[k].callers[id].Returned?
    ensures
      var s := states[k];
      match s.callers[id].exit
      case Own(value) => Begun(s, id) && id in s.exits && value == s.exits[id]
      case StartupError => !Begun(s, id)
  {
    RunKeepsInv(states, steps, k);
    var s := states[k];
    assert CallerOk(s, id);
    if id in s.offered {
      GateDecides(states, steps, k, id);
    } else {
      QueuedInOrder(states, steps, k);
      assert id !in s.queued;
    }
  }

  /** Once the gate is set the worker is never stuck on a queued command. */
  lemma QueueDrains(s: State)
    requires Inv(s) && s.gate != Unset
    requires exists id :: id in s.offered && id !in s.results
    ensures
      var step := if s.worker.Taking? then Take else if s.worker.AwaitingGate? then PassGate else FinishQueued(0);
      Enabled(s, step) && Unsettled(After(s, step)) < Unsettled(s)
  {
    hide CallersInv;
    hide StartupInv;
  }

  /** The worker steps still needed for what is queued now: take, pass, finish. */
  function Unsettled(s: State): nat {
    3 * |s.queue| + match s.worker { case Taking => 0 case AwaitingGate(_) => 2 case Running(_) => 1 }
  }

  // ---- that startup opens what it is to open ----

  predicate ReadyPhase(phase: Phase) {
    phase.SettingReady? || phase.OpeningGate? || phase.PublishingReady? || phase.Complete?
  }

  predicate FailedPhase(phase: Phase) {
    phase.SettingFailed? || phase.BreakingGate? || phase.Aborting? || phase.Aborted?
  }

  /** The barrier is opened with activation, or dies at the end of a failed startup; roots are waited for. */
  predicate BarrierInv(s: State) {
    && (Early(s.phase) || s.phase.Activating? ==> s.barrier == Closed)
    && (ReadyPhase(s.phase) ==> s.barrier == Activated)
    && (FailedPhase(s.phase) && !s.phase.Aborted? ==> s.barrier != Died)
    && (s.phase.Aborted? ==> s.barrier != Closed)
    && (!FailedPhase(s.phase) ==> RootsParked(s))
  }

  /** Every root but one that is being waited for is parked, or has started. */
  predicate RootsParked(s: State) {
    && (s.phase.AwaitingParked? ==> s.roots != [])
    && forall r :: 0 <= r < |s.roots| - (if s.phase.AwaitingParked? then 1 else 0) ==> s.roots[r] != Forked
  }

  lemma StepKeepsBarrier(s: State, step: Step)
    requires BarrierInv(s) && Enabled(s, step)
    ensures BarrierInv(After(s, step))
    ensures s.barrier != Closed ==> After(s, step).barrier == s.barrier
  {
    if step.StartupContinues? {
      StartupKeepsBarrier(s);
    } else if step.RootParks? || step.RootStarts? {
      RootsKeepBarrier(s, step);
    }
  }

  lemma RootsKeepBarrier(s: State, step: Step)
    requires BarrierInv(s) && Enabled(s, step) && (step.RootParks? || step.RootStarts?)
    ensures BarrierInv(After(s, step)) && After(s, step).barrier == s.barrier
  {
    assert forall r :: 0 <= r < |s.roots| ==>
      After(s, step).roots[r] == if r == step.root then After(s, step).roots[r] else s.roots[r];
  }

  lemma StartupKeepsBarrier(s: State)
    requires BarrierInv(s) && Enabled(s, StartupContinues)
    ensures BarrierInv(After(s, StartupContinues))
    ensures s.barrier != Closed ==> After(s, StartupContinues).barrier == s.barrier
  {
    if s.phase.ForkingRoots? {
      ForkingKeepsBarrier(s);
    } else if s.phase.AwaitingParked? {
      AwaitingKeepsBarrier(s);
    } else {
      LaterKeepsBarrier(s);
    }
  }

  lemma ForkingKeepsBarrier(s: State)
    requires BarrierInv(s) && s.phase.ForkingRoots?
    ensures BarrierInv(After(s, StartupContinues)) && After(s, StartupContinues).barrier == s.barrier
  {
    var next := After(s, StartupContinues);
    assert forall r :: 0 <= r < |s.roots| ==> next.roots[r] == s.roots[r];
  }

  lemma AwaitingKeepsBarrier(s: State)
    requires BarrierInv(s) && s.phase.AwaitingParked? && Enabled(s, StartupContinues)
    ensures BarrierInv(After(s, StartupContinues)) && After(s, StartupContinues).barrier == s.barrier
  {
    assert After(s, StartupContinues).roots == s.roots;
  }

  lemma LaterKeepsBarrier(s: State)
    requires BarrierInv(s) && Enabled(s, StartupContinues)
    requires !s.phase.ForkingRoots? && !s.phase.AwaitingParked?
    ensures BarrierInv(After(s, StartupContinues))
    ensures s.barrier != Closed ==> After(s, StartupContinues).barrier == s.barrier
  {
    if FailedPhase(s.phase) {
      EndingKeepsBarrier(s);
    } else {
      OpeningKeepsBarrier(s);
    }
  }

  lemma EndingKeepsBarrier(s: State)
    requires BarrierInv(s) && Enabled(s, StartupContinues) && FailedPhase(s.phase)
    ensures BarrierInv(After(s, StartupContinues))
    ensures s.barrier != Closed ==> After(s, StartupContinues).barrier == s.barrier
  {
    hide RootsParked;
  }

  lemma OpeningKeepsBarrier(s: State)
    requires BarrierInv(s) && Enabled(s, StartupContinues) && !FailedPhase(s.phase)
    requires !s.phase.ForkingRoots? && !s.phase.AwaitingParked?
    ensures BarrierInv(After(s, StartupContinues))
    ensures s.barrier != Closed ==> After(s, StartupContinues).barrier == s.barrier
  {
    var next := After(s, StartupContinues);
    assert next.roots == s.roots && !next.phase.AwaitingParked? && !FailedPhase(next.phase);
    assert RootsParked(next);
    hide RootsParked, Enabled;
  }

  /** In every run the barrier is open before readiness is signalled, and every root was parked before that. */
  lemma {:induction false} BarrierOpensFirst(states: seq<State>, steps: seq<Step>, k: nat)
    requires IsRun(states, steps) && k < |states|
    ensures BarrierInv(states[k])
    ensures ReadyPhase(states[k].phase) || states[k].readiness == Ready ==> states[k].barrier == Activated
    ensures ReadyPhase(states[k].phase) ==> forall r :: 0 <= r < |states[k].roots| ==> states[k].roots[r] != Forked
  {
    hide After, Enabled;
    if k > 0 {
      BarrierOpensFirst(states, steps, k - 1);
      StepKeepsBarrier(states[k - 1], steps[k - 1]);
      ReadinessKeepsBarrier(states[k - 1], steps[k - 1]);
    }
  }

  lemma ReadinessKeepsBarrier(s: State, step: Step)
    requires BarrierInv(s) && Enabled(s, step)
    ensures After(s, step).readiness == Ready ==> s.readiness == Ready || s.barrier == Activated
  {
    hide RootsParked;
    if !step.StartupContinues? {
      hide BarrierInv;
      assert After(s, step).readiness == s.readiness;
    }
  }

  ghost predicate Leads(s: State, steps: seq<Step>, end: State)
    decreases |steps|
  {
    if steps == [] then s == end
    else Enabled(s, steps[0]) && Leads(After(s, steps[0]), steps[1..], end)
  }

  lemma {:induction false} LeadsOn(s: State, first: seq<Step>, mid: State, rest: seq<Step>, end: State)
    requires Leads(s, first, mid) && Leads(mid, rest, end)
    ensures Leads(s, first + rest, end)
    decreases |first|
  {
    hide Enabled, After;
    if first == [] {
      assert first + rest == rest;
    } else {
      assert (first + rest)[1..] == first[1..] + rest;
      LeadsOn(After(s, first[0]), first[1..], mid, rest, end);
    }
  }

  lemma LeadsByOne(s: State, steps: seq<Step>, mid: State, step: Step)
    requires Leads(s, steps, mid) && Enabled(mid, step)
    ensures Leads(s, steps + [step], After(mid, step))
  {
    assert [step][1..] == [];
    assert Leads(After(mid, step), [], After(mid, step));
    assert Leads(mid, [step], After(mid, step));
    hide Enabled, After;
    LeadsOn(s, steps, mid, [step], After(mid, step));
  }

  /** Startup goes on without failure, and a root that was forked comes to its parking place. */
  predicate Undisturbed(steps: seq<Step>) {
    forall k :: 0 <= k < |steps| ==> steps[k].StartupContinues? || steps[k].RootParks?
  }

  lemma ForkOne(s: State) returns (steps: seq<Step>, end: State)
    requires BarrierInv(s) && s.phase.ForkingRoots? && s.phase.left > 0
    ensures Undisturbed(steps) && Leads(s, steps, end)
    ensures end == s.(phase := ForkingRoots(s.phase.left - 1), roots := end.roots)
    ensures |end.roots| == |s.roots| + 1 && BarrierInv(end)
  {
    var none: seq<Step> := [];
    LeadsByOne(s, none, s, StartupContinues);
    steps, end := none + [StartupContinues], After(s, StartupContinues);
    if s.configured {
      var parks := RootParks(|s.roots|);
      ForkedParks(s);
      var parked := After(end, parks);
      hide Enabled, After, BarrierInv;
      LeadsByOne(s, steps, end, parks);
      LeadsByOne(s, steps + [parks], parked, StartupContinues);
      steps, end := steps + [parks] + [StartupContinues], After(parked, StartupContinues);
    } else {
      StepKeepsBarrier(s, StartupContinues);
    }
  }

  lemma ForkedParks(s: State)
    requires BarrierInv(s) && s.phase.ForkingRoots? && s.phase.left > 0 && s.configured
    ensures var forked, parks := After(s, StartupContinues), RootParks(|s.roots|);
      && Enabled(forked, parks)
      && var parked := After(forked, parks);
      && Enabled(parked, StartupContinues)
      && var end := After(parked, StartupContinues);
      && end == s.(phase := ForkingRoots(s.phase.left - 1), roots := s.roots + [Parked])
      && BarrierInv(end)
  {
    var forked := After(s, StartupContinues);
    assert forked.roots[|s.roots| := Parked] == s.roots + [Parked];
  }

  lemma {:induction false} ForkAll(s: State) returns (steps: seq<Step>, end: State)
    requires BarrierInv(s) && s.phase.ForkingRoots?
    ensures Undisturbed(steps) && Leads(s, steps, end)
    ensures end == s.(phase := WaitingForHttp, roots := end.roots)
    ensures |end.roots| == |s.roots| + s.phase.left && BarrierInv(end)
    decreases s.phase.left
  {
    if s.phase.left == 0 {
      var none: seq<Step> := [];
      LeadsByOne(s, none, s, StartupContinues);
      steps, end := none + [StartupContinues], After(s, StartupContinues);
    } else {
      var first, mid := ForkOne(s);
      var rest;
      rest, end := ForkAll(mid);
      hide Enabled, After, BarrierInv;
      LeadsOn(s, first, mid, rest, end);
      steps := first + rest;
    }
  }

  lemma ContinueOnce(s: State, steps: seq<Step>, mid: State) returns (more: seq<Step>, next: State)
    requires Undisturbed(steps) && Leads(s, steps, mid) && Enabled(mid, StartupContinues)
    ensures Undisturbed(more) && Leads(s, more, next) && next == After(mid, StartupContinues)
  {
    LeadsByOne(s, steps, mid, StartupContinues);
    more, next := steps + [StartupContinues], After(mid, StartupContinues);
  }

  /** From the HTTP server to readiness published. */
  lemma Publishes(s: State) returns (steps: seq<Step>, end: State)
    requires s.phase == WaitingForHttp && s.gate == Unset && s.barrier == Closed
    ensures Undisturbed(steps) && Leads(s, steps, end)
    ensures end == s.(phase := Complete, prepared := true, readiness := Ready, gate := Open, barrier := Activated)
  {
    steps, end := [], s;
    hide Leads, Undisturbed;
    NothingLeads(s);
    for k := 0 to 6
      invariant Undisturbed(steps) && Leads(s, steps, end)
      invariant end == s.(phase := [WaitingForHttp, PreparingTrial, Activating, SettingReady, OpeningGate,
                                    PublishingReady, Complete][k],
                          prepared := k >= 2 || s.prepared, readiness := if k >= 4 then Ready else s.readiness,
                          gate := if k >= 5 then Open else Unset, barrier := if k >= 3 then Activated else Closed)
    {
      steps, end := ContinueOnce(s, steps, end);
    }
  }

  lemma NothingLeads(s: State)
    ensures Undisturbed([]) && Leads(s, [], s)
  {
  }

  /** How much the roots still have to do: park, and start. */
  function RootWork(roots: seq<Root>): nat {
    if roots == [] then 0
    else RootWork(roots[..|roots| - 1]) + match roots[|roots| - 1] case Forked => 2 case Parked => 1 case Started => 0
  }

  lemma {:induction false} RootMoves(roots: seq<Root>, r: nat, root: Root)
    requires r < |roots| && ((roots[r] == Forked && root == Parked) || (roots[r] == Parked && root == Started))
    ensures RootWork(roots[r := root]) + 1 == RootWork(roots)
  {
    var n := |roots| - 1;
    if r < n {
      RootMoves(roots[..n], r, root);
      assert roots[r := root][..n] == roots[..n][r := root];
    } else {
      assert roots[r := root][..n] == roots[..n];
    }
  }

  lemma {:induction false} RootWorkIsBounded(roots: seq<Root>)
    ensures RootWork(roots) <= 2 * |roots|
  {
    if roots != [] {
      RootWorkIsBounded(roots[..|roots| - 1]);
    }
  }

  predicate RootSteps(steps: seq<Step>) {
    forall k :: 0 <= k < |steps| ==> steps[k].RootParks? || steps[k].RootStarts?
  }

  predicate AllStarted(roots: seq<Root>) {
    forall r :: 0 <= r < |roots| ==> roots[r] == Started
  }

  /** Behind the open barrier every root starts, after as many steps as the roots have left. */
  lemma {:induction false} RootsStart(s: State) returns (steps: seq<Step>, end: State)
    requires s.barrier == Activated
    ensures RootSteps(steps) && |steps| <= RootWork(s.roots) && Leads(s, steps, end)
    ensures end == s.(roots := end.roots) && |end.roots| == |s.roots| && AllStarted(end.roots)
    decreases RootWork(s.roots)
  {
    if AllStarted(s.roots) {
      steps, end := [], s;
    } else {
      var r :| 0 <= r < |s.roots| && s.roots[r] != Started;
      var step := if s.roots[r] == Forked then RootParks(r) else RootStarts(r);
      var next := After(s, step);
      RootMoves(s.roots, r, if s.roots[r] == Forked then Parked else Started);
      var rest;
      rest, end := RootsStart(next);
      steps := [step] + rest;
    }
  }

  /** An undisturbed startup comes to its end with the gate and the barrier open, and all roots forked. */
  lemma StartupCompletes(s: State) returns (steps: seq<Step>, complete: State)
    requires Initial(s)
    ensures Undisturbed(steps) && Leads(s, steps, complete) && complete.phase == Complete
    ensures complete.readiness == Ready && complete.gate == Open && complete.barrier == Activated && complete.prepared
    ensures |complete.roots| == s.phase.left
  {
    hide Enabled, After;
    var first, forked := ForkAll(s);
    var rest;
    rest, complete := Publishes(forked);
    LeadsOn(s, first, forked, rest, complete);
    steps := first + rest;
  }

  /** And then, after at most two steps of each, every root has started. */
  lemma RootsStartInTwo(s: State) returns (steps: seq<Step>, end: State)
    requires s.barrier == Activated
    ensures RootSteps(steps) && |steps| <= 2 * |s.roots| && Leads(s, steps, end)
    ensures end == s.(roots := end.roots) && |end.roots| == |s.roots| && AllStarted(end.roots)
  {
    hide Enabled, After;
    RootWorkIsBounded(s.roots);
    steps, end := RootsStart(s);
  }

  /** Startup can fail at any point until it is complete, and once. */
  lemma FailsUntilComplete(s: State)
    ensures Enabled(s, StartupFails) <==> !FailedPhase(s.phase) && s.phase != Complete
  {
  }

  /** A startup that fails ends, too: readiness failed, the gate set, and nothing left waiting at the barrier. */
  lemma FailureAborts(s: State) returns (steps: seq<Step>, end: State)
    requires BarrierInv(s) && !FailedPhase(s.phase) && s.phase != Complete
    ensures |steps| == 4 && Leads(s, steps, end) && end.phase == Aborted
    ensures end.readiness == Failed && end.barrier != Closed && (s.barrier == Closed ==> end.barrier == Died)
    ensures end.gate == if s.gate == Unset then Broken else s.gate
  {
    NothingLeads(s);
    FailsUntilComplete(s);
    var none: seq<Step> := [];
    var failed := s.(phase := SettingFailed);
    assert After(s, StartupFails) == failed;
    var signalled := failed.(phase := BreakingGate, readiness := Failed);
    FailureIsSignalled(failed);
    var broken := signalled.(phase := Aborting, gate := SetOnce(s.gate, Broken));
    GateIsBroken(signalled);
    end := broken.(phase := Aborted, barrier := if s.barrier == Closed then Died else s.barrier);
    BarrierDies(broken);
    hide Enabled, After, Leads;
    LeadsByOne(s, none, s, StartupFails);
    steps := none + [StartupFails];
    LeadsByOne(s, steps, failed, StartupContinues);
    steps := steps + [StartupContinues];
    LeadsByOne(s, steps, signalled, StartupContinues);
    steps := steps + [StartupContinues];
    LeadsByOne(s, steps, broken, StartupContinues);
    steps := steps + [StartupContinues];
  }

  lemma FailureIsSignalled(s: State)
    requires s.phase == SettingFailed
    ensures Enabled(s, StartupContinues)
    ensures After(s, StartupContinues) == s.(phase := BreakingGate, readiness := Failed)
  {
  }

  lemma GateIsBroken(s: State)
    requires s.phase == BreakingGate
    ensures Enabled(s, StartupContinues)
    ensures After(s, StartupContinues) == s.(phase := Aborting, gate := SetOnce(s.gate, Broken))
  {
  }

  lemma BarrierDies(s: State)
    requires s.phase == Aborting
    ensures Enabled(s, StartupContinues)
    ensures After(s, StartupContinues) ==
      s.(phase := Aborted, barrier := if s.barrier == Closed then Died else s.barrier)
  {
  }

  // ---- that callers are answered ----

  /** Readiness decides at once: run now, give up now, or wait in the queue. */
  lemma ReadinessDecides(s: State, id: Id)
    requires Enabled(s, ReadReadiness(id))
    ensures var next := After(s, ReadReadiness(id));
      && next.offered == s.offered && next.queued == s.queued
      && (s.readiness == Ready ==> id in next.direct && Enabled(next, FinishDirect(id, 0)))
      && (s.readiness == Failed ==> next.callers[id] == Returned(StartupError) && next.direct == s.direct)
      && (s.readiness == Pending ==> Enabled(next, Offer(id)) && next.direct == s.direct)
  {
  }

  /** With the gate set, every caller that waits is answered. */
  lemma WaitersAreAnswered(s: State, id: Id) returns (steps: seq<Step>, end: State)
    requires Inv(s) && s.gate != Unset && id in s.callers && s.callers[id] == Waiting
    ensures Leads(s, steps, end) && id in end.callers && end.callers[id].Returned?
  {
    NothingLeads(s);
    steps, end := [], s;
    assert CallerOk(s, id);
    hide Leads;
    while id !in end.results
      invariant Leads(s, steps, end) && Inv(end) && end.gate == s.gate
      invariant id in end.offered && id in end.callers && end.callers[id] == Waiting
      decreases Unsettled(end)
    {
      QueueDrains(end);
      var step := if end.worker.Taking? then Take else if end.worker.AwaitingGate? then PassGate else FinishQueued(0);
      LeadsByOne(s, steps, end, step);
      StepPreserves(end, step);
      WorkerLeavesCallers(end, step);
      hide Inv;
      steps, end := steps + [step], After(end, step);
    }
    LeadsByOne(s, steps, end, Collect(id));
    steps, end := steps + [Collect(id)], After(end, Collect(id));
  }

  lemma WorkerLeavesCallers(s: State, step: Step)
    requires Enabled(s, step) && (step.Take? || step.PassGate? || step.FinishQueued?)
    ensures var next := After(s, step);
      next.callers == s.callers && next.offered == s.offered && next.gate == s.gate
  {
  }
}
