/**
 * The server profile lock: contenders race over one path, with hard links and reused inode numbers.
 *
 * A step is one file-system call of one contender, or the death of one. `Excludes` says what is
 * promised: at most one live contender owns the lock. It is kept exactly as long as nobody seizes,
 * that is, unlinks the path while a live contender owns the lock; after that two further steps of
 * the same contender give the lock a second owner.
 *
 * Nobody seizes in runs in which no contender reclaims disturbed: none links a lock after another
 * contender made one since its owner read, and none unlinks the path after another contender made a
 * lock since it compared inodes. Contenders that do not come to link or unlink may be disturbed at
 * any time, and between linking and comparing anything may happen. Two short runs show that a
 * contender can seize without either half.
 */
module ProfileLock {
  import opened Optional

  type Inode = nat

  /** What the lock file says about its creator; `token` is the random id of one acquisition. */
  datatype Owner = Owner(pid: nat, start: Option<string>, token: nat)

  datatype Point =
    | Creating
    | Writing(ino: Inode)
    | Holding(ino: Inode)
    | Reading
    | Checking(owner: Owner)
    | Aging
    | Linking
    | Comparing
    | Unlinking
    | Unclaiming
    | ReleaseReading(ino: Inode)
    | ReleaseUnlinking(ino: Inode)
    | Finished

  datatype Contender = Contender(pid: nat, start: Option<string>, point: Point, alive: bool)

  /**
   * `contents` gives each inode its owner record, or None while it is empty or unreadable.
   * `disturbed` is a record of the past that no step looks at: the contenders that saw another one
   * make a lock since they last read the owner or compared inodes.
   */
  datatype State = State(
    path: Option<Inode>,
    contents: map<Inode, Option<Owner>>,
    claims: map<nat, Inode>,
    contenders: map<nat, Contender>,
    disturbed: set<nat>)

  datatype Action =
    | Enter(pid: nat, start: Option<string>)
    | Create(ino: Inode)
    | Write
    | Read
    | Check
    | CheckThrows
    | Stat(aged: bool)
    | Link
    | Compare
    | Unlink
    | Unclaim
    | Release
    | ReleaseRead
    | ReleaseUnlink
    | Die

  datatype Step = Step(who: nat, action: Action)

  function OwnerOf(s: State, who: nat): Owner
    requires who in s.contenders
  {
    Owner(s.contenders[who].pid, s.contenders[who].start, who)
  }

  /** The recorded process id runs, and with the recorded start token. */
  ghost predicate StillRunning(s: State, owner: Owner) {
    exists c :: c in s.contenders && s.contenders[c].alive
      && s.contenders[c].pid == owner.pid && s.contenders[c].start == owner.start
  }

  /** What reading the lock path yields. */
  function ReadOwner(s: State): Option<Owner> {
    if s.path.Some? && s.path.value in s.contents then s.contents[s.path.value] else None
  }

  /** A link or an open file keeps an inode, and so its number, in use. */
  predicate InUse(s: State, ino: Inode) {
    || s.path == Some(ino)
    || (exists c :: c in s.claims && s.claims[c] == ino)
    || (exists c :: c in s.contenders && s.contenders[c].alive && s.contenders[c].point == Writing(ino))
  }

  function To(s: State, who: nat, point: Point): State
    requires who in s.contenders
  {
    s.(contenders := s.contenders[who := s.contenders[who].(point := point)])
  }

  ghost predicate Enabled(s: State, step: Step) {
    if step.action.Enter? then step.who !in s.contenders && step.who !in s.claims
    else
      && step.who in s.contenders && s.contenders[step.who].alive
      && var point := s.contenders[step.who].point;
      match step.action
      case Create(ino) => point == Creating && !InUse(s, ino)
      case Write => point.Writing?
      case Read => point == Reading
      case Check => point.Checking?
      case CheckThrows => point.Checking?
      case Stat(_) => point == Aging
      case Link => point == Linking
      case Compare => point == Comparing
      case Unlink => point == Unlinking
      case Unclaim => point == Unclaiming
      case Release => point.Holding?
      case ReleaseRead => point.ReleaseReading?
      case ReleaseUnlink => point.ReleaseUnlinking?
      case _ => true
  }

  /** The step makes a new lock file appear at the path, or the empty one there complete. */
  predicate MakesLock(s: State, step: Step) {
    || (step.action.Create? && s.path.None?)
    || (step.action.Write? && step.who in s.contenders && s.contenders[step.who].point.Writing?
        && s.path == Some(s.contenders[step.who].point.ino))
  }

  function DisturbedAfter(s: State, step: Step): set<nat> {
    if MakesLock(s, step) then s.disturbed + (s.contenders.Keys - {step.who})
    else if step.action.Read? || step.action.Compare? then s.disturbed - {step.who}
    else s.disturbed
  }

  ghost function After(s: State, step: Step): State
    requires Enabled(s, step)
  {
    Moved(s, step).(disturbed := DisturbedAfter(s, step))
  }

  /** What the step does to files and contenders. */
  ghost function Moved(s: State, step: Step): State
    requires Enabled(s, step)
  {
    var who := step.who;
    match step.action
    case Enter(pid, start) => s.(contenders := s.contenders[who := Contender(pid, start, Creating, true)])
    case Create(ino) =>
      if s.path.Some? then To(s, who, Reading)
      else To(s.(path := Some(ino), contents := s.contents[ino := None]), who, Writing(ino))
    case Write =>
      var ino := s.contenders[who].point.ino;
      To(s.(contents := s.contents[ino := Some(OwnerOf(s, who))]), who, Holding(ino))
    case Read =>
      To(s, who, if ReadOwner(s).Some? then Checking(ReadOwner(s).value) else Aging)
    case Check =>
      To(s, who, if StillRunning(s, s.contenders[who].point.owner) then Finished else Linking)
    case CheckThrows => To(s, who, Finished)
    case Stat(aged) =>
      To(s, who, if s.path.Some? && aged then Linking else Creating)
    case Link =>
      if s.path.None? then To(s, who, Creating)
      else To(s.(claims := s.claims[who := s.path.value]), who, Comparing)
    case Compare =>
      if who !in s.claims then To(s, who, Finished)
      else if s.path.None? then To(s.(claims := s.claims - {who}), who, Finished)
      else To(s, who, if s.path.value == s.claims[who] then Unlinking else Unclaiming)
    case Unlink => To(s.(path := None), who, Unclaiming)
    case Unclaim => To(s.(claims := s.claims - {who}), who, Creating)
    case Release => To(s, who, ReleaseReading(s.contenders[who].point.ino))
    case ReleaseRead =>
      var mine := ReadOwner(s).Some? && ReadOwner(s).value.token == who;
      To(s, who, if mine then ReleaseUnlinking(s.contenders[who].point.ino) else Finished)
    case ReleaseUnlink => To(s.(path := None), who, Finished)
    case Die => s.(contenders := s.contenders[who := s.contenders[who].(alive := false)])
  }

  /** From creating the file to removing it, a live contender owns the inode it made. */
  predicate Owns(s: State, who: nat, ino: Inode) {
    && who in s.contenders && s.contenders[who].alive
    && (match s.contenders[who].point
        case Writing(i) => i == ino
        case Holding(i) => i == ino
        case ReleaseReading(i) => i == ino
        case ReleaseUnlinking(i) => i == ino
        case _ => false)
  }

  ghost predicate Excludes(s: State) {
    forall a: nat, b: nat, i: Inode, j: Inode :: Owns(s, a, i) && Owns(s, b, j) ==> a == b
  }

  /** The two stretches in which a contender that goes on to reclaim relies on the path staying as it saw it. */
  datatype Stretch = ReadToLink | CompareToUnlink

  /** The step that ends the stretch. */
  predicate EndsStretch(step: Step, stretch: Stretch) {
    match stretch
    case ReadToLink => step.action.Link?
    case CompareToUnlink => step.action.Unlink?
  }

  /** No contender comes to the end of the stretch disturbed and finds a lock there. */
  predicate Calm(s: State, step: Step, stretch: Stretch) {
    EndsStretch(step, stretch) && s.path.Some? ==> step.who !in s.disturbed
  }

  /** A creator that is still writing is never taken for old. */
  ghost predicate Timely(s: State, step: Step) {
    step.action == Stat(true) && s.path.Some? ==>
      forall c :: c in s.contenders && s.contenders[c].alive ==> s.contenders[c].point != Writing(s.path.value)
  }

  ghost predicate Undisturbed(s: State, step: Step) {
    Calm(s, step, ReadToLink) && Calm(s, step, CompareToUnlink) && Timely(s, step)
  }

  predicate OwnedOnPath(s: State, who: nat) {
    who in s.contenders && s.contenders[who].alive ==>
      match s.contenders[who].point
      case Writing(i) => s.path == Some(i) && i in s.contents && s.contents[i].None?
      case Holding(i) => s.path == Some(i) && i in s.contents && s.contents[i] == Some(OwnerOf(s, who))
      case ReleaseReading(i) => s.path == Some(i) && i in s.contents && s.contents[i] == Some(OwnerOf(s, who))
      case ReleaseUnlinking(i) => s.path == Some(i) && i in s.contents && s.contents[i] == Some(OwnerOf(s, who))
      case _ => true
  }

  /** At most one contender owns the lock, and it is the one at the path, with its record once written. */
  ghost predicate Sound(s: State) {
    && (s.path.Some? ==> s.path.value in s.contents)
    && (forall c :: c in s.contenders ==> OwnedOnPath(s, c))
    && Excludes(s)
  }

  ghost predicate Unowned(s: State) {
    forall c: nat, i: Inode :: !Owns(s, c, i)
  }

  /** What a contender knows of the path it read or compared, as long as it is not disturbed, and of its claim. */
  ghost predicate KnowsPath(s: State, who: nat) {
    who in s.contenders && s.contenders[who].alive ==>
      && ClaimIsFree(s, who)
      && (who !in s.disturbed ==>
        match s.contenders[who].point
        case Checking(owner) => s.path.None? || ReadOwner(s) == Some(owner)
        case Aging => s.path.None? || ReadOwner(s).None?
        case Linking => s.path.None? || Unowned(s)
        case Unlinking => s.path.None? || Unowned(s)
        case _ => true)
  }

  /** Disturbed or not, what was linked is pinned, and nobody owns it while it is to be compared. */
  ghost predicate ClaimIsFree(s: State, who: nat)
    requires who in s.contenders
  {
    && (s.contenders[who].point == Comparing ==> who in s.claims && forall c: nat :: !Owns(s, c, s.claims[who]))
    && (s.contenders[who].point == Unlinking ==> who in s.claims)
  }

  ghost predicate Inv(s: State) {
    Sound(s) && forall c :: c in s.contenders ==> KnowsPath(s, c)
  }

  /** At first no contender has entered; the path may hold anything a dead process left. */
  ghost predicate Initial(s: State) {
    s.contenders == map[] && s.disturbed == {} && (s.path.Some? ==> s.path.value in s.contents)
  }

  /** Owning means owning the inode at the path, so nobody owns an absent lock. */
  lemma OwnersArePathed(s: State)
    requires Sound(s)
    ensures forall c: nat, i: Inode :: Owns(s, c, i) ==> s.path == Some(i)
    ensures s.path.None? ==> Unowned(s)
  {
    forall c: nat, i: Inode | Owns(s, c, i) ensures s.path == Some(i) {
      assert OwnedOnPath(s, c);
    }
  }

  // ---- what keeps the lock with its owner ----

  /** A contender unlinks the path as that of a stale lock while a live one owns the lock. */
  ghost predicate Seizes(s: State, step: Step) {
    step.action.Unlink? && !Unowned(s)
  }

  /** Removing the path: as its owner, or as that of a stale lock. */
  predicate Removes(step: Step) {
    step.action.Unlink? || step.action.ReleaseUnlink?
  }

  lemma MakingKeepsSound(s: State, step: Step)
    requires Sound(s) && Enabled(s, step) && step.action.Create? && s.path.None?
    ensures Sound(After(s, step))
  {
    OwnersArePathed(s);
    var s' := After(s, step);
    assert forall c: nat, i: Inode :: Owns(s', c, i) ==> c == step.who && i == step.action.ino;
    forall c | c in s'.contenders && c != step.who ensures OwnedOnPath(s', c) {
      assert OwnedOnPath(s, c);
    }
  }

  lemma MeetingKeepsSound(s: State, step: Step)
    requires Sound(s) && Enabled(s, step) && step.action.Create? && s.path.Some?
    ensures Sound(After(s, step))
  {
    var s' := After(s, step);
    assert forall c: nat, i: Inode :: Owns(s', c, i) <==> Owns(s, c, i);
    forall c | c in s'.contenders ensures OwnedOnPath(s', c) {
      assert OwnedOnPath(s, c);
    }
  }

  lemma WritingKeepsSound(s: State, step: Step)
    requires Sound(s) && Enabled(s, step) && step.action.Write?
    ensures Sound(After(s, step))
  {
    var s', who := After(s, step), step.who;
    var i := s.contenders[who].point.ino;
    assert OwnedOnPath(s, who);
    assert Owns(s, who, i);
    assert forall d: nat, j: Inode :: Owns(s', d, j) ==> Owns(s, d, j);
    forall c | c in s'.contenders ensures OwnedOnPath(s', c) {
      assert OwnedOnPath(s, c);
      if c != who {
        assert forall j: Inode :: !Owns(s', c, j);
        Disowned(s', c);
      }
    }
  }

  /** Only creating makes a new owner. */
  lemma OwnersOnlyLeave(s: State, step: Step)
    requires Enabled(s, step) && !step.action.Create?
    ensures forall c: nat, i: Inode :: Owns(After(s, step), c, i) ==> Owns(s, c, i)
  {
  }

  /** After a removal that does not seize nobody owns a lock. */
  lemma RemovingDisowns(s: State, step: Step)
    requires Sound(s) && Enabled(s, step) && Removes(step) && !Seizes(s, step)
    ensures Unowned(After(s, step))
  {
    OwnersArePathed(s);
    OwnersOnlyLeave(s, step);
    assert step.action.ReleaseUnlink? ==> Owns(s, step.who, s.contenders[step.who].point.ino);
  }

  lemma RemovingKeepsSound(s: State, step: Step)
    requires Sound(s) && Enabled(s, step) && Removes(step) && !Seizes(s, step)
    ensures Sound(After(s, step))
  {
    var s' := After(s, step);
    RemovingDisowns(s, step);
    forall c | c in s'.contenders ensures OwnedOnPath(s', c) {
      assert forall i: Inode :: !Owns(s', c, i);
      Disowned(s', c);
    }
  }

  lemma Disowned(s: State, who: nat)
    requires who in s.contenders && forall i: Inode :: !Owns(s, who, i)
    ensures OwnedOnPath(s, who)
  {
    var c := s.contenders[who];
    if c.alive {
      match c.point
      case Writing(i) => assert Owns(s, who, i);
      case Holding(i) => assert Owns(s, who, i);
      case ReleaseReading(i) => assert Owns(s, who, i);
      case ReleaseUnlinking(i) => assert Owns(s, who, i);
      case _ =>
    }
  }

  /** What any other step leaves as it is. */
  lemma OthersStay(s: State, step: Step)
    requires Enabled(s, step) && !step.action.Create? && !step.action.Write? && !Removes(step)
    ensures var s' := After(s, step);
      && s'.path == s.path && s'.contents == s.contents
      && (forall c :: c != step.who ==> (c in s'.contenders <==> c in s.contenders))
      && (forall c :: c != step.who && c in s.contenders ==> s'.contenders[c] == s.contenders[c])
  {
    hide StillRunning, InUse, DisturbedAfter, ReadOwner;
  }

  lemma ClaimsStay(s: State, step: Step)
    requires Enabled(s, step) && !step.action.Create? && !step.action.Write? && !Removes(step)
    ensures var s' := After(s, step);
      && (forall c :: c != step.who ==> (c in s'.claims <==> c in s.claims))
      && (forall c :: c != step.who && c in s.claims ==> s'.claims[c] == s.claims[c])
      && (forall c :: c != step.who && c in s.disturbed ==> c in s'.disturbed)
  {
    hide StillRunning, InUse, ReadOwner;
  }

  lemma OwnedStaysOnPath(s: State, step: Step, c: nat)
    requires Sound(s) && Enabled(s, step) && c in After(s, step).contenders
    requires !step.action.Create? && !step.action.Write? && !Removes(step)
    ensures OwnedOnPath(After(s, step), c)
  {
    hide StillRunning;
    hide Excludes;
    hide InUse;
    OthersStay(s, step);
    if c in s.contenders {
      assert OwnedOnPath(s, c);
    }
    if c != step.who {
      hide After;
      hide Enabled;
    }
  }

  lemma OthersKeepSound(s: State, step: Step)
    requires Sound(s) && Enabled(s, step) && !step.action.Create? && !step.action.Write? && !Removes(step)
    ensures Sound(After(s, step))
  {
    var s' := After(s, step);
    OwnersOnlyLeave(s, step);
    OthersStay(s, step);
    forall c | c in s'.contenders ensures OwnedOnPath(s', c) {
      OwnedStaysOnPath(s, step, c);
    }
    hide After, Enabled, OwnedOnPath, Owns;
  }

  /** Seizing takes the path away from under the owner. */
  lemma SeizingUnseats(s: State, step: Step)
    requires Sound(s) && Enabled(s, step) && Seizes(s, step)
    ensures !Sound(After(s, step))
  {
    var s' := After(s, step);
    var c: nat, i: Inode :| Owns(s, c, i);
    assert c != step.who && Owns(s', c, i);
    assert !OwnedOnPath(s', c);
  }

  /** Every step keeps the lock with its one owner, if and only if it does not seize. */
  lemma StepKeepsSoundWhen(s: State, step: Step)
    requires Sound(s) && Enabled(s, step)
    ensures Sound(After(s, step)) <==> !Seizes(s, step)
  {
    if Seizes(s, step) {
      SeizingUnseats(s, step);
    } else if step.action.Create? {
      if s.path.None? { MakingKeepsSound(s, step); } else { MeetingKeepsSound(s, step); }
    } else if step.action.Write? {
      WritingKeepsSound(s, step);
    } else if Removes(step) {
      RemovingKeepsSound(s, step);
    } else {
      OthersKeepSound(s, step);
    }
  }

  ghost predicate IsRun(states: seq<State>, steps: seq<Step>) {
    && |states| == |steps| + 1 && Initial(states[0])
    && forall k {:trigger steps[k]} :: 0 <= k < |steps| ==>
      Enabled(states[k], steps[k]) && states[k + 1] == After(states[k], steps[k])
  }

  /** A run in which nobody seizes in the first n steps. */
  ghost predicate NobodySeizes(states: seq<State>, steps: seq<Step>, n: nat)
    requires IsRun(states, steps) && n <= |steps|
  {
    forall k {:trigger steps[k]} :: 0 <= k < n ==> !Seizes(states[k], steps[k])
  }

  /** In every run the lock stays with its one owner up to a state if and only if nobody seized before it. */
  lemma {:induction false} SoundWhenNobodySeizes(states: seq<State>, steps: seq<Step>, n: nat)
    requires IsRun(states, steps) && n <= |steps|
    ensures (forall k :: 0 <= k <= n ==> Sound(states[k])) <==> NobodySeizes(states, steps, n)
  {
    hide Sound, After, Enabled, Seizes;
    if n == 0 {
      InitialIsSound(states[0]);
    } else {
      SoundWhenNobodySeizes(states, steps, n - 1);
      var last := steps[n - 1];
      if Sound(states[n - 1]) {
        StepKeepsSoundWhen(states[n - 1], steps[n - 1]);
      }
    }
  }

  lemma InitialIsSound(s: State)
    requires Initial(s)
    ensures Sound(s)
  {
  }

  /** Mutual exclusion: as long as nobody seizes, at most one live contender owns the lock. */
  lemma MutualExclusion(states: seq<State>, steps: seq<Step>, n: nat)
    requires IsRun(states, steps) && n <= |steps| && NobodySeizes(states, steps, n)
    ensures Excludes(states[n])
  {
    SoundWhenNobodySeizes(states, steps, n);
    assert Sound(states[n]);
  }

  /** Releasing removes the caller's own lock and nobody else's. */
  lemma ReleaseRemovesOwnLock(states: seq<State>, steps: seq<Step>, k: nat)
    requires IsRun(states, steps) && k < |steps| && NobodySeizes(states, steps, k)
    requires steps[k].action.ReleaseUnlink?
    ensures ReadOwner(states[k]) == Some(OwnerOf(states[k], steps[k].who))
    ensures states[k + 1].path.None? && Unowned(states[k + 1])
  {
    SoundWhenNobodySeizes(states, steps, k);
    assert Sound(states[k]);
    assert OwnedOnPath(states[k], steps[k].who);
    RemovingDisowns(states[k], steps[k]);
  }

  /** A live holder can always release: what it reads back is its own record. */
  lemma HolderReadsItself(states: seq<State>, steps: seq<Step>, k: nat, who: nat)
    requires IsRun(states, steps) && k <= |steps| && NobodySeizes(states, steps, k)
    requires who in states[k].contenders && states[k].contenders[who].alive
      && states[k].contenders[who].point.ReleaseReading?
    ensures ReadOwner(states[k]) == Some(OwnerOf(states[k], who))
  {
    SoundWhenNobodySeizes(states, steps, k);
    assert Sound(states[k]);
    assert OwnedOnPath(states[k], who);
  }

  // ---- what seizing leads to ----

  /** The steps can be taken one after the other, and end in the second state. */
  ghost predicate Leads(s: State, steps: seq<Step>, end: State)
    decreases |steps|
  {
    if steps == [] then s == end
    else Enabled(s, steps[0]) && Leads(After(s, steps[0]), steps[1..], end)
  }

  /** The largest inode number in use has a successor. */
  lemma {:induction false} Above(numbers: set<Inode>) returns (n: Inode)
    ensures forall m :: m in numbers ==> m < n
  {
    if numbers == {} {
      n := 0;
    } else {
      var m :| m in numbers;
      var rest := Above(numbers - {m});
      n := if m < rest then rest else m + 1;
      assert forall k :: k in numbers ==> k == m || k in numbers - {m};
    }
  }

  lemma SomeInodeIsFree(s: State) returns (ino: Inode)
    ensures !InUse(s, ino)
  {
    var written := set c | c in s.contenders && s.contenders[c].point.Writing? :: s.contenders[c].point.ino;
    var atPath := if s.path.Some? then {s.path.value} else {};
    ino := Above(atPath + s.claims.Values + written);
    forall c | c in s.claims ensures s.claims[c] != ino {
      assert s.claims[c] in s.claims.Values;
    }
    forall c | c in s.contenders ensures s.contenders[c].point != Writing(ino) {
      assert s.contenders[c].point.Writing? ==> s.contenders[c].point.ino in written;
    }
  }

  /** What the seizing contender does next. */
  function TakingOver(who: nat, ino: Inode): seq<Step> {
    [Step(who, Unlink), Step(who, Unclaim), Step(who, Create(ino))]
  }

  /** Wherever a contender can seize, its next two steps after that give the lock a second owner. */
  lemma SeizingLosesExclusion(s: State, step: Step) returns (ino: Inode, end: State)
    requires Enabled(s, step) && Seizes(s, step)
    ensures Leads(s, TakingOver(step.who, ino), end) && !Excludes(end)
  {
    var who := step.who;
    ino := SomeInodeIsFree(s);
    StaysFree(s, step, ino);
    var removed := After(s, step);
    var unclaimed := After(removed, Step(who, Unclaim));
    end := After(unclaimed, Step(who, Create(ino)));
    SecondOwner(s, step, ino);
    var steps := TakingOver(who, ino);
    hide After, Enabled, Excludes, Owns, Seizes;
    assert steps[1..] == [Step(who, Unclaim), Step(who, Create(ino))];
    assert steps[1..][1..] == [Step(who, Create(ino))];
    assert Leads(end, [], end);
    assert Leads(unclaimed, [Step(who, Create(ino))], end);
    assert Leads(removed, steps[1..], end);
  }

  lemma SecondOwner(s: State, step: Step, ino: Inode)
    requires Enabled(s, step) && Seizes(s, step) && !InUse(s, ino)
    ensures Enabled(After(s, step), Step(step.who, Unclaim))
    ensures var unclaimed := After(After(s, step), Step(step.who, Unclaim));
      && Enabled(unclaimed, Step(step.who, Create(ino)))
      && !Excludes(After(unclaimed, Step(step.who, Create(ino))))
  {
    StaysFree(s, step, ino);
    hide InUse;
    var c: nat, i: Inode :| Owns(s, c, i);
    var unclaimed := After(After(s, step), Step(step.who, Unclaim));
    assert c != step.who && Owns(unclaimed, c, i);
    var end := After(unclaimed, Step(step.who, Create(ino)));
    assert Owns(end, c, i) && Owns(end, step.who, ino);
  }

  lemma StaysFree(s: State, step: Step, ino: Inode)
    requires Enabled(s, step) && step.action.Unlink? && !InUse(s, ino)
    ensures var removed := After(s, step);
      && Enabled(removed, Step(step.who, Unclaim))
      && var unclaimed := After(removed, Step(step.who, Unclaim));
      && unclaimed.path.None? && !InUse(unclaimed, ino) && Enabled(unclaimed, Step(step.who, Create(ino)))
  {
  }

  // ---- one contender alone ----

  lemma {:induction false} LeadsOn(s: State, first: seq<Step>, mid: State, rest: seq<Step>, end: State)
    requires Leads(s, first, mid) && Leads(mid, rest, end)
    ensures Leads(s, first + rest, end)
    decreases |first|
  {
    hide Enabled, After;
    if first == [] {
      assert first + rest == rest;
    } else {
      assert (first + rest)[1..] == first[1..] + rest;
      LeadsOn(After(s, first[0]), first[1..], mid, rest, end);
    }
  }

  lemma LeadsByOne(s: State, step: Step)
    requires Enabled(s, step)
    ensures Leads(s, [step], After(s, step))
  {
    assert [step][1..] == [];
    assert Leads(After(s, step), [], After(s, step));
  }

  /** The contender takes all the steps. */
  predicate AllBy(steps: seq<Step>, who: nat) {
    forall k :: 0 <= k < |steps| ==> steps[k].who == who
  }

  predicate IsAt(s: State, who: nat, point: Point) {
    who in s.contenders && s.contenders[who].alive && s.contenders[who].point == point
  }

  /** Some live contender has the owner's process id and its start token. */
  ghost predicate OwnerLives(s: State, owner: Owner) {
    exists c :: c in s.contenders && s.contenders[c].alive
      && s.contenders[c].pid == owner.pid && s.contenders[c].start == owner.start
  }

  /** The contender holds the lock, and the file at the path says so. */
  predicate Holds(s: State, who: nat) {
    && who in s.contenders && s.contenders[who].alive && s.contenders[who].point.Holding?
    && s.path == Some(s.contenders[who].point.ino) && s.path.value in s.contents
    && s.contents[s.path.value] == Some(Owner(s.contenders[who].pid, s.contenders[who].start, who))
  }

  /** With nothing at the path the next contender gets the lock. */
  lemma CreatesAlone(s: State, who: nat) returns (steps: seq<Step>, end: State)
    requires IsAt(s, who, Creating) && s.path.None?
    ensures AllBy(steps, who) && Leads(s, steps, end) && Holds(end, who)
  {
    var ino := SomeInodeIsFree(s);
    var create, write := Step(who, Create(ino)), Step(who, Write);
    LeadsByOne(s, create);
    var created := After(s, create);
    LeadsByOne(created, write);
    end := After(created, write);
    LeadsOn(s, [create], created, [write], end);
    steps := [create] + [write];
  }

  lemma LinksAndCompares(s: State, who: nat) returns (steps: seq<Step>, end: State)
    requires IsAt(s, who, Linking) && s.path.Some?
    ensures AllBy(steps, who) && Leads(s, steps, end) && IsAt(end, who, Unlinking)
  {
    var link, compare := Step(who, Link), Step(who, Compare);
    LeadsByOne(s, link);
    var linked := After(s, link);
    LeadsByOne(linked, compare);
    end := After(linked, compare);
    LeadsOn(s, [link], linked, [compare], end);
    steps := [link] + [compare];
  }

  lemma RemovesAlone(s: State, who: nat) returns (steps: seq<Step>, end: State)
    requires IsAt(s, who, Unlinking)
    ensures AllBy(steps, who) && Leads(s, steps, end) && IsAt(end, who, Creating) && end.path.None?
  {
    var unlink, unclaim := Step(who, Unlink), Step(who, Unclaim);
    LeadsByOne(s, unlink);
    var removed := After(s, unlink);
    LeadsByOne(removed, unclaim);
    end := After(removed, unclaim);
    LeadsOn(s, [unlink], removed, [unclaim], end);
    steps := [unlink] + [unclaim];
  }

  lemma FindsNothingToLink(s: State, who: nat)
    requires IsAt(s, who, Linking) && s.path.None?
    ensures Enabled(s, Step(who, Link))
    ensures var end := After(s, Step(who, Link)); IsAt(end, who, Creating) && end.path.None?
  {
  }

  /** A lock that was found stale is linked, compared, unlinked and replaced. */
  lemma ReclaimsAlone(s: State, who: nat) returns (steps: seq<Step>, end: State)
    requires IsAt(s, who, Linking)
    ensures AllBy(steps, who) && Leads(s, steps, end) && Holds(end, who)
  {
    hide Enabled, After;
    if s.path.Some? {
      var compared;
      steps, compared := LinksAndCompares(s, who);
      var rest, removed := RemovesAlone(compared, who);
      LeadsOn(s, steps, compared, rest, removed);
      steps, end := steps + rest, removed;
    } else {
      FindsNothingToLink(s, who);
      LeadsByOne(s, Step(who, Link));
      steps, end := [Step(who, Link)], After(s, Step(who, Link));
    }
    var rest, held := CreatesAlone(end, who);
    LeadsOn(s, steps, end, rest, held);
    steps, end := steps + rest, held;
  }

  /** A contender that read an owner refuses if and only if that very process still runs, not one that got its id. */
  lemma RefusesWhenOwnerLives(s: State, who: nat, owner: Owner)
    requires IsAt(s, who, Checking(owner))
    ensures Enabled(s, Step(who, Check))
    ensures IsAt(After(s, Step(who, Check)), who, if OwnerLives(s, owner) then Finished else Linking)
    ensures After(s, Step(who, Check)).path == s.path && After(s, Step(who, Check)).contents == s.contents
  {
  }

  /** The lock of an owner that does not run any more is taken over, also when its process id was given out again. */
  lemma DeadOwnerIsReplaced(s: State, who: nat, owner: Owner) returns (steps: seq<Step>, end: State)
    requires IsAt(s, who, Checking(owner))
    requires forall c :: c in s.contenders && s.contenders[c].alive ==>
      s.contenders[c].pid != owner.pid || s.contenders[c].start != owner.start
    ensures AllBy(steps, who) && Leads(s, steps, end) && Holds(end, who)
  {
    var check := Step(who, Check);
    RefusesWhenOwnerLives(s, who, owner);
    LeadsByOne(s, check);
    hide Enabled, After;
    var checked := After(s, check);
    var rest;
    rest, end := ReclaimsAlone(checked, who);
    LeadsOn(s, [check], checked, rest, end);
    steps := [check] + rest;
  }

  /** What a contender that starts out alone comes to: the lock, unless its recorded owner still runs. */
  lemma AcquiresAlone(s: State, who: nat) returns (steps: seq<Step>, end: State)
    requires IsAt(s, who, Creating) && (s.path.Some? ==> s.path.value in s.contents)
    ensures AllBy(steps, who) && Leads(s, steps, end)
    ensures
      if s.path.Some? && s.contents[s.path.value].Some? && OwnerLives(s, s.contents[s.path.value].value)
      then IsAt(end, who, Finished) && end.path == s.path && end.contents == s.contents
      else Holds(end, who)
  {
    if s.path.None? {
      steps, end := CreatesAlone(s, who);
    } else {
      var meet, read := MeetsLock(s, who);
      steps, end := meet, read;
      var rest: seq<Step>, last: State;
      if s.contents[s.path.value].None? {
        hide Enabled, After;
        rest, last := TakesOldFile(read, who);
      } else {
        var owner := s.contents[s.path.value].value;
        assert OwnerLives(read, owner) <==> OwnerLives(s, owner);
        if OwnerLives(s, owner) {
          RefusesWhenOwnerLives(read, who, owner);
          LeadsByOne(read, Step(who, Check));
          rest, last := [Step(who, Check)], After(read, Step(who, Check));
        } else {
          hide Enabled, After;
          rest, last := DeadOwnerIsReplaced(read, who, owner);
        }
      }
      hide Enabled, After, OwnerLives;
      LeadsOn(s, meet, read, rest, last);
      steps, end := meet + rest, last;
    }
  }

  /** Creating fails on a file that is there, and its owner is read. */
  lemma MeetsLock(s: State, who: nat) returns (steps: seq<Step>, end: State)
    requires IsAt(s, who, Creating) && s.path.Some? && s.path.value in s.contents
    ensures AllBy(steps, who) && Leads(s, steps, end)
    ensures end.path == s.path && end.contents == s.contents
    ensures end.contenders.Keys == s.contenders.Keys && forall c :: c in s.contenders ==>
      && end.contenders[c].alive == s.contenders[c].alive
      && end.contenders[c].pid == s.contenders[c].pid && end.contenders[c].start == s.contenders[c].start
    ensures var record := s.contents[s.path.value];
      IsAt(end, who, if record.Some? then Checking(record.value) else Aging)
  {
    var ino := SomeInodeIsFree(s);
    var create := Step(who, Create(ino));
    LeadsByOne(s, create);
    var met := After(s, create);
    LeadsByOne(met, Step(who, Read));
    end := After(met, Step(who, Read));
    LeadsOn(s, [create], met, [Step(who, Read)], end);
    steps := [create] + [Step(who, Read)];
  }

  /** A holder that dies leaves its lock, and whoever comes next takes it over, also with the same process id. */
  lemma CrashedHolderIsReplaced(s: State, holder: nat, who: nat) returns (steps: seq<Step>, end: State)
    requires Holds(s, holder) && IsAt(s, who, Creating) && who != holder
    requires forall c :: c in s.contenders && s.contenders[c].alive && c != holder ==>
      s.contenders[c].pid != s.contenders[holder].pid || s.contenders[c].start != s.contenders[holder].start
    ensures AllBy(steps, who) && Leads(s, [Step(holder, Die)] + steps, end) && Holds(end, who)
  {
    var death := Step(holder, Die);
    LeadsByOne(s, death);
    var left := After(s, death);
    assert left.path == s.path && left.contents == s.contents && IsAt(left, who, Creating);
    assert !OwnerLives(left, s.contents[s.path.value].value);
    hide Enabled, After, OwnerLives;
    steps, end := AcquiresAlone(left, who);
    LeadsOn(s, [death], left, steps, end);
  }

  /** Anybody may come, under any process id, and begins by creating the file. */
  lemma NewcomersCreate(s: State, who: nat, pid: nat, start: Option<string>)
    requires who !in s.contenders && who !in s.claims
    ensures Enabled(s, Step(who, Enter(pid, start))) && IsAt(After(s, Step(who, Enter(pid, start))), who, Creating)
  {
  }

  /** A file that stays empty or unreadable is reclaimed once it is old. */
  lemma TakesOldFile(s: State, who: nat) returns (steps: seq<Step>, end: State)
    requires IsAt(s, who, Aging) && s.path.Some?
    ensures AllBy(steps, who) && Leads(s, steps, end) && Holds(end, who)
  {
    var stat := Step(who, Stat(true));
    LeadsByOne(s, stat);
    var aged := After(s, stat);
    assert IsAt(aged, who, Linking);
    hide Enabled, After;
    var rest;
    rest, end := ReclaimsAlone(aged, who);
    LeadsOn(s, [stat], aged, rest, end);
    steps := [stat] + rest;
  }

  /** A young one is not: the contender begins again. */
  lemma YoungFileIsLeft(s: State, who: nat)
    requires IsAt(s, who, Aging)
    ensures Enabled(s, Step(who, Stat(false))) && IsAt(After(s, Step(who, Stat(false))), who, Creating)
    ensures After(s, Step(who, Stat(false))).path == s.path
  {
  }

  /** A holder that releases alone takes its lock away. */
  lemma ReleasesAlone(s: State, who: nat) returns (steps: seq<Step>, end: State)
    requires Holds(s, who)
    ensures AllBy(steps, who) && Leads(s, steps, end) && IsAt(end, who, Finished) && end.path.None?
  {
    var release, read, unlink := Step(who, Release), Step(who, ReleaseRead), Step(who, ReleaseUnlink);
    LeadsByOne(s, release);
    var released := After(s, release);
    LeadsByOne(released, read);
    var mine := After(released, read);
    LeadsByOne(mine, unlink);
    end := After(mine, unlink);
    hide Enabled, After;
    LeadsOn(s, [release], released, [read], mine);
    LeadsOn(s, [release] + [read], mine, [unlink], end);
    steps := [release] + [read] + [unlink];
  }

  /** As long as nobody has seized, every holder can. */
  lemma HoldersHold(states: seq<State>, steps: seq<Step>, k: nat, who: nat)
    requires IsRun(states, steps) && k <= |steps| && NobodySeizes(states, steps, k)
    requires who in states[k].contenders && states[k].contenders[who].alive
      && states[k].contenders[who].point.Holding?
    ensures Holds(states[k], who)
  {
    SoundWhenNobodySeizes(states, steps, k);
    assert Sound(states[k]);
    assert OwnedOnPath(states[k], who);
  }

  // ---- why nobody seizes in an undisturbed run ----

  lemma CreatePreserves(s: State, step: Step)
    requires Inv(s) && Enabled(s, step) && step.action.Create?
    ensures Inv(After(s, step))
  {
    StepKeepsSoundWhen(s, step);
    var s' := After(s, step);
    if s.path.None? {
      OwnersArePathed(s);
      assert forall c: nat, i: Inode :: Owns(s', c, i) ==> c == step.who && i == step.action.ino;
    } else {
      assert forall c: nat, i: Inode :: Owns(s', c, i) <==> Owns(s, c, i);
    }
    forall c | c in s'.contenders && c != step.who ensures KnowsPath(s', c) {
      assert KnowsPath(s, c);
    }
  }

  /** A stale owner is nobody alive, so no live contender owns the file it was read from. */
  lemma StaleMeansUnowned(s: State, who: nat)
    requires Inv(s) && who in s.contenders && s.contenders[who].alive && s.contenders[who].point.Checking?
    requires who !in s.disturbed && !StillRunning(s, s.contenders[who].point.owner)
    ensures s.path.None? || Unowned(s)
  {
    OwnersArePathed(s);
    assert KnowsPath(s, who);
    forall c: nat, i: Inode ensures s.path.None? || !Owns(s, c, i) {
      assert c in s.contenders ==> OwnedOnPath(s, c);
      assert c in s.contenders && s.contenders[c].alive ==> StillRunning(s, OwnerOf(s, c));
    }
  }

  lemma AgedMeansUnowned(s: State, step: Step)
    requires Inv(s) && Enabled(s, step) && Timely(s, step) && step.action == Stat(true)
    requires step.who !in s.disturbed && s.path.Some?
    ensures Unowned(s)
  {
    OwnersArePathed(s);
    assert KnowsPath(s, step.who);
    forall c: nat, i: Inode ensures !Owns(s, c, i) {
      assert c in s.contenders ==> OwnedOnPath(s, c);
      assert c in s.contenders && s.contenders[c].alive ==> s.contenders[c].point != Writing(s.path.value);
    }
  }

  lemma RemovingPreserves(s: State, step: Step)
    requires Inv(s) && Enabled(s, step) && Undisturbed(s, step) && Removes(step)
    ensures !Seizes(s, step) && Inv(After(s, step))
  {
    var s' := After(s, step);
    assert KnowsPath(s, step.who);
    OwnersArePathed(s);
    StepKeepsSoundWhen(s, step);
    RemovingDisowns(s, step);
    OwnersOnlyLeave(s, step);
    forall c | c in s'.contenders ensures KnowsPath(s', c) {
      assert KnowsPath(s, c);
    }
  }

  lemma WritePreserves(s: State, step: Step)
    requires Inv(s) && Enabled(s, step) && Undisturbed(s, step) && step.action.Write?
    ensures Inv(After(s, step))
  {
    var s', who := After(s, step), step.who;
    StepKeepsSoundWhen(s, step);
    OwnersArePathed(s);
    OwnersOnlyLeave(s, step);
    assert OwnedOnPath(s, who) && Owns(s, who, s.contenders[who].point.ino);
    forall c | c in s'.contenders ensures KnowsPath(s', c) {
      assert KnowsPath(s, c);
    }
  }

  /** Steps that leave the path and the file at it alone. */
  lemma OtherPreserves(s: State, step: Step)
    requires Inv(s) && Enabled(s, step) && Undisturbed(s, step)
    requires !step.action.Create? && !step.action.Write? && !Removes(step)
    ensures Inv(After(s, step))
  {
    var s', who := After(s, step), step.who;
    OwnersArePathed(s);
    OwnersOnlyLeave(s, step);
    if step.action.Check? && who !in s.disturbed && !StillRunning(s, s.contenders[who].point.owner) {
      StaleMeansUnowned(s, who);
    }
    if step.action == Stat(true) && who !in s.disturbed && s.path.Some? {
      AgedMeansUnowned(s, step);
    }
    if step.action.Link? && s.path.Some? {
      assert KnowsPath(s, who);
    }
    StepKeepsSoundWhen(s, step);
    forall c | c in s'.contenders ensures KnowsPath(s', c) {
      KnowledgeStays(s, step, c);
    }
  }

  lemma KnowledgeStays(s: State, step: Step, c: nat)
    requires Inv(s) && Enabled(s, step) && c in After(s, step).contenders
    requires !step.action.Create? && !step.action.Write? && !Removes(step)
    requires step.action.Check? && step.who !in s.disturbed && !StillRunning(s, s.contenders[step.who].point.owner) ==>
               s.path.None? || Unowned(s)
    requires step.action == Stat(true) && step.who !in s.disturbed && s.path.Some? ==> Unowned(s)
    requires step.action.Link? && s.path.Some? ==> Unowned(s)
    requires forall d: nat, i: Inode :: Owns(After(s, step), d, i) ==> Owns(s, d, i)
    ensures KnowsPath(After(s, step), c)
  {
    hide StillRunning;
    hide InUse;
    if c in s.contenders {
      assert KnowsPath(s, c);
    }
    if c == step.who {
      OwnKnowledge(s, step);
    } else {
      OthersStay(s, step);
      ClaimsStay(s, step);
      hide After;
      hide Enabled;
    }
  }

  lemma OwnKnowledge(s: State, step: Step)
    requires Inv(s) && Enabled(s, step)
    requires !step.action.Create? && !step.action.Write? && !Removes(step)
    requires step.action.Check? && step.who !in s.disturbed && !StillRunning(s, s.contenders[step.who].point.owner) ==>
               s.path.None? || Unowned(s)
    requires step.action == Stat(true) && step.who !in s.disturbed && s.path.Some? ==> Unowned(s)
    requires step.action.Link? && s.path.Some? ==> Unowned(s)
    requires forall d: nat, i: Inode :: Owns(After(s, step), d, i) ==> Owns(s, d, i)
    ensures KnowsPath(After(s, step), step.who)
  {
    hide StillRunning;
    hide InUse;
    hide Excludes;
    hide OwnedOnPath;
    if step.who in s.contenders {
      assert KnowsPath(s, step.who);
    }
    if step.action.Compare? {
      ComparedIsUnowned(s, step);
    }
  }

  /** The claim at the path is owned by nobody, so nobody owns a lock at all. */
  lemma ComparedIsUnowned(s: State, step: Step)
    requires Inv(s) && Enabled(s, step) && step.action.Compare?
    ensures step.who in s.claims && s.path == Some(s.claims[step.who]) ==> Unowned(s)
  {
    OwnersArePathed(s);
    assert KnowsPath(s, step.who);
  }

  /** An undisturbed step does not seize, and keeps the invariant. */
  lemma StepPreserves(s: State, step: Step)
    requires Inv(s) && Enabled(s, step) && Undisturbed(s, step)
    ensures !Seizes(s, step) && Inv(After(s, step))
  {
    if step.action.Create? {
      CreatePreserves(s, step);
    } else if step.action.Write? {
      WritePreserves(s, step);
    } else if Removes(step) {
      RemovingPreserves(s, step);
    } else {
      OtherPreserves(s, step);
    }
  }

  ghost predicate UndisturbedRun(states: seq<State>, steps: seq<Step>) {
    IsRun(states, steps) && forall k {:trigger steps[k]} :: 0 <= k < |steps| ==> Undisturbed(states[k], steps[k])
  }

  lemma {:induction false} RunKeepsInv(states: seq<State>, steps: seq<Step>, k: nat)
    requires UndisturbedRun(states, steps) && k < |states|
    ensures Inv(states[k])
  {
    hide Inv;
    hide After;
    hide Enabled;
    hide Undisturbed;
    if k > 0 {
      RunKeepsInv(states, steps, k - 1);
      StepPreserves(states[k - 1], steps[k - 1]);
    } else {
      InitialInv(states[0]);
    }
  }

  lemma InitialInv(s: State)
    requires Initial(s)
    ensures Inv(s)
  {
  }

  /** In an undisturbed run nobody seizes: what a reclaim removes is a lock that no live contender owns. */
  lemma ReclaimRemovesStaleLock(states: seq<State>, steps: seq<Step>, k: nat)
    requires UndisturbedRun(states, steps) && k < |steps| && steps[k].action.Unlink?
    ensures Unowned(states[k])
  {
    RunKeepsInv(states, steps, k);
    StepPreserves(states[k], steps[k]);
  }

  /** So undisturbed runs exclude throughout. */
  lemma UndisturbedRunsExclude(states: seq<State>, steps: seq<Step>, n: nat)
    requires UndisturbedRun(states, steps) && n <= |steps|
    ensures NobodySeizes(states, steps, n) && Excludes(states[n])
  {
    forall k | 0 <= k < n ensures !Seizes(states[k], steps[k]) {
      if steps[k].action.Unlink? {
        ReclaimRemovesStaleLock(states, steps, k);
      }
    }
    MutualExclusion(states, steps, n);
  }

  // ---- disturbed runs that seize: two contenders, a lock left by a dead process ----

  const STALE := Owner(9, Some("earlier boot"), 9)

  const LEFT: map<Inode, Option<Owner>> := map[0 := Some(STALE)]

  /** The files once the second contender has made its lock. */
  const REPLACED: map<Inode, Option<Owner>> := map[0 := Some(STALE), 1 := Some(Owner(2, Some("b"), 1))]

  type Files = map<Inode, Option<Owner>>

  function Scene(path: Option<Inode>, contents: Files, claims: map<nat, Inode>, first: Point, second: Point,
                 disturbed: set<nat>): State {
    State(path, contents, claims,
          map[0 := Contender(1, Some("a"), first, true), 1 := Contender(2, Some("b"), second, true)], disturbed)
  }

  /** A run whose every step is timely, and calm at least at the end of the given stretch, ends in this state. */
  ghost predicate Reachable(s: State, stretch: Stretch) {
    exists states, steps :: EndsIn(states, steps, stretch, s)
  }

  ghost predicate EndsIn(states: seq<State>, steps: seq<Step>, stretch: Stretch, s: State) {
    && IsRun(states, steps) && states[|steps|] == s
    && forall k {:trigger steps[k]} :: 0 <= k < |steps| ==>
         Timely(states[k], steps[k]) && Calm(states[k], steps[k], stretch)
  }

  lemma Take(stretch: Stretch, s: State, step: Step, s': State)
    requires Reachable(s, stretch) && Enabled(s, step) && After(s, step) == s'
    requires Timely(s, step) && Calm(s, step, stretch)
    ensures Reachable(s', stretch)
  {
    var states, steps :| EndsIn(states, steps, stretch, s);
    hide Enabled;
    hide After;
    hide Timely;
    hide Calm;
    assert EndsIn(states + [s'], steps + [step], stretch, s');
  }

  lemma BothEnter(stretch: Stretch)
    ensures Reachable(Scene(Some(0), LEFT, map[], Creating, Creating, {}), stretch)
  {
    var empty := State(Some(0), LEFT, map[], map[], {});
    var none: seq<Step> := [];
    assert EndsIn([empty], none, stretch, empty);
    var entered := empty.(contenders := map[0 := Contender(1, Some("a"), Creating, true)]);
    Take(stretch, empty, Step(0, Enter(1, Some("a"))), entered);
    Take(stretch, entered, Step(1, Enter(2, Some("b"))), Scene(Some(0), LEFT, map[], Creating, Creating, {}));
  }

  lemma FirstReadsStaleLock(stretch: Stretch)
    ensures Reachable(Scene(Some(0), LEFT, map[], Checking(STALE), Creating, {}), stretch)
  {
    BothEnter(stretch);
    hide Reachable;
    var reading := Scene(Some(0), LEFT, map[], Reading, Creating, {});
    Take(stretch, Scene(Some(0), LEFT, map[], Creating, Creating, {}), Step(0, Create(5)), reading);
    Take(stretch, reading, Step(0, Read), Scene(Some(0), LEFT, map[], Checking(STALE), Creating, {}));
  }

  lemma FirstFindsStaleLock(stretch: Stretch)
    ensures Reachable(Scene(Some(0), LEFT, map[], Linking, Creating, {}), stretch)
  {
    FirstReadsStaleLock(stretch);
    hide Reachable;
    var checking := Scene(Some(0), LEFT, map[], Checking(STALE), Creating, {});
    Take(stretch, checking, Step(0, Check), Scene(Some(0), LEFT, map[], Linking, Creating, {}));
  }

  lemma SecondMeetsStaleLock(stretch: Stretch)
    ensures Reachable(Scene(Some(0), LEFT, map[], Linking, Reading, {}), stretch)
  {
    FirstFindsStaleLock(stretch);
    hide Reachable;
    hide StillRunning;
    var linking := Scene(Some(0), LEFT, map[], Linking, Creating, {});
    Take(stretch, linking, Step(1, Create(5)), Scene(Some(0), LEFT, map[], Linking, Reading, {}));
  }

  lemma SecondReadsStaleLock(stretch: Stretch)
    ensures Reachable(Scene(Some(0), LEFT, map[], Linking, Checking(STALE), {}), stretch)
  {
    SecondMeetsStaleLock(stretch);
    hide Reachable;
    hide StillRunning;
    var reading := Scene(Some(0), LEFT, map[], Linking, Reading, {});
    Take(stretch, reading, Step(1, Read), Scene(Some(0), LEFT, map[], Linking, Checking(STALE), {}));
  }

  /** Both contenders find the lock of a dead process and decide to reclaim it. */
  lemma BothFindStaleLock(stretch: Stretch)
    ensures Reachable(Scene(Some(0), LEFT, map[], Linking, Linking, {}), stretch)
  {
    SecondReadsStaleLock(stretch);
    hide Reachable;
    var checking := Scene(Some(0), LEFT, map[], Linking, Checking(STALE), {});
    Take(stretch, checking, Step(1, Check), Scene(Some(0), LEFT, map[], Linking, Linking, {}));
  }

  lemma SecondCompares(stretch: Stretch, claims: map<nat, Inode>, waiting: Point)
    requires Reachable(Scene(Some(0), LEFT, claims, waiting, Linking, {}), stretch)
    ensures Reachable(Scene(Some(0), LEFT, claims[1 := 0], waiting, Unlinking, {}), stretch)
  {
    hide Reachable;
    var comparing := Scene(Some(0), LEFT, claims[1 := 0], waiting, Comparing, {});
    Take(stretch, Scene(Some(0), LEFT, claims, waiting, Linking, {}), Step(1, Link), comparing);
    Take(stretch, comparing, Step(1, Compare), Scene(Some(0), LEFT, claims[1 := 0], waiting, Unlinking, {}));
  }

  lemma SecondUnlinks(stretch: Stretch, claims: map<nat, Inode>, waiting: Point)
    requires Reachable(Scene(Some(0), LEFT, claims[1 := 0], waiting, Unlinking, {}), stretch)
    ensures Reachable(Scene(None, LEFT, claims[1 := 0], waiting, Unclaiming, {}), stretch)
  {
    hide Reachable;
    hide StillRunning;
    var unlinking := Scene(Some(0), LEFT, claims[1 := 0], waiting, Unlinking, {});
    Take(stretch, unlinking, Step(1, Unlink), Scene(None, LEFT, claims[1 := 0], waiting, Unclaiming, {}));
  }

  lemma SecondRemoves(stretch: Stretch, claims: map<nat, Inode>, waiting: Point)
    requires claims == map[] || claims == map[0 := 0]
    requires Reachable(Scene(Some(0), LEFT, claims[1 := 0], waiting, Unlinking, {}), stretch)
    ensures Reachable(Scene(None, LEFT, claims, waiting, Creating, {}), stretch)
  {
    hide Reachable;
    hide StillRunning;
    SecondUnlinks(stretch, claims, waiting);
    assert claims[1 := 0] - {1} == claims;
    var removed := Scene(None, LEFT, claims[1 := 0], waiting, Unclaiming, {});
    Take(stretch, removed, Step(1, Unclaim), Scene(None, LEFT, claims, waiting, Creating, {}));
  }

  /** From here on the first contender is disturbed. */
  lemma SecondWrites(stretch: Stretch, claims: map<nat, Inode>, waiting: Point)
    requires (claims == map[] || claims == map[0 := 0]) && !waiting.Writing?
    requires Reachable(Scene(None, LEFT, claims, waiting, Creating, {}), stretch)
    ensures Reachable(Scene(Some(1), REPLACED, claims, waiting, Holding(1), {0}), stretch)
  {
    hide Reachable;
    var idle := Scene(None, LEFT, claims, waiting, Creating, {});
    var created := Scene(Some(1), LEFT[1 := None], claims, waiting, Writing(1), {0});
    assert idle.contenders.Keys - {1} == {0};
    Take(stretch, idle, Step(1, Create(1)), created);
    assert created.contenders.Keys - {1} == {0};
    assert LEFT[1 := None][1 := Some(Owner(2, Some("b"), 1))] == REPLACED;
    Take(stretch, created, Step(1, Write), Scene(Some(1), REPLACED, claims, waiting, Holding(1), {0}));
  }

  /** The second contender replaces the stale lock by its own while the first waits. */
  lemma SecondReclaims(stretch: Stretch, claims: map<nat, Inode>, waiting: Point)
    requires (claims == map[] || claims == map[0 := 0]) && !waiting.Writing?
    requires Reachable(Scene(Some(0), LEFT, claims, waiting, Linking, {}), stretch)
    ensures Reachable(Scene(Some(1), REPLACED, claims, waiting, Holding(1), {0}), stretch)
  {
    hide Reachable;
    SecondCompares(stretch, claims, waiting);
    SecondRemoves(stretch, claims, waiting);
    SecondWrites(stretch, claims, waiting);
  }

  /** The first contender removes whatever is at the path, the second one's lock. */
  lemma FirstRemoves(stretch: Stretch, ino: Inode, disturbed: set<nat>)
    requires ino < 2 && (disturbed == {} || stretch == ReadToLink)
    requires Reachable(Scene(Some(1), REPLACED, map[0 := ino], Unlinking, Holding(1), disturbed), stretch)
    ensures Reachable(Scene(None, REPLACED, map[], Creating, Holding(1), disturbed), stretch)
  {
    hide Reachable;
    var unlinking := Scene(Some(1), REPLACED, map[0 := ino], Unlinking, Holding(1), disturbed);
    var removed := Scene(None, REPLACED, map[0 := ino], Unclaiming, Holding(1), disturbed);
    Take(stretch, unlinking, Step(0, Unlink), removed);
    assert map[0 := ino] - {0} == map[];
    Take(stretch, removed, Step(0, Unclaim), Scene(None, REPLACED, map[], Creating, Holding(1), disturbed));
  }

  lemma FirstTakesOver(stretch: Stretch, ino: Inode, disturbed: set<nat>)
    requires ino < 2 && (disturbed == {} || stretch == ReadToLink)
    requires Reachable(Scene(Some(1), REPLACED, map[0 := ino], Unlinking, Holding(1), disturbed), stretch)
    ensures exists s :: Reachable(s, stretch) && !Excludes(s)
  {
    FirstRemoves(stretch, ino, disturbed);
    hide Reachable;
    var free := Scene(None, REPLACED, map[], Creating, Holding(1), disturbed);
    var both := Scene(Some(2), REPLACED[2 := None], map[], Writing(2), Holding(1), disturbed + {1});
    assert free.contenders.Keys - {0} == {1};
    Take(stretch, free, Step(0, Create(2)), both);
    assert Owns(both, 0, 2) && Owns(both, 1, 1);
  }

  /**
   * A lock made between the owner read and the link is reclaimed as if it were the stale one: being
   * calm from comparison to unlink alone does not exclude.
   */
  lemma RaceBeforeLink()
    ensures exists s :: Reachable(s, CompareToUnlink) && !Excludes(s)
  {
    BothFindStaleLock(CompareToUnlink);
    SecondReclaims(CompareToUnlink, map[], Linking);
    hide Reachable;
    var linking := Scene(Some(1), REPLACED, map[], Linking, Holding(1), {0});
    var linked := Scene(Some(1), REPLACED, map[0 := 1], Comparing, Holding(1), {0});
    Take(CompareToUnlink, linking, Step(0, Link), linked);
    Take(CompareToUnlink, linked, Step(0, Compare), Scene(Some(1), REPLACED, map[0 := 1], Unlinking, Holding(1), {}));
    FirstTakesOver(CompareToUnlink, 1, {});
  }

  lemma FirstCompares()
    ensures Reachable(Scene(Some(0), LEFT, map[0 := 0], Unlinking, Linking, {}), ReadToLink)
  {
    BothFindStaleLock(ReadToLink);
    hide Reachable;
    var linked := Scene(Some(0), LEFT, map[0 := 0], Comparing, Linking, {});
    Take(ReadToLink, Scene(Some(0), LEFT, map[], Linking, Linking, {}), Step(0, Link), linked);
    Take(ReadToLink, linked, Step(0, Compare), Scene(Some(0), LEFT, map[0 := 0], Unlinking, Linking, {}));
  }

  /**
   * A lock made between the inode comparison and the unlink is removed with it: being calm from read
   * to link alone does not exclude either.
   */
  lemma RaceBeforeUnlink()
    ensures exists s :: Reachable(s, ReadToLink) && !Excludes(s)
  {
    FirstCompares();
    hide Reachable;
    SecondReclaims(ReadToLink, map[0 := 0], Unlinking);
    FirstTakesOver(ReadToLink, 0, {0});
  }
}
