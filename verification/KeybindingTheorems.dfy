/** What holds of the keybindings after any sequence of changes. */
module KeybindingTheorems {
  import opened Optional
  import opened KeybindingStore
  import Shortcuts
  import ShortcutRoundTrip

  predicate AllCompile(rules: seq<Rule>) {
    forall k :: 0 <= k < |rules| ==> Compiled(rules[k]).Some?
  }

  // ---- the file and the cache ----

  lemma {:induction false} RulesCompile(entries: seq<Entry>)
    ensures AllCompile(Rules(entries))
  {
    if entries != [] {
      RulesCompile(entries[..|entries| - 1]);
    }
  }

  lemma {:induction false} WithoutFacts(rules: seq<Rule>, rule: Rule)
    ensures rule !in Without(rules, rule)
    ensures forall r :: r in Without(rules, rule) <==> r in rules && r != rule
    ensures rule !in rules ==> Without(rules, rule) == rules
    ensures |Without(rules, rule)| <= |rules|
  {
    if rules != [] {
      WithoutFacts(rules[1..], rule);
    }
  }

  lemma {:induction false} CompiledAllOfConcat(a: seq<Rule>, b: seq<Rule>)
    ensures CompiledAll(a + b) == CompiledAll(a) + CompiledAll(b)
  {
    hide Compiled;
    if b == [] {
      assert a + b == a;
    } else {
      assert (a + b)[..|a + b| - 1] == a + b[..|b| - 1];
      CompiledAllOfConcat(a, b[..|b| - 1]);
    }
  }

  lemma {:induction false} RulesOfConcat(a: seq<Entry>, b: seq<Entry>)
    ensures Rules(a + b) == Rules(a) + Rules(b)
  {
    hide Usable;
    if b == [] {
      assert a + b == a;
    } else {
      assert (a + b)[..|a + b| - 1] == a + b[..|b| - 1];
      RulesOfConcat(a, b[..|b| - 1]);
    }
  }

  /** Rules that resolve are read back from the file as they were written, without issues. */
  lemma {:induction false} WrittenReadsBack(rules: seq<Rule>)
    requires AllCompile(rules)
    ensures RuntimeRules(Written(rules)) == rules && RuntimeIssues(Written(rules)) == []
  {
    hide Compiled;
    if rules != [] {
      var init := rules[..|rules| - 1];
      WrittenReadsBack(init);
      assert Written(rules).value.entries[..|rules| - 1] == Written(init).value.entries;
      assert Usable(Written(rules).value.entries[|rules| - 1]);
    }
  }

  lemma WrittenWithOneMore(rules: seq<Rule>, rule: Rule)
    ensures Written(rules + [rule]) == Some(Entries(Written(rules).value.entries + [Valid(rule)]))
  {
    assert Written(rules + [rule]).value.entries == Written(rules).value.entries + [Valid(rule)];
  }

  /** Writing a last rule that does not resolve: it is an issue for the reader, and resolving leaves it out. */
  lemma WrittenWithUnusable(rules: seq<Rule>, rule: Rule)
    requires AllCompile(rules) && Compiled(rule).None?
    ensures RuntimeRules(Written(rules + [rule])) == rules
    ensures RuntimeIssues(Written(rules + [rule])) == [InvalidEntry(|rules|)]
    ensures CompiledAll(rules + [rule]) == CompiledAll(rules)
  {
    hide Compiled;
    WrittenReadsBack(rules);
    var before, entries := Written(rules).value.entries, Written(rules + [rule]).value.entries;
    WrittenWithOneMore(rules, rule);
    assert |before| == |rules|;
    assert entries == before + [Valid(rule)] && !Usable(Valid(rule));
    hide Written, AllCompile, Usable;
    OneEntryMore(before, Valid(rule));
    assert (rules + [rule])[..|rules|] == rules;
  }

  lemma OneEntryMore(entries: seq<Entry>, entry: Entry)
    requires !Usable(entry)
    ensures Rules(entries + [entry]) == Rules(entries)
    ensures Issues(entries + [entry]) == Issues(entries) + [InvalidEntry(|entries|)]
  {
    hide Usable;
    assert (entries + [entry])[..|entries|] == entries;
  }

  // ---- one upsert ----

  /** The others, in their order, without those equal to the new rule or to the one it replaces. */
  function Others(custom: seq<Rule>, rule: Rule, replaced: Option<Rule>): seq<Rule> {
    Without(match replaced case None => custom case Some(target) => Without(custom, target), rule)
  }

  lemma OthersFacts(custom: seq<Rule>, rule: Rule, replaced: Option<Rule>)
    ensures forall r :: r in Others(custom, rule, replaced) <==> r in custom && r != rule && Some(r) != replaced
    ensures (forall r :: r in custom ==> r != rule && Some(r) != replaced) ==> Others(custom, rule, replaced) == custom
  {
    match replaced
    case None => WithoutFacts(custom, rule);
    case Some(target) =>
      WithoutFacts(custom, target);
      WithoutFacts(Without(custom, target), rule);
  }

  /**
   * The new rule comes last and only once; what is dropped beside the replaced rule are the oldest, and only beyond the
   * cap.
   */
  lemma UpsertedShape(custom: seq<Rule>, rule: Rule, replaced: Option<Rule>)
    ensures var next := Upserted(custom, rule, replaced);
      && next == Last(Others(custom, rule, replaced), MAX_KEYBINDINGS_COUNT - 1) + [rule]
      && |next| <= MAX_KEYBINDINGS_COUNT
      && rule !in next[..|next| - 1]
      && (replaced.Some? && replaced != Some(rule) ==> replaced.value !in next)
  {
    var others := Others(custom, rule, replaced);
    OthersFacts(custom, rule, replaced);
    var kept := Last(others, MAX_KEYBINDINGS_COUNT - 1);
    assert forall r :: r in kept ==> r in others;
    assert Upserted(custom, rule, replaced) == kept + [rule];
    assert (kept + [rule])[..|kept|] == kept;
  }

  lemma LastCompiles(rules: seq<Rule>, n: nat)
    requires AllCompile(rules)
    ensures AllCompile(Last(rules, n))
  {
  }

  lemma OthersCompile(custom: seq<Rule>, rule: Rule, replaced: Option<Rule>)
    requires AllCompile(custom)
    ensures AllCompile(Others(custom, rule, replaced))
  {
    hide Compiled, Without;
    OthersFacts(custom, rule, replaced);
    forall k | 0 <= k < |Others(custom, rule, replaced)| ensures Compiled(Others(custom, rule, replaced)[k]).Some? {
      var r := Others(custom, rule, replaced)[k];
      assert r in Others(custom, rule, replaced);
      var j :| 0 <= j < |custom| && custom[j] == r;
    }
  }

  /** The rules a reader finds after an upsert. */
  lemma RulesAfterUpsert(custom: seq<Rule>, rule: Rule, replaced: Option<Rule>)
    requires AllCompile(custom)
    ensures var next := Upserted(custom, rule, replaced);
      && RuntimeRules(Written(next)) ==
        (if Compiled(rule).Some? then next else Last(Others(custom, rule, replaced), MAX_KEYBINDINGS_COUNT - 1))
      && ResolvedConfig(RuntimeRules(Written(next))) == ResolvedConfig(next)
      && (RuntimeIssues(Written(next)) == [] <==> Compiled(rule).Some?)
  {
    hide Compiled, Without, CompiledAll, Rules, Issues, Others;
    var kept := Last(Others(custom, rule, replaced), MAX_KEYBINDINGS_COUNT - 1);
    UpsertedShape(custom, rule, replaced);
    OthersCompile(custom, rule, replaced);
    LastCompiles(Others(custom, rule, replaced), MAX_KEYBINDINGS_COUNT - 1);
    if Compiled(rule).Some? {
      assert AllCompile(kept + [rule]);
      WrittenReadsBack(kept + [rule]);
    } else {
      WrittenWithUnusable(kept, rule);
    }
  }

  /** The same upsert again leaves the file as it is, also when the rule does not resolve. */
  lemma UpsertIsIdempotent(custom: seq<Rule>, rule: Rule, replaced: Option<Rule>)
    requires AllCompile(custom)
    ensures var next := Upserted(custom, rule, replaced);
      Upserted(RuntimeRules(Written(next)), rule, replaced) == next
  {
    hide Compiled;
    var others := Others(custom, rule, replaced);
    var kept := Last(others, MAX_KEYBINDINGS_COUNT - 1);
    var next := Upserted(custom, rule, replaced);
    RulesAfterUpsert(custom, rule, replaced);
    UpsertedShape(custom, rule, replaced);
    OthersFacts(custom, rule, replaced);
    assert forall r :: r in kept ==> r in others;
    OthersFacts(kept, rule, replaced);
    OthersSkipsLast(kept, rule, replaced);
    UpsertedShape(kept, rule, replaced);
    UpsertedShape(kept + [rule], rule, replaced);
  }

  lemma {:induction false} WithoutOfConcat(a: seq<Rule>, b: seq<Rule>, rule: Rule)
    ensures Without(a + b, rule) == Without(a, rule) + Without(b, rule)
  {
    if a == [] {
      assert a + b == b;
    } else {
      assert (a + b)[1..] == a[1..] + b;
      WithoutOfConcat(a[1..], b, rule);
    }
  }

  lemma OthersSkipsLast(rules: seq<Rule>, rule: Rule, replaced: Option<Rule>)
    ensures Others(rules + [rule], rule, replaced) == Others(rules, rule, replaced)
  {
    match replaced
    case None => WithoutOfConcat(rules, [rule], rule);
    case Some(target) =>
      WithoutOfConcat(rules, [rule], target);
      WithoutOfConcat(Without(rules, target), Without([rule], target), rule);
  }

  /** Removing a rule that was upserted leaves the others, of which only the oldest beyond the cap are lost. */
  lemma RemoveUndoesUpsert(custom: seq<Rule>, rule: Rule)
    requires AllCompile(custom) && rule !in custom
    ensures Without(RuntimeRules(Written(Upserted(custom, rule, None))), rule) ==
      Last(custom, MAX_KEYBINDINGS_COUNT - 1)
  {
    hide Compiled;
    var kept := Last(custom, MAX_KEYBINDINGS_COUNT - 1);
    OthersFacts(custom, rule, None);
    RulesAfterUpsert(custom, rule, None);
    UpsertedShape(custom, rule, None);
    WithoutFacts(kept, rule);
    OthersSkipsLast(kept, rule, None);
  }

  // ---- any sequence of changes ----

  /** The cached rules are those a reload would give, and there are never more than allowed. */
  ghost predicate Agrees(defaults: seq<Rule>, st: State) {
    st.cache.Some? ==>
      && st.cache.value.keybindings == Loaded(defaults, st.file).keybindings
      && |st.cache.value.keybindings| <= MAX_KEYBINDINGS_COUNT
  }

  /** The whole cached state is what a reload would give. */
  ghost predicate Exact(defaults: seq<Rule>, st: State) {
    Agrees(defaults, st) && (st.cache.Some? ==> st.cache.value == Loaded(defaults, st.file))
  }

  lemma RuntimeRulesCompile(file: Option<Contents>)
    ensures AllCompile(RuntimeRules(file))
  {
    if file.Some? && file.value.Entries? {
      RulesCompile(file.value.entries);
    }
  }

  lemma RemovedReadsBack(custom: seq<Rule>, target: Rule)
    requires AllCompile(custom)
    ensures RuntimeRules(Written(Without(custom, target))) == Without(custom, target)
    ensures RuntimeIssues(Written(Without(custom, target))) == []
  {
    hide Without;
    assert Others(custom, target, None) == Without(custom, target);
    OthersCompile(custom, target, None);
    WrittenReadsBack(Without(custom, target));
  }

  /**
   * Each operation keeps the cached rules right, and the cached issues unless it writes a rule that does not resolve.
   */
  lemma ApplyKeeps(defaults: seq<Rule>, st: State, op: Op)
    requires Agrees(defaults, st)
    ensures Agrees(defaults, Apply(defaults, st, op))
    ensures Exact(defaults, st) && (op.Upsert? ==> Compiled(op.rule).Some?) ==> Exact(defaults, Apply(defaults, st, op))
  {
    hide Compiled, CompiledAll, Without, Upserted, NotOverridden, Rules, Issues, MissingDefaults;
    var custom := RuntimeRules(st.file);
    RuntimeRulesCompile(st.file);
    if op.Upsert? {
      RulesAfterUpsert(custom, op.rule, op.replaced);
    } else if op.Remove? {
      RemovedReadsBack(custom, op.target);
    }
  }

  function ApplyAll(defaults: seq<Rule>, st: State, ops: seq<Op>): State {
    if ops == [] then st else Apply(defaults, ApplyAll(defaults, st, ops[..|ops| - 1]), ops[|ops| - 1])
  }

  /** An upserted rule that does not resolve is the one way to part them: the cache reports no issue, a reload does. */
  lemma UnusableUpsertHidesIssue(defaults: seq<Rule>, st: State, rule: Rule, replaced: Option<Rule>)
    requires st.file != Some(NoArray)
    ensures Exact(defaults, Apply(defaults, st, Upsert(rule, replaced))) <==> Compiled(rule).Some?
  {
    hide Compiled, CompiledAll, Without, Upserted, NotOverridden, Rules, Issues;
    RuntimeRulesCompile(st.file);
    RulesAfterUpsert(RuntimeRules(st.file), rule, replaced);
  }

  /** The last operation, reads not counted, was the upsert of a rule that does not resolve. */
  predicate EndsUnusable(ops: seq<Op>) {
    if ops == [] then false
    else
      var last := ops[|ops| - 1];
      if last.Snapshot? then EndsUnusable(ops[..|ops| - 1]) else last.Upsert? && Compiled(last.rule).None?
  }

  /** What is known of a state by the operations that led to it. */
  ghost predicate Tracks(defaults: seq<Rule>, file: Option<Contents>, ops: seq<Op>, st: State) {
    && (file == Some(NoArray) <==> st.file == Some(NoArray))
    && (Exact(defaults, st) <==> file == Some(NoArray) || !EndsUnusable(ops))
    && (file != Some(NoArray) && EndsUnusable(ops) ==> |RuntimeRules(st.file)| <= MAX_KEYBINDINGS_COUNT)
  }

  lemma ReadsChangeNothing(defaults: seq<Rule>, st: State)
    requires Agrees(defaults, st)
    ensures var next := Apply(defaults, st, Snapshot);
      next.file == st.file && (Exact(defaults, next) <==> Exact(defaults, st))
  {
    ApplyKeeps(defaults, st, Snapshot);
    hide Loaded;
  }

  /** An unusable file that is no array stays as it is, and so does a cache that reports it. */
  lemma NoArrayStays(defaults: seq<Rule>, st: State, op: Op)
    requires Agrees(defaults, st) && Exact(defaults, st) && st.file == Some(NoArray)
    ensures var next := Apply(defaults, st, op); next.file == st.file && Exact(defaults, next)
  {
    ApplyKeeps(defaults, st, op);
    hide Loaded, Exact;
    if op.Upsert? {
      assert Apply(defaults, st, op) == st;
    }
  }

  lemma UpsertTracks(defaults: seq<Rule>, st: State, rule: Rule, replaced: Option<Rule>)
    requires st.file != Some(NoArray)
    ensures var next := Apply(defaults, st, Upsert(rule, replaced));
      && next.file != Some(NoArray) && |RuntimeRules(next.file)| <= MAX_KEYBINDINGS_COUNT
      && (Exact(defaults, next) <==> Compiled(rule).Some?)
  {
    UnusableUpsertHidesIssue(defaults, st, rule, replaced);
    RuntimeRulesCompile(st.file);
    var custom := RuntimeRules(st.file);
    var next := Apply(defaults, st, Upsert(rule, replaced));
    assert next.file == Written(Upserted(custom, rule, replaced)) && Written([rule]) != Some(NoArray);
    hide *;
    UpsertedIsShort(custom, rule, replaced);
    WrittenIsArray(Upserted(custom, rule, replaced));
  }

  lemma WrittenIsArray(rules: seq<Rule>)
    ensures Written(rules).Some? && Written(rules) != Some(NoArray)
  {
  }

  lemma UpsertedIsShort(custom: seq<Rule>, rule: Rule, replaced: Option<Rule>)
    requires AllCompile(custom)
    ensures |RuntimeRules(Written(Upserted(custom, rule, replaced)))| <= MAX_KEYBINDINGS_COUNT
  {
    RulesAfterUpsert(custom, rule, replaced);
    hide Compiled, Others, RuntimeRules, Written;
  }

  lemma WithoutIsShorter(rules: seq<Rule>, rule: Rule)
    ensures |Without(rules, rule)| <= |rules|
  {
  }

  /** A removal that goes through leaves nothing unusable in the file. */
  lemma RemoveTracks(defaults: seq<Rule>, st: State, target: Rule)
    requires Agrees(defaults, st) && st.file != Some(NoArray)
    requires Exact(defaults, st) || |RuntimeRules(st.file)| <= MAX_KEYBINDINGS_COUNT
    ensures var next := Apply(defaults, st, Remove(target));
      next.file != Some(NoArray) && Exact(defaults, next)
  {
    var custom := RuntimeRules(st.file);
    ApplyKeeps(defaults, st, Remove(target));
    RuntimeRulesCompile(st.file);
    RemovedReadsBack(custom, target);
    WithoutIsShorter(custom, target);
    hide Compiled, Without, Rules, Issues, MergeWithDefaults, ResolvedConfig;
  }

  lemma SyncTracks(defaults: seq<Rule>, st: State)
    ensures var next := Apply(defaults, st, Sync);
      (next.file == Some(NoArray) <==> st.file == Some(NoArray)) && Exact(defaults, next)
  {
    hide MissingDefaults;
  }

  /**
   * After any operations the cached rules are what a reload would compute. The whole cached state is, too, if and only
   * if the file was no array, or the last operation did not upsert a rule that does not resolve.
   */
  lemma {:induction false} RunsAgree(defaults: seq<Rule>, file: Option<Contents>, ops: seq<Op>)
    ensures var st := ApplyAll(defaults, State(file, None), ops);
      && Agrees(defaults, st)
      && (Exact(defaults, st) <==> file == Some(NoArray) || !EndsUnusable(ops))
      && Tracks(defaults, file, ops, st)
  {
    hide Compiled, Apply, Loaded, Exact, Agrees, RuntimeRules;
    if ops == [] {
      FreshIsExact(defaults, file);
    } else {
      var init, op := ops[..|ops| - 1], ops[|ops| - 1];
      RunsAgree(defaults, file, init);
      var st := ApplyAll(defaults, State(file, None), init);
      ApplyKeeps(defaults, st, op);
      if op.Snapshot? {
        ReadsChangeNothing(defaults, st);
      } else if file == Some(NoArray) {
        NoArrayStays(defaults, st, op);
      } else {
        match op
        case Upsert(rule, replaced) => UpsertTracks(defaults, st, rule, replaced);
        case Remove(target) => RemoveTracks(defaults, st, target);
        case Sync => SyncTracks(defaults, st);
      }
    }
  }

  lemma FreshIsExact(defaults: seq<Rule>, file: Option<Contents>)
    ensures Agrees(defaults, State(file, None)) && Exact(defaults, State(file, None))
  {
  }

  /** The upserted rule takes precedence: it is the last of the resolved rules. */
  lemma UpsertedTakesPrecedence(defaults: seq<Rule>, st: State, rule: Rule, replaced: Option<Rule>)
    requires st.file != Some(NoArray) && Compiled(rule).Some?
    ensures var resolved := Apply(defaults, st, Upsert(rule, replaced)).cache.value.keybindings;
      resolved != [] && resolved[|resolved| - 1] == Compiled(rule).value
  {
    hide Compiled, Without, Others, CompiledAll, Rules, NotOverridden;
    var custom := RuntimeRules(st.file);
    var kept := Last(Others(custom, rule, replaced), MAX_KEYBINDINGS_COUNT - 1);
    UpsertedShape(custom, rule, replaced);
    CompiledAllOfConcat(kept, [rule]);
    CompiledAllOfOne(rule);
    var compiled := CompiledAll(kept) + [Compiled(rule).value];
    assert ResolvedConfig(kept + [rule]) == Last(compiled, MAX_KEYBINDINGS_COUNT);
  }

  lemma CompiledAllOfOne(rule: Rule)
    requires Compiled(rule).Some?
    ensures CompiledAll([rule]) == [Compiled(rule).value]
  {
    hide Compiled;
    assert [rule][..0] == [];
  }

  lemma {:induction false} NotOverriddenFacts(defaults: seq<Resolved>, custom: seq<Resolved>)
    ensures forall r :: r in NotOverridden(defaults, custom) <==> r in defaults && !HasCommand(custom, r.command)
    ensures |NotOverridden(defaults, custom)| <= |defaults|
  {
    hide HasCommand;
    if defaults != [] {
      NotOverriddenFacts(defaults[1..], custom);
    }
  }

  /**
   * Merging keeps every custom rule, last and in order; before them stand, in their order, exactly the defaults for
   * other commands, or as many of the last of those as the cap leaves room for. A command with a custom rule has no
   * default rule any more.
   */
  lemma MergedShape(defaults: seq<Rule>, rules: seq<Rule>)
    ensures var custom, merged := ResolvedConfig(rules), MergeWithDefaults(defaults, ResolvedConfig(rules));
      && |custom| <= |merged| <= MAX_KEYBINDINGS_COUNT
      && merged[|merged| - |custom|..] == custom
      && EndsWith(NotOverridden(ResolvedConfig(defaults), custom), merged[..|merged| - |custom|])
      && (|merged| == MAX_KEYBINDINGS_COUNT || merged == NotOverridden(ResolvedConfig(defaults), custom) + custom)
      && (forall k :: 0 <= k < |merged| - |custom| ==>
        merged[k] in ResolvedConfig(defaults) && forall c :: c in custom ==> c.command != merged[k].command)
      && (|merged| < MAX_KEYBINDINGS_COUNT ==>
            forall r :: r in ResolvedConfig(defaults) && (forall c :: c in custom ==> c.command != r.command) ==>
              r in merged[..|merged| - |custom|])
  {
    hide CompiledAll, HasCommand, NotOverridden;
    var custom := ResolvedConfig(rules);
    HasCommandMeans(custom);
    var others := NotOverridden(ResolvedConfig(defaults), custom);
    NotOverriddenFacts(ResolvedConfig(defaults), custom);
    NothingOverridden(ResolvedConfig(defaults));
    var merged := MergeWithDefaults(defaults, custom);
    var n := |merged| - |custom|;
    assert merged == others[|others| - n..] + custom;
    assert merged[..n] == others[|others| - n..];
    forall k | 0 <= k < n ensures merged[k] in ResolvedConfig(defaults) && !HasCommand(custom, merged[k].command) {
      assert merged[k] == others[|others| - n + k];
      assert merged[k] in others;
    }
    if |merged| < MAX_KEYBINDINGS_COUNT {
      assert merged[..n] == others;
    }
  }

  lemma HasCommandMeans(rules: seq<Resolved>)
    ensures forall command :: HasCommand(rules, command) <==> exists r :: r in rules && r.command == command
  {
    forall command, r | r in rules && r.command == command ensures HasCommand(rules, command) {
      var k :| 0 <= k < |rules| && rules[k] == r;
    }
  }

  lemma {:induction false} NothingOverridden(defaults: seq<Resolved>)
    ensures NotOverridden(defaults, []) == defaults
  {
    if defaults != [] {
      NothingOverridden(defaults[1..]);
    }
  }

  predicate EndsWith<T(==)>(xs: seq<T>, tail: seq<T>) {
    |tail| <= |xs| && xs[|xs| - |tail|..] == tail
  }

  // ---- startup sync ----

  lemma {:induction false} MissingFacts(defaults: seq<Rule>, custom: seq<Rule>)
    ensures forall r :: r in MissingDefaults(defaults, custom) <==> r in defaults && IsMissing(custom, r)
  {
    hide IsMissing;
    if defaults != [] {
      MissingFacts(defaults[..|defaults| - 1], custom);
    }
  }

  lemma IssueFreeLast(entries: seq<Entry>)
    requires Issues(entries) == [] && entries != []
    ensures var init, last := entries[..|entries| - 1], entries[|entries| - 1];
      Issues(init) == [] && last.Valid? && last == Valid(last.rule) && Rules(entries) == Rules(init) + [last.rule]
  {
    hide Compiled;
  }

  lemma NothingReadsBack()
    ensures Written(Rules([])) == Some(Entries([]))
  {
    assert Written([]).value.entries == [];
  }

  lemma {:induction false} IssueFreeReadsBack(entries: seq<Entry>)
    requires Issues(entries) == []
    ensures Written(Rules(entries)) == Some(Entries(entries))
  {
    hide Usable, Written, Issues, Rules, Compiled;
    if entries == [] {
      NothingReadsBack();
    } else {
      var init, last := entries[..|entries| - 1], entries[|entries| - 1];
      IssueFreeLast(entries);
      IssueFreeReadsBack(init);
      WrittenWithOneMore(Rules(init), last.rule);
      assert Written(Rules(init)).value.entries == init;
      assert entries == init + [last];
    }
  }

  /** More rules at the end mention and conflict with at least as much. */
  lemma MissingShrinks(custom: seq<Rule>, more: seq<Rule>, rule: Rule)
    requires IsMissing(custom + more, rule)
    ensures IsMissing(custom, rule) && rule !in more
  {
    var all := custom + more;
    forall k | 0 <= k < |more| ensures more[k].command != rule.command {
      assert all[|custom| + k] == more[k];
    }
    forall k | 0 <= k < |custom| ensures custom[k] == all[k] {
    }
  }

  lemma SameWritten(a: seq<Rule>, b: seq<Rule>)
    requires Written(a) == Written(b)
    ensures a == b
  {
    var x, y := Written(a).value.entries, Written(b).value.entries;
    assert |a| == |x| == |y| == |b|;
    forall k | 0 <= k < |a| ensures a[k] == b[k] {
      assert x[k] == Valid(a[k]) && y[k] == Valid(b[k]);
    }
  }

  /** What was written has no issues just when every rule resolves, and is then read back as it was. */
  lemma WrittenIssues(rules: seq<Rule>)
    ensures RuntimeIssues(Written(rules)) == [] <==> AllCompile(rules)
    ensures AllCompile(rules) ==> RuntimeRules(Written(rules)) == rules
  {
    if AllCompile(rules) {
      WrittenReadsBack(rules);
    } else if RuntimeIssues(Written(rules)) == [] {
      var entries := Written(rules).value.entries;
      IssueFreeReadsBack(entries);
      SameWritten(Rules(entries), rules);
      RulesCompile(entries);
    }
  }

  /** The file a sync writes leaves no default missing, as long as all rules are kept. */
  lemma NoneMissingFrom(defaults: seq<Rule>, rules: seq<Rule>)
    requires forall d :: d in defaults ==> !IsMissing(rules, d)
    ensures MissingDefaults(defaults, rules) == []
  {
    hide IsMissing;
    MissingFacts(defaults, rules);
    if MissingDefaults(defaults, rules) != [] {
      assert MissingDefaults(defaults, rules)[0] in MissingDefaults(defaults, rules);
    }
  }

  /** Without a file the first sync leaves one that reads as the defaults. */
  lemma SyncWritesDefaults(defaults: seq<Rule>)
    requires AllCompile(defaults)
    ensures RuntimeRules(Synced(defaults, None)) == defaults && RuntimeIssues(Synced(defaults, None)) == []
  {
    WrittenIssues(defaults);
  }

  /** A file with issues is left alone. */
  lemma SyncSparesIssues(defaults: seq<Rule>, file: Option<Contents>)
    requires RuntimeIssues(file) != []
    ensures Synced(defaults, file) == file
  {
  }

  /**
   * Otherwise the file keeps its rules, in order and first, and after them come exactly the defaults whose command it
   * does not mention and whose shortcut context it does not use; no default is missing afterwards.
   */
  lemma SyncAddsMissing(defaults: seq<Rule>, file: Option<Contents>)
    requires file.Some? && RuntimeIssues(file) == [] && AllCompile(defaults)
    requires |RuntimeRules(file)| + |defaults| <= MAX_KEYBINDINGS_COUNT
    ensures var custom, synced := RuntimeRules(file), RuntimeRules(Synced(defaults, file));
      && custom <= synced
      && (forall r :: r in synced[|custom|..] <==>
           r in defaults && forall k :: 0 <= k < |custom| ==> Apart(custom[k], r))
      && (forall d :: d in defaults ==> exists r :: r in synced && !Apart(r, d))
  {
    hide Compiled, IsMissing, Rules, Issues, Apart;
    var custom, missing := RuntimeRules(file), MissingDefaults(defaults, RuntimeRules(file));
    MissingFacts(defaults, custom);
    MissingAreFewer(defaults, custom);
    RuntimeRulesCompile(file);
    var synced := custom + missing;
    forall k | 0 <= k < |missing| ensures Compiled(missing[k]).Some? {
      assert missing[k] in missing;
      var j :| 0 <= j < |defaults| && defaults[j] == missing[k];
    }
    WrittenIssues(synced);
    if missing == [] {
      assert synced == custom;
    }
    assert RuntimeRules(Synced(defaults, file)) == synced && synced[|custom|..] == missing;
    forall r ensures IsMissing(custom, r) <==> forall k :: 0 <= k < |custom| ==> Apart(custom[k], r) {
      MissingMeansApart(custom, r);
    }
    forall d | d in defaults ensures exists r :: r in synced && !Apart(r, d) {
      if d in missing {
        NothingIsApartFromItself(d);
        assert d in synced;
      } else {
        var k :| 0 <= k < |custom| && !Apart(custom[k], d);
        assert custom[k] in synced;
      }
    }
  }

  lemma NothingIsApartFromItself(r: Rule)
    ensures !Apart(r, r)
  {
  }

  lemma {:induction false} MissingAreFewer(defaults: seq<Rule>, custom: seq<Rule>)
    ensures |MissingDefaults(defaults, custom)| <= |defaults|
  {
    hide IsMissing;
    if defaults != [] {
      MissingAreFewer(defaults[..|defaults| - 1], custom);
    }
  }

  /** The rules a sync has to write, when it has any to add. */
  function ToWrite(defaults: seq<Rule>, file: Option<Contents>): seq<Rule> {
    Last(RuntimeRules(file) + MissingDefaults(defaults, RuntimeRules(file)), MAX_KEYBINDINGS_COUNT)
  }

  /**
   * Writing the missing defaults makes another one missing: all rules kept resolve, and for some default
   * none of them has its command or its shortcut in the same context.
   */
  ghost predicate LosesDefault(defaults: seq<Rule>, file: Option<Contents>) {
    && file.Some? && RuntimeIssues(file) == [] && MissingDefaults(defaults, RuntimeRules(file)) != []
    && AllCompile(ToWrite(defaults, file))
    && exists d :: d in defaults && IsMissing(ToWrite(defaults, file), d)
  }

  lemma SyncOfOwnDefaults(defaults: seq<Rule>)
    ensures Synced(defaults, Written(defaults)) == Written(defaults)
  {
    hide Compiled, IsMissing, Rules, Issues;
    WrittenIssues(defaults);
    if AllCompile(defaults) {
      forall d | d in defaults ensures !IsMissing(defaults, d) {
        if IsMissing(defaults, d) {
          assert defaults == [] + defaults;
          MissingShrinks([], defaults, d);
        }
      }
      NoneMissingFrom(defaults, defaults);
    }
  }

  /** Rules that end in one that was missing are not the rules it was missing from. */
  lemma AddingChanges(defaults: seq<Rule>, rules: seq<Rule>, missing: seq<Rule>)
    requires missing == MissingDefaults(defaults, rules) != [] && rules != []
    ensures Written(Last(rules + missing, MAX_KEYBINDINGS_COUNT)) != Written(rules)
  {
    hide IsMissing, Written;
    MissingFacts(defaults, rules);
    var last, more := missing[|missing| - 1], Last(rules + missing, MAX_KEYBINDINGS_COUNT);
    assert more[|more| - 1] == last && last in missing;
    MissingIsNotAmong(rules, last);
    assert last in more;
    if Written(more) == Written(rules) {
      SameWritten(more, rules);
    }
  }

  lemma MissingIsNotAmong(rules: seq<Rule>, rule: Rule)
    requires IsMissing(rules, rule)
    ensures rule !in rules
  {
    assert rules == [] + rules;
    MissingShrinks([], rules, rule);
  }

  /** A second sync in a row changes the file again if and only if the first one lost a default. */
  lemma SyncRepeatsWhen(defaults: seq<Rule>, file: Option<Contents>)
    ensures Synced(defaults, Synced(defaults, file)) != Synced(defaults, file) <==> LosesDefault(defaults, file)
  {
    hide Compiled, IsMissing, Rules, Issues, MissingDefaults, AllCompile;
    var custom, kept := RuntimeRules(file), ToWrite(defaults, file);
    if file.None? {
      SyncOfOwnDefaults(defaults);
    } else if RuntimeIssues(file) == [] && MissingDefaults(defaults, custom) != [] {
      assert Synced(defaults, file) == Written(kept) && kept != [];
      WrittenIssues(kept);
      if AllCompile(kept) {
        if d :| d in defaults && IsMissing(kept, d) {
          MissingFacts(defaults, kept);
          AddingChanges(defaults, kept, MissingDefaults(defaults, kept));
        } else {
          NoneMissingFrom(defaults, kept);
        }
      }
    }
  }

  /** Nothing is lost unless something had to be dropped. */
  lemma SyncIsIdempotent(defaults: seq<Rule>, file: Option<Contents>)
    requires |RuntimeRules(file)| + |MissingDefaults(defaults, RuntimeRules(file))| <= MAX_KEYBINDINGS_COUNT
      || file.None?
    ensures Synced(defaults, Synced(defaults, file)) == Synced(defaults, file)
  {
    hide Compiled, IsMissing, Conflicts, Mentions, Rules, Issues, Synced;
    SyncRepeatsWhen(defaults, file);
    var custom, missing := RuntimeRules(file), MissingDefaults(defaults, RuntimeRules(file));
    if LosesDefault(defaults, file) {
      var d :| d in defaults && IsMissing(custom + missing, d);
      MissingShrinks(custom, missing, d);
      MissingFacts(defaults, custom);
      assert false;
    }
  }

  /** Neither the command nor the shortcut context in common. */
  predicate Apart(r: Rule, other: Rule) {
    r.command != other.command && !ShortcutRoundTrip.SameContext(r.key, r.condition, other.key, other.condition)
  }

  lemma MissingMeansApart(rules: seq<Rule>, rule: Rule)
    ensures IsMissing(rules, rule) <==> forall k :: 0 <= k < |rules| ==> Apart(rules[k], rule)
  {
    hide ShortcutRoundTrip.SameContext;
  }

  lemma ApartFlips(r: Rule, other: Rule)
    ensures Apart(r, other) <==> Apart(other, r)
  {
    hide ShortcutRoundTrip.Context;
  }

  /** When the oldest rule goes to make room for defaults that have nothing in common with it, it is missed. */
  lemma OldestIsMissed(custom: seq<Rule>, missing: seq<Rule>)
    requires missing != [] && |custom| == MAX_KEYBINDINGS_COUNT
    requires forall k :: 0 < k < |custom| ==> Apart(custom[k], custom[0])
    requires forall k :: 0 <= k < |missing| ==> IsMissing(custom, missing[k])
    ensures IsMissing(Last(custom + missing, MAX_KEYBINDINGS_COUNT), custom[0])
  {
    hide Apart, IsMissing;
    var all := custom + missing;
    var kept, cut := Last(all, MAX_KEYBINDINGS_COUNT), |all| - MAX_KEYBINDINGS_COUNT;
    forall k | 0 <= k < |kept| ensures Apart(kept[k], custom[0]) {
      assert kept[k] == all[cut + k];
      if cut + k >= |custom| {
        MissingMeansApart(custom, missing[cut + k - |custom|]);
        ApartFlips(kept[k], custom[0]);
      }
    }
    MissingMeansApart(kept, custom[0]);
  }

  /**
   * It happens, for every list of defaults: when a full list of rules begins with a default that has nothing in common
   * with the rest, and a default is missing, the first sync drops that rule and the second one adds it again.
   */
  lemma TruncatedSyncRepeats(defaults: seq<Rule>, custom: seq<Rule>)
    requires |custom| == MAX_KEYBINDINGS_COUNT && AllCompile(custom)
    requires custom[0] in defaults && forall k :: 0 < k < |custom| ==> Apart(custom[k], custom[0])
    requires MissingDefaults(defaults, custom) != [] && AllCompile(MissingDefaults(defaults, custom))
    ensures var once := Synced(defaults, Written(custom));
      Synced(defaults, once) != once
  {
    hide Compiled, IsMissing, Synced, Written, Apart;
    var missing := MissingDefaults(defaults, custom);
    MissingFacts(defaults, custom);
    hide MissingDefaults;
    WrittenIssues(custom);
    OldestIsMissed(custom, missing);
    WrittenIsArray(custom);
    assert AllCompile(ToWrite(defaults, Written(custom)));
    assert LosesDefault(defaults, Written(custom));
    SyncRepeatsWhen(defaults, Written(custom));
  }

  /** One rule, and the rest of a full list filled up with another. */
  function FullList(first: Rule, filler: Rule): seq<Rule> {
    [first] + seq(MAX_KEYBINDINGS_COUNT - 1, _ => filler)
  }

  /** Any three defaults with nothing in common make up such a list. */
  lemma FullListRepeats(defaults: seq<Rule>, first: Rule, filler: Rule, other: Rule)
    requires AllCompile(defaults) && first in defaults && filler in defaults && other in defaults
    requires Apart(filler, first) && Apart(first, other) && Apart(filler, other)
    ensures var once := Synced(defaults, Written(FullList(first, filler)));
      Synced(defaults, once) != once
  {
    hide Compiled, IsMissing, Synced, Written, Apart;
    var custom := FullList(first, filler);
    assert custom[0] == first && forall k :: 0 < k < |custom| ==> custom[k] == filler;
    MissingFacts(defaults, custom);
    MissingMeansApart(custom, other);
    var missing := MissingDefaults(defaults, custom);
    assert other in missing;
    forall k | 0 <= k < |missing| ensures Compiled(missing[k]).Some? {
      assert missing[k] in missing;
      var j :| 0 <= j < |defaults| && defaults[j] == missing[k];
    }
    TruncatedSyncRepeats(defaults, custom);
  }
}
