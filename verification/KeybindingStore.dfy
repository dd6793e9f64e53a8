/** The keybindings file, the resolved rules held beside it, and the operations that change both. */
module KeybindingStore {
  import opened Optional
  import Shortcuts
  import ShortcutRoundTrip
  import WhenSyntax

  datatype Rule = Rule(key: string, command: string, condition: Option<string>)

  datatype Resolved = Resolved(command: string, shortcut: Shortcuts.Shortcut, whenAst: Option<WhenSyntax.Node>)

  /** An element of the array in the file: a rule, or something the schema refuses. */
  datatype Entry = Valid(rule: Rule) | Invalid

  /** The text of the file: a JSON array, or something else. */
  datatype Contents = Entries(entries: seq<Entry>) | NoArray

  datatype Issue = MalformedConfig | InvalidEntry(index: nat)

  datatype Config = Config(keybindings: seq<Resolved>, issues: seq<Issue>)

  const MAX_KEYBINDINGS_COUNT: nat := 256

  // ---- resolving ----

  function Compiled(rule: Rule): Option<Resolved> {
    match Shortcuts.Parsed(rule.key)
    case None => None
    case Some(shortcut) =>
      match rule.condition
      case None => Some(Resolved(rule.command, shortcut, None))
      case Some(text) =>
        match WhenSyntax.Parse(text, WhenSyntax.MAX_WHEN_EXPRESSION_DEPTH)
        case None => None
        case Some(node) => Some(Resolved(rule.command, shortcut, Some(node)))
  }

  function CompiledAll(rules: seq<Rule>): seq<Resolved> {
    if rules == [] then []
    else
      var last := Compiled(rules[|rules| - 1]);
      CompiledAll(rules[..|rules| - 1]) + if last.None? then [] else [last.value]
  }

  /** The last elements, at most n: what `slice(-n)` keeps. */
  function Last<T>(s: seq<T>, n: nat): seq<T> {
    if |s| <= n then s else s[|s| - n..]
  }

  function ResolvedConfig(rules: seq<Rule>): seq<Resolved> {
    Last(CompiledAll(rules), MAX_KEYBINDINGS_COUNT)
  }

  method CompileResolvedKeybindingsConfig(config: seq<Rule>) returns (compiled: seq<Resolved>)
    ensures compiled == ResolvedConfig(config)
  {
    compiled := [];
    for i := 0 to |config|
      invariant compiled == CompiledAll(config[..i])
    {
      var result := Compiled(config[i]);
      assert config[..i + 1][..i] == config[..i];
      if result.Some? {
        compiled := compiled + [result.value];
      }
    }
    assert config[..|config|] == config;
    compiled := Last(compiled, MAX_KEYBINDINGS_COUNT);
  }

  // ---- the defaults underneath ----

  predicate HasCommand(rules: seq<Resolved>, command: string) {
    exists k :: 0 <= k < |rules| && rules[k].command == command
  }

  function NotOverridden(defaults: seq<Resolved>, custom: seq<Resolved>): seq<Resolved> {
    if defaults == [] then []
    else (if HasCommand(custom, defaults[0].command) then [] else [defaults[0]]) + NotOverridden(defaults[1..], custom)
  }

  function MergeWithDefaults(defaults: seq<Rule>, custom: seq<Resolved>): seq<Resolved> {
    if custom == [] then ResolvedConfig(defaults)
    else Last(NotOverridden(ResolvedConfig(defaults), custom) + custom, MAX_KEYBINDINGS_COUNT)
  }

  // ---- loading ----

  predicate Usable(entry: Entry) {
    entry.Valid? && Compiled(entry.rule).Some?
  }

  /** The rules of the entries that decode and resolve, in order. */
  function Rules(entries: seq<Entry>): seq<Rule> {
    if entries == [] then []
    else Rules(entries[..|entries| - 1]) + if Usable(entries[|entries| - 1]) then [entries[|entries| - 1].rule] else []
  }

  function Issues(entries: seq<Entry>): seq<Issue> {
    if entries == [] then []
    else Issues(entries[..|entries| - 1]) + if Usable(entries[|entries| - 1]) then [] else [InvalidEntry(|entries| - 1)]
  }

  function RuntimeRules(file: Option<Contents>): seq<Rule> {
    if file.Some? && file.value.Entries? then Rules(file.value.entries) else []
  }

  function RuntimeIssues(file: Option<Contents>): seq<Issue> {
    match file
    case None => []
    case Some(NoArray) => [MalformedConfig]
    case Some(Entries(entries)) => Issues(entries)
  }

  /** What a load from disk computes. */
  function Loaded(defaults: seq<Rule>, file: Option<Contents>): Config {
    Config(MergeWithDefaults(defaults, ResolvedConfig(RuntimeRules(file))), RuntimeIssues(file))
  }

  function Written(rules: seq<Rule>): Option<Contents> {
    Some(Entries(seq(|rules|, k requires 0 <= k < |rules| => Valid(rules[k]))))
  }

  // ---- changing ----

  function Without(rules: seq<Rule>, rule: Rule): seq<Rule> {
    if rules == [] then []
    else (if rules[0] == rule then [] else [rules[0]]) + Without(rules[1..], rule)
  }

  /** The rules kept beside the new one, which comes last. */
  function Upserted(custom: seq<Rule>, rule: Rule, replaced: Option<Rule>): seq<Rule> {
    var others := match replaced case None => custom case Some(target) => Without(custom, target);
    Last(Without(others, rule) + [rule], MAX_KEYBINDINGS_COUNT)
  }

  predicate Conflicts(custom: seq<Rule>, rule: Rule) {
    exists k :: 0 <= k < |custom|
      && ShortcutRoundTrip.SameContext(custom[k].key, custom[k].condition, rule.key, rule.condition)
  }

  predicate Mentions(custom: seq<Rule>, command: string) {
    exists k :: 0 <= k < |custom| && custom[k].command == command
  }

  predicate IsMissing(custom: seq<Rule>, rule: Rule) {
    !Mentions(custom, rule.command) && !Conflicts(custom, rule)
  }

  function MissingDefaults(defaults: seq<Rule>, custom: seq<Rule>): seq<Rule> {
    if defaults == [] then []
    else MissingDefaults(defaults[..|defaults| - 1], custom)
         + if IsMissing(custom, defaults[|defaults| - 1]) then [defaults[|defaults| - 1]] else []
  }

  /** The file after a startup sync. */
  function Synced(defaults: seq<Rule>, file: Option<Contents>): Option<Contents> {
    var custom := RuntimeRules(file);
    var missing := MissingDefaults(defaults, custom);
    if file.None? then Written(defaults)
    else if RuntimeIssues(file) != [] || missing == [] then file
    else Written(Last(custom + missing, MAX_KEYBINDINGS_COUNT))
  }

  datatype State = State(file: Option<Contents>, cache: Option<Config>)

  datatype Op =
    | Upsert(rule: Rule, replaced: Option<Rule>)
    | Remove(target: Rule)
    | Snapshot
    | Sync

  function Cached(defaults: seq<Rule>, rules: seq<Rule>): Option<Config> {
    Some(Config(MergeWithDefaults(defaults, ResolvedConfig(rules)), []))
  }

  /**
   * One operation. A file that is no array stops a change; so does a list the schema finds too long, before it is
   * written.
   */
  function Apply(defaults: seq<Rule>, st: State, op: Op): State {
    var custom := RuntimeRules(st.file);
    match op
    case Upsert(rule, replaced) =>
      if st.file == Some(NoArray) then st
      else State(Written(Upserted(custom, rule, replaced)), Cached(defaults, Upserted(custom, rule, replaced)))
    case Remove(target) =>
      if st.file == Some(NoArray) || |Without(custom, target)| > MAX_KEYBINDINGS_COUNT then st
      else State(Written(Without(custom, target)), Cached(defaults, Without(custom, target)))
    case Snapshot => State(st.file, Some(st.cache.UnwrapOr(Loaded(defaults, st.file))))
    case Sync => State(Synced(defaults, st.file), None)
  }

  datatype Result = Done(keybindings: seq<Resolved>) | Failed

  class Keybindings {
    const defaults: seq<Rule>
    var file: Option<Contents>
    /** Nothing until the first read, and after each sync. */
    var cache: Option<Config>

    constructor (defaults: seq<Rule>, file: Option<Contents>)
      ensures this.defaults == defaults && this.file == file && cache == None
    {
      this.defaults, this.file, cache := defaults, file, None;
    }

    /** The lenient reader: what cannot be used becomes an issue. */
    method LoadRuntimeCustomKeybindingsConfig() returns (keybindings: seq<Rule>, issues: seq<Issue>)
      ensures keybindings == RuntimeRules(file) && issues == RuntimeIssues(file)
    {
      keybindings, issues := [], [];
      if file.None? {
        return;
      }
      if file.value.NoArray? {
        issues := [MalformedConfig];
        return;
      }
      var entries := file.value.entries;
      for index := 0 to |entries|
        invariant keybindings == Rules(entries[..index]) && issues == Issues(entries[..index])
      {
        assert entries[..index + 1][..index] == entries[..index];
        if entries[index].Invalid? || Compiled(entries[index].rule).None? {
          issues := issues + [InvalidEntry(index)];
        } else {
          keybindings := keybindings + [entries[index].rule];
        }
      }
      assert entries[..|entries|] == entries;
    }

    /** Through the cache. */
    method GetSnapshot() returns (config: Config)
      modifies this`cache
      ensures State(file, cache) == Apply(defaults, State(old(file), old(cache)), Snapshot)
      ensures cache == Some(config)
    {
      if cache.None? {
        var keybindings, issues := LoadRuntimeCustomKeybindingsConfig();
        var resolved := CompileResolvedKeybindingsConfig(keybindings);
        cache := Some(Config(MergeWithDefaults(defaults, resolved), issues));
      }
      config := cache.value;
    }

    method UpsertKeybindingRule(rule: Rule, replaced: Option<Rule>) returns (result: Result)
      modifies this
      ensures State(file, cache) == Apply(defaults, State(old(file), old(cache)), Upsert(rule, replaced))
      ensures result == if old(file) == Some(NoArray) then Failed else Done(cache.value.keybindings)
    {
      if file == Some(NoArray) {
        return Failed;
      }
      var custom, _ := LoadRuntimeCustomKeybindingsConfig();
      if replaced.Some? {
        custom := Without(custom, replaced.value);
      }
      var next := Without(custom, rule) + [rule];
      var capped := Last(next, MAX_KEYBINDINGS_COUNT);
      file := Written(capped);
      var resolved := CompileResolvedKeybindingsConfig(capped);
      var merged := MergeWithDefaults(defaults, resolved);
      cache := Some(Config(merged, []));
      result := Done(merged);
    }

    method RemoveKeybindingRule(target: Rule) returns (result: Result)
      modifies this
      ensures State(file, cache) == Apply(defaults, State(old(file), old(cache)), Remove(target))
      ensures old(file) == Some(NoArray) || |Without(RuntimeRules(old(file)), target)| > MAX_KEYBINDINGS_COUNT <==>
        result == Failed
      ensures result.Done? ==> cache.Some? && result.keybindings == cache.value.keybindings
    {
      if file == Some(NoArray) {
        return Failed;
      }
      var custom, _ := LoadRuntimeCustomKeybindingsConfig();
      var next := Without(custom, target);
      if |next| > MAX_KEYBINDINGS_COUNT {
        return Failed;
      }
      file := Written(next);
      var resolved := CompileResolvedKeybindingsConfig(next);
      var merged := MergeWithDefaults(defaults, resolved);
      cache := Some(Config(merged, []));
      result := Done(merged);
    }

    method SyncDefaultKeybindingsOnStartup()
      requires |defaults| <= MAX_KEYBINDINGS_COUNT
      modifies this
      ensures State(file, cache) == Apply(defaults, State(old(file), old(cache)), Sync)
    {
      cache := None;
      if file.None? {
        file := Written(defaults);
        return;
      }
      var custom, issues := LoadRuntimeCustomKeybindingsConfig();
      if issues != [] {
        return;
      }
      var missing: seq<Rule> := [];
      for i := 0 to |defaults|
        invariant missing == MissingDefaults(defaults[..i], custom)
      {
        assert defaults[..i + 1][..i] == defaults[..i];
        if Mentions(custom, defaults[i].command) {
          continue;
        }
        if Conflicts(custom, defaults[i]) {
          continue;
        }
        missing := missing + [defaults[i]];
      }
      assert defaults[..|defaults|] == defaults;
      if missing == [] {
        return;
      }
      file := Written(Last(custom + missing, MAX_KEYBINDINGS_COUNT));
    }
  }
}
