/** Server settings on disk: only what differs from the defaults is written, and loading fills the rest in again. */
module Settings {
  import opened Optional

  /** A JSON value. */
  datatype Value =
    | Null
    | Bool(flag: bool)
    | Number(amount: real)
    | Text(text: string)
    | Arr(items: seq<Value>)
    | Obj(fields: map<string, Value>)

  /** Keys whose values are compared, kept and read as a whole. */
  const ATOMIC_KEYS: set<string> := {"automaticGitFetchInterval", "textGenerationModelSelection"}

  function Field(v: Value, key: string): Option<Value> {
    if v.Obj? && key in v.fields then Some(v.fields[key]) else None
  }

  // ---- stripping and filling ----

  /** What is left of a value without the parts its default supplies; nothing when the default supplies it all. */
  function Stripped(current: Value, defaults: Option<Value>): Option<Value>
    decreases current, 2
  {
    if current.Obj? && defaults.Some? && defaults.value.Obj? then
      var kept := Kept(current, defaults.value);
      if kept == map[] then None else Some(Obj(kept))
    else if defaults == Some(current) then None
    else Some(current)
  }

  function Kept(current: Value, defaults: Value): map<string, Value>
    requires current.Obj?
    decreases current, 1
  {
    map key | key in current.fields && StrippedField(current, defaults, key).Some? ::
      StrippedField(current, defaults, key).value
  }

  function StrippedField(current: Value, defaults: Value, key: string): Option<Value>
    requires current.Obj? && key in current.fields
    decreases current, 0
  {
    var value := current.fields[key];
    if key !in ATOMIC_KEYS then Stripped(value, Field(defaults, key))
    else if Field(defaults, key) == Some(value) then None
    else Some(value)
  }

  /** A record strips to the fields it keeps. */
  lemma StrippedRecord(current: Value, defaults: Value)
    requires current.Obj? && defaults.Obj?
    ensures var kept := Kept(current, defaults);
      && Stripped(current, Some(defaults)) == (if kept == map[] then None else Some(Obj(kept)))
      && forall key :: key in current.fields ==> StrippedField(current, defaults, key) == Field(Obj(kept), key)
  {
    var kept := Kept(current, defaults);
    forall key | key in current.fields ensures StrippedField(current, defaults, key) == Field(Obj(kept), key) {
      assert key in kept <==> StrippedField(current, defaults, key).Some?;
    }
  }

  /** The loop over the keys of a record, with a call for each value below it. */
  method StripDefaultServerSettings(current: Value, defaults: Option<Value>) returns (r: Option<Value>)
    ensures r == Stripped(current, defaults)
    decreases current
  {
    if current.Arr? || (defaults.Some? && defaults.value.Arr?) {
      return if defaults == Some(current) then None else Some(current);
    }
    if current.Obj? && defaults.Some? && defaults.value.Obj? {
      var next: map<string, Value> := map[];
      var keys := current.fields.Keys;
      while keys != {}
        invariant keys <= current.fields.Keys
        invariant next == map key | key in current.fields.Keys - keys
          && StrippedField(current, defaults.value, key).Some? ::
                            StrippedField(current, defaults.value, key).value
        decreases |keys|
      {
        var key :| key in keys;
        if key in ATOMIC_KEYS {
          if Some(current.fields[key]) != Field(defaults.value, key) {
            next := next[key := current.fields[key]];
          }
        } else {
          var stripped := StripDefaultServerSettings(current.fields[key], Field(defaults.value, key));
          if stripped.Some? {
            next := next[key := stripped.value];
          }
        }
        keys := keys - {key};
      }
      assert next == Kept(current, defaults.value);
      return if next == map[] then None else Some(Obj(next));
    }
    return if defaults == Some(current) then None else Some(current);
  }

  /** A missing key is supplied by the defaults, at every depth that is not read as a whole. */
  function Filled(file: Value, defaults: Value): Value {
    if file.Obj? && defaults.Obj? then
      Obj(map key | key in file.fields.Keys + defaults.fields.Keys ::
        if key !in file.fields then defaults.fields[key]
        else if key !in defaults.fields || key in ATOMIC_KEYS then file.fields[key]
        else Filled(file.fields[key], defaults.fields[key]))
    else file
  }

  function FilledOption(file: Option<Value>, defaults: Value): Value {
    if file.Some? then Filled(file.value, defaults) else defaults
  }

  /** Every key of the defaults is present, wherever both are records. */
  ghost predicate Covers(current: Value, defaults: Value) {
    current.Obj? && defaults.Obj? ==>
      && defaults.fields.Keys <= current.fields.Keys
      && forall key :: key in defaults.fields && key !in ATOMIC_KEYS ==>
        Covers(current.fields[key], defaults.fields[key])
  }

  /** The first is the second with some keys taken away, though never from inside a value read as a whole. */
  ghost predicate Prunes(fewer: Value, defaults: Value) {
    || fewer == defaults
    || (&& fewer.Obj? && defaults.Obj?
        && fewer.fields.Keys <= defaults.fields.Keys
        && forall key :: key in fewer.fields ==>
             if key in ATOMIC_KEYS then fewer.fields[key] == defaults.fields[key]
             else Prunes(fewer.fields[key], defaults.fields[key]))
  }

  lemma {:induction false} FilledCovered(current: Value, defaults: Value)
    requires Covers(current, defaults)
    ensures Filled(current, defaults) == current
  {
    if current.Obj? && defaults.Obj? {
      forall key | key in defaults.fields && key !in ATOMIC_KEYS
        ensures Filled(current.fields[key], defaults.fields[key]) == current.fields[key]
      {
        FilledCovered(current.fields[key], defaults.fields[key]);
      }
      assert Filled(current, defaults).fields == current.fields;
    }
  }

  /**
   * Filling the stripped tree in again gives the original, also when it was stripped by fewer defaults than it is
   * filled from.
   */
  lemma {:induction false} StripFillRoundTrip(current: Value, fewer: Value, defaults: Value)
    requires Covers(current, defaults) && Prunes(fewer, defaults)
    ensures FilledOption(Stripped(current, Some(fewer)), defaults) == current
    decreases current
  {
    if current.Obj? && fewer.Obj? {
      var file := Stripped(current, Some(fewer));
      var filled := FilledOption(file, defaults);
      StrippedRecord(current, fewer);
      forall key | key in current.fields
        ensures key in filled.fields && filled.fields[key] == current.fields[key]
      {
        if key in fewer.fields && key !in ATOMIC_KEYS {
          StripFillRoundTrip(current.fields[key], fewer.fields[key], defaults.fields[key]);
          assert StrippedField(current, fewer, key) == Stripped(current.fields[key], Some(fewer.fields[key]));
        } else if key !in ATOMIC_KEYS {
          assert StrippedField(current, fewer, key) == Stripped(current.fields[key], None) == Some(current.fields[key]);
          if key in defaults.fields {
            FilledCovered(current.fields[key], defaults.fields[key]);
          }
        }
      }
      assert filled.fields == current.fields;
    } else {
      FilledCovered(current, defaults);
    }
  }

  lemma {:induction false} DefaultsCoverThemselves(defaults: Value)
    ensures Covers(defaults, defaults)
  {
    if defaults.Obj? {
      forall key | key in defaults.fields && key !in ATOMIC_KEYS
        ensures Covers(defaults.fields[key], defaults.fields[key])
      {
        DefaultsCoverThemselves(defaults.fields[key]);
      }
    }
  }

  lemma {:induction false} FilledCovers(file: Value, defaults: Value)
    ensures Covers(Filled(file, defaults), defaults)
  {
    if file.Obj? && defaults.Obj? {
      forall key | key in defaults.fields && key !in ATOMIC_KEYS
        ensures Covers(Filled(file, defaults).fields[key], defaults.fields[key])
      {
        if key in file.fields {
          FilledCovers(file.fields[key], defaults.fields[key]);
        } else {
          DefaultsCoverThemselves(defaults.fields[key]);
        }
      }
    }
  }

  /** The round trip holds for the trees that have every key of the defaults, and for no others. */
  lemma StripFillRoundTripWhen(current: Value, fewer: Value, defaults: Value)
    requires Prunes(fewer, defaults)
    ensures FilledOption(Stripped(current, Some(fewer)), defaults) == current <==> Covers(current, defaults)
  {
    if Covers(current, defaults) {
      StripFillRoundTrip(current, fewer, defaults);
    } else {
      DefaultsCoverThemselves(defaults);
      var file := Stripped(current, Some(fewer));
      if file.Some? {
        FilledCovers(file.value, defaults);
      }
    }
  }

  /** No part of the tree repeats its default, and no record in it that its default could supply is empty. */
  ghost predicate HoldsNoDefault(file: Value, defaults: Value) {
    if file.Obj? && defaults.Obj? then
      && file.fields != map[]
      && forall key :: key in file.fields && key in defaults.fields ==>
           if key in ATOMIC_KEYS then file.fields[key] != defaults.fields[key]
           else HoldsNoDefault(file.fields[key], defaults.fields[key])
    else file != defaults
  }

  lemma {:induction false} StrippedHoldsNoDefault(current: Value, defaults: Value)
    ensures var file := Stripped(current, Some(defaults)); file.Some? ==> HoldsNoDefault(file.value, defaults)
  {
    var file := Stripped(current, Some(defaults));
    if current.Obj? && defaults.Obj? && file.Some? {
      StrippedRecord(current, defaults);
      forall key | key in file.value.fields && key in defaults.fields && key !in ATOMIC_KEYS
        ensures HoldsNoDefault(file.value.fields[key], defaults.fields[key])
      {
        StrippedHoldsNoDefault(current.fields[key], defaults.fields[key]);
      }
    }
  }

  /** The second tree has every value of the first, in the same place. */
  ghost predicate Within(part: Value, whole: Value) {
    || part == whole
    || (&& part.Obj? && whole.Obj?
        && part.fields.Keys <= whole.fields.Keys
        && forall key :: key in part.fields ==>
             if key in ATOMIC_KEYS then part.fields[key] == whole.fields[key]
             else Within(part.fields[key], whole.fields[key]))
  }

  lemma {:induction false} StrippedSelf(v: Value)
    ensures Stripped(v, Some(v)).None?
  {
    if v.Obj? {
      forall key | key in v.fields
        ensures StrippedField(v, v, key).None?
      {
        StrippedSelf(v.fields[key]);
      }
      assert Kept(v, v) == map[];
    }
  }

  /** The stripped tree is the least of all files that fill to the same settings. */
  lemma {:induction false} StrippedIsLeast(file: Value, defaults: Value)
    ensures var least := Stripped(Filled(file, defaults), Some(defaults)); least.Some? ==> Within(least.value, file)
  {
    var current := Filled(file, defaults);
    var least := Stripped(current, Some(defaults));
    if file.Obj? && defaults.Obj? && least.Some? {
      StrippedRecord(current, defaults);
      forall key | key in least.value.fields
        ensures key in file.fields
        ensures if key in ATOMIC_KEYS then least.value.fields[key] == file.fields[key]
                else Within(least.value.fields[key], file.fields[key])
      {
        assert StrippedField(current, defaults, key) == Some(least.value.fields[key]);
        if key !in file.fields {
          StrippedSelf(defaults.fields[key]);
        } else if key in defaults.fields && key !in ATOMIC_KEYS {
          StrippedIsLeast(file.fields[key], defaults.fields[key]);
        }
      }
    }
  }

  // ---- settings, as far as loading looks into them ----

  /** Providers that are off until they were used or asked for. */
  const OPTIONAL_PROVIDERS: set<string> := {"cursor", "grok", "opencode"}

  ghost predicate IsSettings(s: Value) {
    && s.Obj? && "providers" in s.fields && "providerInstances" in s.fields
    && s.fields["providers"].Obj? && s.fields["providerInstances"].Obj?
    && forall name :: name in OPTIONAL_PROVIDERS ==> Field(Provider(s, name), "enabled").Some? && Enabled(s, name).Bool?
  }

  function Provider(s: Value, name: string): Value {
    match Field(s, "providers")
    case None => Null
    case Some(providers) =>
      match Field(providers, name)
      case None => Null
      case Some(provider) => provider
  }

  function Enabled(s: Value, name: string): Value {
    match Field(Provider(s, name), "enabled")
    case None => Null
    case Some(flag) => flag
  }

  function Instances(s: Value): map<string, Value> {
    match Field(s, "providerInstances")
    case None => map[]
    case Some(instances) => if instances.Obj? then instances.fields else map[]
  }

  /** One flag of a record set. */
  function WithEnabled(record: Value, flag: Value): Value {
    if record.Obj? then Obj(record.fields["enabled" := flag]) else record
  }

  function WithInstances(s: Value, instances: map<string, Value>): Value
    requires s.Obj?
  {
    Obj(s.fields["providerInstances" := Obj(instances)])
  }

  /** A session the database remembers: the provider, and the instance if one was recorded. */
  datatype Session = Session(providerName: string, instanceId: Option<string>)

  predicate UsedProvider(history: set<Session>, name: string) {
    exists session :: session in history && session.providerName == name
  }

  predicate UsedInstance(history: set<Session>, id: string) {
    exists session :: session in history && id == session.instanceId.UnwrapOr(session.providerName)
  }

  /** An instance of an optional provider that was used and says nothing about being enabled. */
  predicate Awaits(instance: Value, id: string, history: set<Session>) {
    && Field(instance, "enabled").None?
    && Field(instance, "driver") in {Some(Text("cursor")), Some(Text("grok")), Some(Text("opencode"))}
    && UsedInstance(history, id)
  }

  function RestoredInstances(instances: map<string, Value>, history: set<Session>): map<string, Value> {
    map id | id in instances ::
      if Awaits(instances[id], id, history) then WithEnabled(instances[id], Bool(true)) else instances[id]
  }

  /** The flag the file states, else whether the provider was ever used. */
  function RestoredFlag(persisted: Value, name: string, history: set<Session>): Value {
    if Enabled(persisted, name).Bool? then Enabled(persisted, name) else Bool(UsedProvider(history, name))
  }

  function RestoreUsedProviders(s: Value, persisted: Value, history: set<Session>): Value
    requires IsSettings(s)
  {
    var providers := s.fields["providers"].fields;
    var restored := map name | name in providers ::
      if name in OPTIONAL_PROVIDERS then WithEnabled(providers[name], RestoredFlag(persisted, name, history))
      else providers[name];
    WithInstances(Obj(s.fields["providers" := Obj(restored)]), RestoredInstances(Instances(s), history))
  }

  // ---- one enabled flag per instance ----

  function FoldedInstance(instance: Value): Value {
    match Field(instance, "config")
    case None => instance
    case Some(config) =>
      match Field(config, "enabled")
      case Some(Bool(configEnabled)) =>
        var own := Field(instance, "enabled");
        var resolved :=
          if own == Some(Bool(false)) || !configEnabled then Bool(false)
          else if own.Some? then own.value
          else Bool(configEnabled);
        Obj(instance.fields["enabled" := resolved]["config" := Obj(config.fields - {"enabled"})])
      case _ => instance
  }

  function FoldedInstances(instances: map<string, Value>): map<string, Value> {
    map id | id in instances :: FoldedInstance(instances[id])
  }

  function Folded(s: Value): Value {
    if Field(s, "providerInstances").Some? && s.fields["providerInstances"].Obj?
    then WithInstances(s, FoldedInstances(Instances(s)))
    else s
  }

  /** The body of the loop below. */
  method FoldInstance(instance: Value) returns (r: Value, moved: bool)
    ensures r == FoldedInstance(instance)
    ensures !moved ==> r == instance
  {
    var config := Field(instance, "config");
    if config.None? || !config.value.Obj? || "enabled" !in config.value.fields
      || !config.value.fields["enabled"].Bool? {
      return instance, false;
    }
    var configEnabled := config.value.fields["enabled"].flag;
    var own := Field(instance, "enabled");
    var resolved :=
      if own == Some(Bool(false)) || !configEnabled then Bool(false)
      else if own.Some? then own.value
      else Bool(configEnabled);
    return Obj(instance.fields["enabled" := resolved]["config" := Obj(config.value.fields - {"enabled"})]), true;
  }

  /** The loop over the instances, which leaves the settings alone when no flag had to be moved. */
  method FoldProviderInstanceEnabledFlags(s: Value) returns (r: Value)
    requires IsSettings(s)
    ensures r == Folded(s)
  {
    hide FoldedInstance;
    var changed := false;
    var instances := s.fields["providerInstances"].fields;
    var result: map<string, Value> := map[];
    var ids := instances.Keys;
    while ids != {}
      invariant ids <= instances.Keys
      invariant result == map id | id in instances.Keys - ids :: FoldedInstance(instances[id])
      invariant !changed ==> forall id :: id in instances.Keys - ids ==> FoldedInstance(instances[id]) == instances[id]
      decreases |ids|
    {
      var id :| id in ids;
      var instance, moved := FoldInstance(instances[id]);
      changed := changed || moved;
      result := result[id := instance];
      ids := ids - {id};
    }
    assert result == FoldedInstances(instances);
    if !changed {
      assert result == instances;
      assert Folded(s).fields == s.fields;
      return s;
    }
    r := WithInstances(s, result);
  }

  /** The flag an instance states inside its configuration, if that is a record and the flag a boolean. */
  function ConfigFlag(instance: Value): Option<bool> {
    match Field(instance, "config")
    case None => None
    case Some(config) =>
      match Field(config, "enabled")
      case Some(Bool(flag)) => Some(flag)
      case _ => None
  }

  /** The new instance is the old one with one flag: off when either was off, else its own, else the other. */
  predicate FlagsAreOne(before: Value, after: Value) {
    if ConfigFlag(before).None? then after == before
    else
      && Field(after, "enabled") == (
           if Field(before, "enabled") == Some(Bool(false)) || ConfigFlag(before) == Some(false) then Some(Bool(false))
           else if Field(before, "enabled").Some? then Field(before, "enabled")
           else Some(Bool(true)))
      && Field(after, "config").Some? && before.fields["config"].Obj?
      && after.fields["config"] == Obj(before.fields["config"].fields - {"enabled"})
      && after.fields.Keys == before.fields.Keys + {"enabled"}
      && forall key :: key in before.fields && key != "enabled" && key != "config" ==>
           after.fields[key] == before.fields[key]
  }

  /** Folding makes one flag of the two in every instance, and leaves everything else alone. */
  lemma FoldedFlags(s: Value)
    requires IsSettings(s)
    ensures Instances(Folded(s)).Keys == Instances(s).Keys
    ensures forall id :: id in Instances(s) ==> FlagsAreOne(Instances(s)[id], Instances(Folded(s))[id])
    ensures Folded(s).Obj? && Folded(s).fields.Keys == s.fields.Keys
    ensures forall key :: key in s.fields && key != "providerInstances" ==> Folded(s).fields[key] == s.fields[key]
  {
    InstancesOf(s);
    hide IsSettings;
    var instances := Instances(s);
    assert Instances(Folded(s)) == FoldedInstances(instances);
    forall id | id in instances ensures FlagsAreOne(instances[id], FoldedInstances(instances)[id]) {
      InstanceFolds(instances[id]);
    }
  }

  lemma InstanceFolds(instance: Value)
    ensures FlagsAreOne(instance, FoldedInstance(instance))
  {
  }

  /** Folding twice changes nothing more. */
  lemma FoldIsIdempotent(s: Value)
    ensures Folded(Folded(s)) == Folded(s)
  {
    var once := Folded(s);
    assert FoldedInstances(FoldedInstances(Instances(s))) == FoldedInstances(Instances(s));
    if once != s {
      assert Instances(once) == FoldedInstances(Instances(s));
      assert Folded(once).fields == once.fields;
    }
  }

  // ---- writing and loading ----

  /** The defaults settings are stripped by: without the flags of the optional providers. */
  function PersistedDefaults(defaults: Value): Value
    requires IsSettings(defaults)
  {
    var providers := defaults.fields["providers"].fields;
    var unflagged := map name | name in providers ::
      if name in OPTIONAL_PROVIDERS && providers[name].Obj?
      then Obj(providers[name].fields - {"enabled"}) else providers[name];
    Obj(defaults.fields["providers" := Obj(unflagged)])
  }

  /** The contents of the settings file. */
  function Written(s: Value, defaults: Value): Value
    requires IsSettings(defaults)
  {
    match Stripped(s, Some(PersistedDefaults(defaults)))
    case None => Obj(map[])
    case Some(file) => file
  }

  /**
   * Loading. The two decoders fail independently: the settings fall back to the defaults when the file is missing or
   * either fails, the stated flags only when there is no file or their own decoder fails.
   */
  function Loaded(file: Option<Value>, flags: Option<Value>, defaults: Value, history: set<Session>): Value
    requires IsSettings(defaults)
    requires file.Some? ==> IsSettings(Filled(file.value, defaults))
  {
    var s := if file.Some? && flags.Some? then Filled(file.value, defaults) else defaults;
    var persisted := if flags.Some? then flags.value else Obj(map[]);
    Folded(RestoreUsedProviders(s, persisted, history))
  }

  lemma PersistedDefaultsPrune(defaults: Value)
    requires IsSettings(defaults)
    ensures Prunes(PersistedDefaults(defaults), defaults)
  {
    var fewer := PersistedDefaults(defaults);
    var providers := defaults.fields["providers"];
    forall name | name in providers.fields && name !in ATOMIC_KEYS
      ensures Prunes(fewer.fields["providers"].fields[name], providers.fields[name])
    {
    }
    assert Prunes(fewer.fields["providers"], providers);
  }

  /** A field that survives stripping is found in the stripped record. */
  lemma StrippedKeepsField(current: Value, defaults: Value, key: string)
    requires current.Obj? && defaults.Obj? && key in current.fields
    requires StrippedField(current, defaults, key).Some?
    ensures var file := Stripped(current, Some(defaults));
      file.Some? && Field(file.value, key) == StrippedField(current, defaults, key)
  {
    StrippedRecord(current, defaults);
  }

  /** The file states the flag of each optional provider, whatever it is. */
  lemma WrittenStatesFlags(s: Value, defaults: Value, name: string)
    requires IsSettings(s) && IsSettings(defaults) && name in OPTIONAL_PROVIDERS
    ensures Enabled(Written(s, defaults), name) == Enabled(s, name)
  {
    var fewer := PersistedDefaults(defaults);
    var fewerProviders := fewer.fields["providers"];
    assert Field(Provider(defaults, name), "enabled").Some?;
    assert Field(Provider(s, name), "enabled").Some?;
    StrippedKeepsField(Provider(s, name), fewerProviders.fields[name], "enabled");
    StrippedKeepsField(s.fields["providers"], fewerProviders, name);
    StrippedKeepsField(s, fewer, "providers");
  }

  /** The settings a file was written from are what filling it in gives. */
  lemma WrittenFills(s: Value, defaults: Value)
    requires IsSettings(s) && IsSettings(defaults) && Covers(s, defaults)
    ensures Filled(Written(s, defaults), defaults) == s
  {
    PersistedDefaultsPrune(defaults);
    StripFillRoundTrip(s, PersistedDefaults(defaults), defaults);
    if Stripped(s, Some(PersistedDefaults(defaults))).None? {
      assert Filled(Obj(map[]), defaults).fields == defaults.fields;
    }
  }

  /**
   * After a write the stated flags are the current ones, whatever the history, so restoring leaves the providers alone.
   */
  lemma RestoreAfterWrite(s: Value, defaults: Value, history: set<Session>)
    requires IsSettings(s) && IsSettings(defaults)
    ensures RestoreUsedProviders(s, Written(s, defaults), history) ==
      WithInstances(s, RestoredInstances(Instances(s), history))
  {
    hide Written, PersistedDefaults, Stripped, RestoredInstances;
    var persisted := Written(s, defaults);
    var providers := s.fields["providers"].fields;
    var restored := RestoreUsedProviders(s, persisted, history);
    forall name | name in OPTIONAL_PROVIDERS
      ensures name in providers
        && WithEnabled(providers[name], RestoredFlag(persisted, name, history)) == providers[name]
    {
      WrittenStatesFlags(s, defaults, name);
      assert Field(Provider(s, name), "enabled").Some?;
      assert providers[name].fields["enabled" := Enabled(s, name)] == providers[name].fields;
    }
    assert restored.fields["providers"].fields == providers;
    assert restored.fields == WithInstances(s, RestoredInstances(Instances(s), history)).fields;
  }

  /**
   * A reload after a write only switches on used instances that stated no flag; the flags of the providers survive
   * every history.
   */
  lemma ReloadAfterWrite(s: Value, defaults: Value, history: set<Session>)
    requires IsSettings(s) && IsSettings(defaults) && Covers(s, defaults)
    ensures IsSettings(Filled(Written(s, defaults), defaults))
    ensures var file := Some(Written(s, defaults));
      Loaded(file, file, defaults, history) == Folded(WithInstances(s, RestoredInstances(Instances(s), history)))
    ensures var file := Some(Written(s, defaults));
      forall name :: name in OPTIONAL_PROVIDERS ==>
        Enabled(Loaded(file, file, defaults, history), name) == Enabled(s, name)
  {
    hide Written, Filled, Covers, RestoreUsedProviders, RestoredInstances, FoldedInstances;
    WrittenFills(s, defaults);
    RestoreAfterWrite(s, defaults, history);
  }

  /**
   * The reload gives exactly what was written just when no used instance of an optional provider lacks a flag of its
   * own.
   */
  lemma ReloadIsIdentityWhen(s: Value, defaults: Value, history: set<Session>)
    requires IsSettings(s) && IsSettings(defaults) && Covers(s, defaults) && Folded(s) == s
    ensures IsSettings(Filled(Written(s, defaults), defaults))
    ensures var file := Some(Written(s, defaults));
      Loaded(file, file, defaults, history) == s <==>
        forall id :: id in Instances(s) ==> !Awaits(Instances(s)[id], id, history)
  {
    hide Written, Filled, Covers, RestoreUsedProviders, IsSettings, Loaded;
    assert s.Obj? && Field(s, "providerInstances").Some? && s.fields["providerInstances"].Obj? by {
      InstancesOf(s);
    }
    ReloadAfterWrite(s, defaults, history);
    var instances := Instances(s);
    var restored := RestoredInstances(instances, history);
    var loaded := Folded(WithInstances(s, restored));
    assert Instances(loaded) == FoldedInstances(restored);
    if id :| id in instances && Awaits(instances[id], id, history) {
      assert Field(FoldedInstances(restored)[id], "enabled").Some?;
      assert Instances(loaded) != instances;
    } else {
      assert restored == instances;
      assert WithInstances(s, restored).fields == s.fields;
    }
  }

  lemma InstancesOf(s: Value)
    requires IsSettings(s)
    ensures s.Obj? && Field(s, "providerInstances") == Some(Obj(Instances(s)))
  {
  }

  /** An instance as a client may post it, without a flag of its own. */
  const UNFLAGGED := Obj(map["driver" := Text("cursor")])

  lemma UnflaggedCovers(defaults: Value, instances: map<string, Value>)
    requires IsSettings(defaults) && Instances(defaults) == map[]
    ensures Covers(WithInstances(defaults, instances), defaults)
  {
    var s := WithInstances(defaults, instances);
    DefaultsCoverThemselves(defaults);
    InstancesOf(defaults);
    forall key | key in defaults.fields && key !in ATOMIC_KEYS
      ensures Covers(s.fields[key], defaults.fields[key])
    {
      if key == "providerInstances" {
        assert defaults.fields[key] == Obj(map[]);
      }
    }
  }

  lemma UnflaggedIsFolded(defaults: Value, id: string)
    requires IsSettings(defaults)
    ensures var s := WithInstances(defaults, map[id := UNFLAGGED]);
      IsSettings(s) && Instances(s) == map[id := UNFLAGGED] && Folded(s) == s
  {
    var s := WithInstances(defaults, map[id := UNFLAGGED]);
    assert FoldedInstance(UNFLAGGED) == UNFLAGGED;
    assert FoldedInstances(Instances(s)) == Instances(s);
    assert WithInstances(s, Instances(s)).fields == s.fields;
    forall name | name in OPTIONAL_PROVIDERS
      ensures Field(Provider(s, name), "enabled").Some? && Enabled(s, name).Bool?
    {
      assert Provider(s, name) == Provider(defaults, name);
    }
  }

  /** It happens: one used instance that states no flag comes back switched on, over any defaults without instances. */
  lemma UnflaggedInstanceComesBackOn(defaults: Value, id: string)
    requires IsSettings(defaults) && Instances(defaults) == map[]
    ensures var s := WithInstances(defaults, map[id := UNFLAGGED]);
      var file := Some(Written(s, defaults));
      && IsSettings(Filled(Written(s, defaults), defaults))
      && var loaded := Loaded(file, file, defaults, {Session("cursor", Some(id))});
      loaded != s && id in Instances(loaded) && Field(Instances(loaded)[id], "enabled") == Some(Bool(true))
  {
    var s, history := WithInstances(defaults, map[id := UNFLAGGED]), {Session("cursor", Some(id))};
    UnflaggedCovers(defaults, map[id := UNFLAGGED]);
    UnflaggedIsFolded(defaults, id);
    UnflaggedAwaits(id, history);
    UnflaggedIsSwitchedOn(s, id, history);
    hide *;
    ReloadAfterWrite(s, defaults, history);
    ReloadIsIdentityWhen(s, defaults, history);
  }

  lemma UnflaggedAwaits(id: string, history: set<Session>)
    requires Session("cursor", Some(id)) in history
    ensures Awaits(UNFLAGGED, id, history)
  {
  }

  lemma UnflaggedIsSwitchedOn(s: Value, id: string, history: set<Session>)
    requires s.Obj? && Instances(s) == map[id := UNFLAGGED] && Awaits(UNFLAGGED, id, history)
    ensures var restored := Folded(WithInstances(s, RestoredInstances(Instances(s), history)));
      id in Instances(restored) && Field(Instances(restored)[id], "enabled") == Some(Bool(true))
  {
    hide Awaits;
    var restored := RestoredInstances(Instances(s), history);
    assert restored[id] == WithEnabled(UNFLAGGED, Bool(true));
    assert Instances(Folded(WithInstances(s, restored))) == FoldedInstances(restored);
  }

  // ---- what a load makes of any file ----

  lemma FlagIsRestored(s: Value, persisted: Value, history: set<Session>, name: string)
    requires IsSettings(s) && name in OPTIONAL_PROVIDERS
    ensures Enabled(Folded(RestoreUsedProviders(s, persisted, history)), name) == RestoredFlag(persisted, name, history)
  {
    assert Provider(s, name).Obj?;
    var restored := RestoreUsedProviders(s, persisted, history);
    hide RestoredFlag, RestoredInstances, FoldedInstances;
    assert Provider(restored, name) == WithEnabled(Provider(s, name), RestoredFlag(persisted, name, history));
    assert Enabled(Folded(restored), name) == Enabled(restored, name);
  }

  /** The flag of a provider as the file states it, else whether a session of that provider is remembered. */
  lemma LoadedProviderFlag(file: Option<Value>, flags: Option<Value>, defaults: Value, history: set<Session>,
      name: string)
    requires IsSettings(defaults) && (file.Some? ==> IsSettings(Filled(file.value, defaults)))
    requires name in OPTIONAL_PROVIDERS
    ensures Enabled(Loaded(file, flags, defaults, history), name) ==
      if flags.Some? && Enabled(flags.value, name).Bool? then Enabled(flags.value, name)
      else Bool(exists session :: session in history && session.providerName == name)
  {
    hide Filled, IsSettings, RestoreUsedProviders, Folded;
    var s := if file.Some? && flags.Some? then Filled(file.value, defaults) else defaults;
    FlagIsRestored(s, if flags.Some? then flags.value else Obj(map[]), history, name);
  }

  /** An instance as it was stated, switched on first if it awaits that, and then with one flag. */
  lemma LoadedInstance(file: Option<Value>, flags: Option<Value>, defaults: Value, history: set<Session>, id: string)
    requires IsSettings(defaults) && (file.Some? ==> IsSettings(Filled(file.value, defaults)))
    ensures var stated := Instances(if file.Some? && flags.Some? then Filled(file.value, defaults) else defaults);
      var loaded := Instances(Loaded(file, flags, defaults, history));
      && (id in stated <==> id in loaded)
      && (id in stated ==>
        var unstated := Field(stated[id], "enabled").None?
          && Field(stated[id], "driver") in {Some(Text("cursor")), Some(Text("grok")), Some(Text("opencode"))};
        var used := exists session :: session in history && id == session.instanceId.UnwrapOr(session.providerName);
        var before := if unstated && used then Obj(stated[id].fields["enabled" := Bool(true)]) else stated[id];
        FlagsAreOne(before, loaded[id]))
  {
    var s := if file.Some? && flags.Some? then Filled(file.value, defaults) else defaults;
    var persisted := if flags.Some? then flags.value else Obj(map[]);
    var restored := RestoreUsedProviders(s, persisted, history);
    assert Instances(restored) == RestoredInstances(Instances(s), history);
    assert Instances(Folded(restored)) == FoldedInstances(Instances(restored));
    hide Filled;
    if id in Instances(s) {
      InstanceFolds(Instances(restored)[id]);
    }
  }
}
