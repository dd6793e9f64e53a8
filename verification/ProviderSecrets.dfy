/** Sensitive environment variables: the settings hold a marker, the secret store the value. */
module ProviderSecrets {
  import opened Optional
  import opened SecretNames

  type InstanceId = s: string | IsSlug(s) witness "a"

  type VariableName = s: string | IsVariableName(s) witness "a"

  /** A missing `valueRedacted` and a false one mean the same. */
  datatype Variable = Variable(name: VariableName, value: string, sensitive: bool, redacted: bool)

  /** A provider instance, as far as its environment goes; no environment is an empty one. */
  datatype Instance = Instance(id: InstanceId, environment: seq<Variable>)

  /** The instances in the order of the record. */
  type Settings = seq<Instance>

  type Secrets = map<string, string>

  // ---- the variables of all instances, in order ----

  datatype Slot = Slot(id: InstanceId, variable: Variable)

  function Key(slot: Slot): string {
    SecretName(slot.id, slot.variable.name)
  }

  function InstanceSlots(instance: Instance): seq<Slot> {
    seq(|instance.environment|,
        k requires 0 <= k < |instance.environment| => Slot(instance.id, instance.environment[k]))
  }

  function Slots(settings: Settings): seq<Slot> {
    if settings == [] then []
    else Slots(settings[..|settings| - 1]) + InstanceSlots(settings[|settings| - 1])
  }

  /** No two variables of one instance have the same name; the ids of a record are distinct. */
  ghost predicate Distinct(settings: Settings) {
    var slots := Slots(settings);
    forall i, j :: 0 <= i < j < |slots| ==>
      slots[i].id != slots[j].id || slots[i].variable.name != slots[j].variable.name
  }

  /** Every variable replaced. */
  function Mapped(settings: Settings, f: (InstanceId, Variable) -> Variable): Settings {
    seq(|settings|, k requires 0 <= k < |settings| => MappedInstance(settings[k], f))
  }

  function MappedInstance(instance: Instance, f: (InstanceId, Variable) -> Variable): Instance {
    Instance(instance.id,
             seq(|instance.environment|,
                 k requires 0 <= k < |instance.environment| => f(instance.id, instance.environment[k])))
  }

  lemma {:induction false} SlotsOfMapped(settings: Settings, f: (InstanceId, Variable) -> Variable)
    ensures |Slots(Mapped(settings, f))| == |Slots(settings)|
    ensures forall k :: 0 <= k < |Slots(settings)| ==>
      Slots(Mapped(settings, f))[k] ==
        Slot(Slots(settings)[k].id, f(Slots(settings)[k].id, Slots(settings)[k].variable))
  {
    if settings != [] {
      var init := settings[..|settings| - 1];
      SlotsOfMapped(init, f);
      assert Mapped(settings, f)[..|settings| - 1] == Mapped(init, f);
    }
  }

  /** A replacement that changes no variable changes nothing. */
  lemma {:induction false} MappedSame(settings: Settings, f: (InstanceId, Variable) -> Variable)
    requires forall k :: 0 <= k < |Slots(settings)| ==>
      f(Slots(settings)[k].id, Slots(settings)[k].variable) == Slots(settings)[k].variable
    ensures Mapped(settings, f) == settings
  {
    if settings != [] {
      var init, last := settings[..|settings| - 1], settings[|settings| - 1];
      var slots := Slots(settings);
      assert forall k :: 0 <= k < |Slots(init)| ==> Slots(init)[k] == slots[k];
      MappedSame(init, f);
      forall k | 0 <= k < |last.environment| ensures f(last.id, last.environment[k]) == last.environment[k] {
        assert slots[|Slots(init)| + k] == InstanceSlots(last)[k];
      }
      assert MappedInstance(last, f).environment == last.environment;
      assert Mapped(settings, f) == Mapped(init, f) + [MappedInstance(last, f)];
    }
  }

  /** A second replacement that undoes the first on every variable gives the settings back. */
  lemma MappedBack(settings: Settings, f: (InstanceId, Variable) -> Variable, g: (InstanceId, Variable) -> Variable)
    requires forall k :: 0 <= k < |Slots(settings)| ==>
      g(Slots(settings)[k].id, f(Slots(settings)[k].id, Slots(settings)[k].variable)) == Slots(settings)[k].variable
    ensures Mapped(Mapped(settings, f), g) == settings
  {
    var both := (id: InstanceId, v: Variable) => g(id, f(id, v));
    forall k | 0 <= k < |settings| ensures Mapped(Mapped(settings, f), g)[k] == Mapped(settings, both)[k] {
      assert MappedInstance(MappedInstance(settings[k], f), g).environment ==
        MappedInstance(settings[k], both).environment;
    }
    MappedSame(settings, both);
  }

  // ---- what an update does to one variable ----

  function PersistedVariable(id: InstanceId, v: Variable): Variable {
    if !v.sensitive then v.(redacted := false)
    else if v.redacted || v.value != "" then v.(value := "", redacted := true)
    else v
  }

  function Stored(secrets: Secrets, slot: Slot): Secrets {
    if slot.variable.sensitive && slot.variable.redacted then secrets
    else if slot.variable.sensitive && slot.variable.value != "" then secrets[Key(slot) := slot.variable.value]
    else secrets - {Key(slot)}
  }

  function StoredAll(secrets: Secrets, slots: seq<Slot>): Secrets {
    if slots == [] then secrets else Stored(StoredAll(secrets, slots[..|slots| - 1]), slots[|slots| - 1])
  }

  function SensitiveKeys(slots: seq<Slot>): set<string> {
    set k | 0 <= k < |slots| && slots[k].variable.sensitive :: Key(slots[k])
  }

  function Persisted(settings: Settings): Settings {
    Mapped(settings, PersistedVariable)
  }

  /**
   * The store after the settings changed: written, kept and removed variable by variable, then without what is stale.
   */
  function SecretsAfter(current: Settings, next: Settings, secrets: Secrets): Secrets {
    StoredAll(secrets, Slots(next)) - (SensitiveKeys(Slots(current)) - SensitiveKeys(Slots(next)))
  }

  function Lookup(secrets: Secrets, key: string): Option<string> {
    if key in secrets then Some(secrets[key]) else None
  }

  function MaterializedVariable(secrets: Secrets, id: InstanceId, v: Variable): Variable {
    if v.sensitive && v.redacted then v.(value := Lookup(secrets, Key(Slot(id, v))).UnwrapOr("")) else v
  }

  function Materializer(secrets: Secrets): (InstanceId, Variable) -> Variable {
    (id: InstanceId, v: Variable) => MaterializedVariable(secrets, id, v)
  }

  function Materialized(settings: Settings, secrets: Secrets): Settings {
    Mapped(settings, Materializer(secrets))
  }

  function RedactedVariable(id: InstanceId, v: Variable): Variable {
    if !v.sensitive then v.(redacted := false)
    else v.(value := "", redacted := v.value != "" || v.redacted)
  }

  /** What clients get to see. */
  function Redacted(settings: Settings): Settings {
    Mapped(settings, RedactedVariable)
  }

  lemma OneMore(secrets: Secrets, slots: seq<Slot>, slot: Slot)
    ensures StoredAll(secrets, slots + [slot]) == Stored(StoredAll(secrets, slots), slot)
    ensures SensitiveKeys(slots + [slot]) ==
      SensitiveKeys(slots) + (if slot.variable.sensitive then {Key(slot)} else {})
  {
    assert (slots + [slot])[..|slots|] == slots;
    var more := slots + [slot];
    assert forall k :: 0 <= k < |slots| ==> more[k] == slots[k];
    assert more[|slots|] == slot;
    forall key | key in SensitiveKeys(slots) ensures key in SensitiveKeys(more) {
      var k :| 0 <= k < |slots| && slots[k].variable.sensitive && Key(slots[k]) == key;
      assert more[k].variable.sensitive && Key(more[k]) == key;
    }
    if slot.variable.sensitive {
      assert Key(more[|slots|]) in SensitiveKeys(more);
    }
  }

  lemma {:induction false} StoredAllOfConcat(secrets: Secrets, a: seq<Slot>, b: seq<Slot>)
    ensures StoredAll(secrets, a + b) == StoredAll(StoredAll(secrets, a), b)
    ensures SensitiveKeys(a + b) == SensitiveKeys(a) + SensitiveKeys(b)
  {
    hide Stored, Key, SecretName, IsSlug, IsVariableName;
    if b == [] {
      assert a + b == a;
    } else {
      var init, last := b[..|b| - 1], b[|b| - 1];
      StoredAllOfConcat(secrets, a, init);
      assert a + b == (a + init) + [last] && b == init + [last];
      hide SensitiveKeys, StoredAll;
      OneMore(secrets, a + init, last);
      OneMore(secrets, init, last);
    }
  }

  lemma OneInstanceMore(secrets: Secrets, settings: Settings, i: nat)
    requires i < |settings|
    ensures StoredAll(secrets, Slots(settings[..i + 1])) ==
      StoredAll(StoredAll(secrets, Slots(settings[..i])), InstanceSlots(settings[i]))
    ensures SensitiveKeys(Slots(settings[..i + 1])) ==
      SensitiveKeys(Slots(settings[..i])) + SensitiveKeys(InstanceSlots(settings[i]))
  {
    assert settings[..i + 1][..i] == settings[..i];
    StoredAllOfConcat(secrets, Slots(settings[..i]), InstanceSlots(settings[i]));
  }

  lemma RemovedInTurn(secrets: Secrets, first: set<string>, second: set<string>, kept: set<string>)
    ensures secrets - (first - kept) - (second - kept) == secrets - ((first + second) - kept)
  {
  }

  // ---- the service ----

  datatype State = State(settings: Settings, secrets: Secrets)

  function Update(st: State, next: Settings): State {
    State(Persisted(next), SecretsAfter(st.settings, next, st.secrets))
  }

  /** The settings held and written are the same, so one field stands for the cache and the file. */
  class SettingsService {
    var settings: Settings
    var secrets: Secrets

    constructor (initial: Settings, stored: Secrets)
      ensures settings == initial && secrets == stored
    {
      settings, secrets := initial, stored;
    }

    method PersistProviderEnvironmentSecrets(next: Settings) returns (persisted: Settings)
      modifies this`secrets
      ensures persisted == Persisted(next)
      ensures secrets == SecretsAfter(settings, next, old(secrets))
    {
      persisted := [];
      var nextSecretKeys: set<string> := {};
      var i := 0;
      while i < |next|
        invariant 0 <= i <= |next|
        invariant persisted == Persisted(next)[..i]
        invariant nextSecretKeys == SensitiveKeys(Slots(next[..i]))
        invariant secrets == StoredAll(old(secrets), Slots(next[..i]))
      {
        var environment, sensitive := PersistEnvironment(next[i]);
        nextSecretKeys := nextSecretKeys + sensitive;
        persisted := persisted + [Instance(next[i].id, environment)];
        OneInstanceMore(old(secrets), next, i);
        i := i + 1;
      }
      assert next[..i] == next;
      RemoveStale(nextSecretKeys);
    }

    /** The inner loop of the first pass. */
    method PersistEnvironment(instance: Instance) returns (environment: seq<Variable>, sensitive: set<string>)
      modifies this`secrets
      ensures environment == MappedInstance(instance, PersistedVariable).environment
      ensures sensitive == SensitiveKeys(InstanceSlots(instance))
      ensures secrets == StoredAll(old(secrets), InstanceSlots(instance))
    {
      hide SecretName, IsSlug, IsVariableName, Stored;
      environment, sensitive := [], {};
      ghost var slots := InstanceSlots(instance);
      var j := 0;
      while j < |instance.environment|
        invariant 0 <= j <= |instance.environment|
        invariant environment == MappedInstance(instance, PersistedVariable).environment[..j]
        invariant sensitive == SensitiveKeys(slots[..j])
        invariant secrets == StoredAll(old(secrets), slots[..j])
      {
        assert slots[..j + 1] == slots[..j] + [slots[j]];
        OneMore(old(secrets), slots[..j], slots[j]);
        var variable := PersistVariable(instance.id, instance.environment[j]);
        environment := environment + [variable];
        if variable.sensitive {
          sensitive := sensitive + {Key(Slot(instance.id, variable))};
        }
        j := j + 1;
      }
      assert slots[..j] == slots;
    }

    /** The body of that loop. */
    method PersistVariable(id: InstanceId, variable: Variable) returns (r: Variable)
      modifies this`secrets
      ensures r == PersistedVariable(id, variable)
      ensures secrets == Stored(old(secrets), Slot(id, variable))
    {
      var key := SecretName(id, variable.name);
      if !variable.sensitive {
        secrets := secrets - {key};
        return RedactedVariable(id, variable);
      }
      if !variable.redacted {
        if variable.value != "" {
          secrets := secrets[key := variable.value];
          return variable.(value := "", redacted := true);
        }
        secrets := secrets - {key};
        return variable;
      }
      r := RedactedVariable(id, variable);
    }

    /** The second pass, over the settings as they were. */
    method RemoveStale(nextSecretKeys: set<string>)
      modifies this`secrets
      ensures secrets == old(secrets) - (SensitiveKeys(Slots(settings)) - nextSecretKeys)
    {
      assert SensitiveKeys(Slots(settings[..0])) == {};
      hide SecretName, IsSlug, IsVariableName, SensitiveKeys, Slots;
      var i := 0;
      while i < |settings|
        invariant 0 <= i <= |settings|
        invariant secrets == old(secrets) - (SensitiveKeys(Slots(settings[..i])) - nextSecretKeys)
      {
        ghost var seen, more := SensitiveKeys(Slots(settings[..i])), SensitiveKeys(InstanceSlots(settings[i]));
        RemovedInTurn(old(secrets), seen, more, nextSecretKeys);
        RemoveStaleOf(settings[i], nextSecretKeys);
        OneInstanceMore(map[], settings, i);
        i := i + 1;
      }
      assert settings[..i] == settings;
    }

    method RemoveStaleOf(instance: Instance, nextSecretKeys: set<string>)
      modifies this`secrets
      ensures secrets == old(secrets) - (SensitiveKeys(InstanceSlots(instance)) - nextSecretKeys)
    {
      hide SecretName;
      ghost var slots := InstanceSlots(instance);
      var j := 0;
      while j < |instance.environment|
        invariant 0 <= j <= |instance.environment|
        invariant secrets == old(secrets) - (SensitiveKeys(slots[..j]) - nextSecretKeys)
      {
        var variable := instance.environment[j];
        var key := SecretName(instance.id, variable.name);
        assert slots[..j + 1] == slots[..j] + [slots[j]];
        OneMore(map[], slots[..j], slots[j]);
        RemovedInTurn(old(secrets), SensitiveKeys(slots[..j]), {key}, nextSecretKeys);
        if variable.sensitive && key !in nextSecretKeys {
          secrets := secrets - {key};
        }
        j := j + 1;
      }
      assert slots[..j] == slots;
    }

    method MaterializeProviderEnvironmentSecrets() returns (r: Settings)
      ensures r == Materialized(settings, secrets)
    {
      hide IsSlug, IsVariableName, SecretName;
      r := [];
      var i := 0;
      while i < |settings|
        invariant 0 <= i <= |settings|
        invariant r == Materialized(settings, secrets)[..i]
      {
        var instance := settings[i];
        var environment: seq<Variable> := [];
        var j := 0;
        while j < |instance.environment|
          invariant 0 <= j <= |instance.environment|
          invariant environment == Materialized(settings, secrets)[i].environment[..j]
        {
          var variable := instance.environment[j];
          if !variable.sensitive || !variable.redacted {
            environment := environment + [variable];
          } else {
            var secret := Lookup(secrets, Key(Slot(instance.id, variable)));
            environment := environment + [variable.(value := if secret.Some? then secret.value else "")];
          }
          j := j + 1;
        }
        assert environment == Materialized(settings, secrets)[i].environment;
        r := r + [Instance(instance.id, environment)];
        i := i + 1;
      }
    }

    /** What a client's change comes to, once it is applied to the current settings. */
    method UpdateSettings(next: Settings) returns (r: Settings)
      modifies this
      ensures State(settings, secrets) == Update(State(old(settings), old(secrets)), next)
      ensures r == Materialized(settings, secrets)
    {
      var persisted := PersistProviderEnvironmentSecrets(next);
      settings := persisted;
      r := MaterializeProviderEnvironmentSecrets();
    }
  }
}
