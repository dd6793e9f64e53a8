/** What holds of settings and secrets over every sequence of updates. */
module ProviderSecretTheorems {
  import opened Optional
  import opened SecretNames
  import opened ProviderSecrets

  /** No sensitive variable holds its value, and no other variable a marker. */
  ghost predicate Clean(settings: Settings) {
    var slots := Slots(settings);
    forall k :: 0 <= k < |slots| ==>
      if slots[k].variable.sensitive then slots[k].variable.value == "" else !slots[k].variable.redacted
  }

  predicate Marked(slots: seq<Slot>, key: string) {
    exists k :: 0 <= k < |slots| && slots[k].variable.sensitive && slots[k].variable.redacted && Key(slots[k]) == key
  }

  predicate Mentioned(slots: seq<Slot>, key: string) {
    exists k :: 0 <= k < |slots| && Key(slots[k]) == key
  }

  /** Every stored secret belongs to a sensitive variable that is marked in the current settings. */
  ghost predicate Owned(st: State) {
    forall key :: key in st.secrets ==> Marked(Slots(st.settings), key)
  }

  // ---- the invariant ----

  lemma PersistedIsClean(next: Settings)
    ensures Clean(Persisted(next))
  {
    SlotsOfMapped(next, PersistedVariable);
  }

  /**
   * A secret in the store after the first pass is marked in what is persisted, or was there and is not mentioned at
   * all.
   */
  lemma {:induction false} StoredIsMarked(secrets: Secrets, slots: seq<Slot>, key: string)
    requires key in StoredAll(secrets, slots)
    ensures || (key in secrets && !Mentioned(slots, key))
            || (exists k :: 0 <= k < |slots| && Key(slots[k]) == key && slots[k].variable.sensitive
                            && PersistedVariable(slots[k].id, slots[k].variable).redacted)
  {
    hide SecretName;
    if slots != [] {
      var init, last := slots[..|slots| - 1], slots[|slots| - 1];
      if Key(last) != key {
        StoredIsMarked(secrets, init, key);
        if Mentioned(slots, key) {
          var k :| 0 <= k < |slots| && Key(slots[k]) == key;
          assert Key(init[k]) == key;
          var j :| 0 <= j < |init| && Key(init[j]) == key && init[j].variable.sensitive
            && PersistedVariable(init[j].id, init[j].variable).redacted;
          assert slots[j] == init[j];
        }
      } else {
        assert last.variable.sensitive && PersistedVariable(last.id, last.variable).redacted;
      }
    }
  }

  /** The second pass removes what was marked before and is not mentioned any more. */
  lemma StaleIsRemoved(st: State, next: Settings, key: string)
    requires !Mentioned(Slots(next), key) && key in Update(st, next).secrets
    ensures !Marked(Slots(st.settings), key)
  {
    hide SecretName, Slots;
    var current := Slots(st.settings);
    assert key !in SensitiveKeys(Slots(next));
    forall k | 0 <= k < |current| && current[k].variable.sensitive ensures Key(current[k]) != key {
      assert Key(current[k]) in SensitiveKeys(current);
    }
  }

  lemma InFirstPass(st: State, next: Settings, key: string)
    requires key in Update(st, next).secrets
    ensures key in StoredAll(st.secrets, Slots(next))
  {
  }

  lemma UpdateKeepsOwned(st: State, next: Settings)
    requires Owned(st)
    ensures Owned(Update(st, next))
  {
    hide SecretName, IsSlug, IsVariableName, Slots, SecretsAfter;
    var slots, persisted := Slots(next), Slots(Persisted(next));
    SlotsOfMapped(next, PersistedVariable);
    forall key | key in Update(st, next).secrets ensures Marked(persisted, key) {
      InFirstPass(st, next, key);
      StoredIsMarked(st.secrets, slots, key);
      if key in st.secrets && !Mentioned(slots, key) {
        StaleIsRemoved(st, next, key);
        assert false;
      } else {
        var k :| 0 <= k < |slots| && Key(slots[k]) == key && slots[k].variable.sensitive
          && PersistedVariable(slots[k].id, slots[k].variable).redacted;
        assert Key(persisted[k]) == key;
      }
    }
  }

  function UpdateAll(st: State, updates: seq<Settings>): State {
    if updates == [] then st else Update(UpdateAll(st, updates[..|updates| - 1]), updates[|updates| - 1])
  }

  /** After any sequence of updates, whatever they contain: no value in the settings, no secret without its marker. */
  lemma {:induction false} RunsStayClean(st: State, updates: seq<Settings>)
    requires Owned(st) && (Clean(st.settings) || updates != [])
    ensures Clean(UpdateAll(st, updates).settings) && Owned(UpdateAll(st, updates))
  {
    if updates != [] {
      var init, last := updates[..|updates| - 1], updates[|updates| - 1];
      if init != [] {
        RunsStayClean(st, init);
      }
      PersistedIsClean(last);
      UpdateKeepsOwned(UpdateAll(st, init), last);
    }
  }

  // ---- what becomes of each variable ----

  lemma KeysDiffer(a: Slot, b: Slot)
    ensures Key(a) == Key(b) <==> a.id == b.id && a.variable.name == b.variable.name
  {
    SecretNameInjective(a.id, a.variable.name, b.id, b.variable.name);
  }

  /** Posted back with its marker, a variable leaves the store alone. */
  predicate Keeps(v: Variable) {
    v.sensitive && v.redacted
  }

  /** The last entry of a key that does not leave the store alone: the one whose word counts. */
  function Decider(slots: seq<Slot>, key: string): Option<Variable> {
    if slots == [] then None
    else
      var init, last := slots[..|slots| - 1], slots[|slots| - 1];
      if Key(last) == key && !Keeps(last.variable) then Some(last.variable) else Decider(init, key)
  }

  /** The secret the deciding entry leaves: its own value, nothing, or without such an entry what was there before. */
  function Outcome(decider: Option<Variable>, before: Option<string>): Option<string> {
    match decider
    case None => before
    case Some(v) => if v.sensitive && v.value != "" then Some(v.value) else None
  }

  lemma {:induction false} DeciderFacts(slots: seq<Slot>, key: string)
    ensures var d := Decider(slots, key);
      if d.Some?
      then exists k :: 0 <= k < |slots| && Key(slots[k]) == key && slots[k].variable == d.value && !Keeps(d.value)
      else forall k :: 0 <= k < |slots| && Key(slots[k]) == key ==> Keeps(slots[k].variable)
  {
    hide Key, SecretName, IsSlug, IsVariableName;
    if slots != [] {
      var init, last := slots[..|slots| - 1], slots[|slots| - 1];
      DeciderFacts(init, key);
      if Key(last) == key && !Keeps(last.variable) {
        assert slots[|slots| - 1] == last;
      } else if Decider(init, key).Some? {
        var d := Decider(init, key).value;
        var k :| 0 <= k < |init| && Key(init[k]) == key && init[k].variable == d && !Keeps(d);
        assert slots[k] == init[k];
      } else {
        forall k | 0 <= k < |slots| && Key(slots[k]) == key ensures Keeps(slots[k].variable) {
          assert k < |init| ==> slots[k] == init[k];
        }
      }
    }
  }

  /** The first pass, seen from one key. */
  lemma {:induction false} StoredOutcome(secrets: Secrets, slots: seq<Slot>, key: string)
    ensures Lookup(StoredAll(secrets, slots), key) == Outcome(Decider(slots, key), Lookup(secrets, key))
  {
    hide SecretName, IsSlug, IsVariableName;
    if slots != [] {
      StoredOutcome(secrets, slots[..|slots| - 1], key);
    }
  }

  /** The secret of each sensitive variable of the new settings after the whole update. */
  lemma SecretsAfterAt(current: Settings, next: Settings, secrets: Secrets, k: nat)
    requires k < |Slots(next)| && Slots(next)[k].variable.sensitive
    ensures var slots := Slots(next);
      var key := Key(slots[k]);
      Lookup(SecretsAfter(current, next, secrets), key) == Outcome(Decider(slots, key), Lookup(secrets, key))
  {
    StoredOutcome(secrets, Slots(next), Key(Slots(next)[k]));
    assert Key(Slots(next)[k]) in SensitiveKeys(Slots(next));
  }

  /** The secret of a key before an update, as a reader sees it; nothing unless a sensitive variable was marked. */
  function MarkedSecret(st: State, key: string): Option<string> {
    if Marked(Slots(st.settings), key) then Lookup(st.secrets, key) else None
  }

  function MarkedValue(st: State, slot: Slot): string {
    MarkedSecret(st, Key(slot)).UnwrapOr("")
  }

  /**
   * Reading back after an update, whatever it contains: a variable that is not sensitive, or was supplied empty, as it
   * was given; every other one as the deciding entry of its key left it, or as it was read before.
   */
  lemma UpdateThenMaterialize(st: State, next: Settings, k: nat)
    requires Owned(st) && k < |Slots(next)|
    ensures var after := Update(st, next);
      var read := Slots(Materialized(after.settings, after.secrets));
      var slot := Slots(next)[k];
      var v := slot.variable;
      && k < |read| && read[k].id == slot.id && read[k].variable.name == v.name
        && read[k].variable.sensitive == v.sensitive
      && read[k].variable.value ==
         if v.sensitive && (v.redacted || v.value != "")
         then Outcome(Decider(Slots(next), Key(slot)), MarkedSecret(st, Key(slot))).UnwrapOr("")
         else v.value
  {
    hide SecretName, IsSlug, IsVariableName, Slots, Decider, Outcome;
    var after := Update(st, next);
    var slot := Slots(next)[k];
    SlotsOfMapped(next, PersistedVariable);
    SlotsOfMapped(after.settings, Materializer(after.secrets));
    assert Slots(after.settings)[k] == Slot(slot.id, PersistedVariable(slot.id, slot.variable));
    assert Lookup(st.secrets, Key(slot)) == MarkedSecret(st, Key(slot));
    if slot.variable.sensitive {
      SecretsAfterAt(st.settings, next, st.secrets, k);
    }
  }

  /** The value of a variable as read after an update. */
  function ReadValue(st: State, next: Settings, k: nat): string {
    var read := Slots(Materialized(Update(st, next).settings, Update(st, next).secrets));
    if k < |read| then read[k].variable.value else ""
  }

  /**
   * A newly supplied secret reads back as it was given if and only if it is empty, or the last entry for its key that
   * is not a mere marker is sensitive and gives the same value.
   */
  lemma SuppliedReadsBackWhen(st: State, next: Settings, k: nat)
    requires Owned(st) && k < |Slots(next)|
    requires Slots(next)[k].variable.sensitive && !Slots(next)[k].variable.redacted
    ensures var v, decider := Slots(next)[k].variable, Decider(Slots(next), Key(Slots(next)[k]));
      && decider.Some?
      && (ReadValue(st, next, k) == v.value <==>
        v.value == "" || (decider.value.sensitive && decider.value.value == v.value))
  {
    hide SecretName, IsSlug, IsVariableName, Slots, Decider, Update, Materialized;
    UpdateThenMaterialize(st, next, k);
    DeciderFacts(Slots(next), Key(Slots(next)[k]));
  }

  /**
   * A variable posted with its marker reads as it did before if and only if every entry for its key is such a marker,
   * or the last one that is not happens to leave the same value.
   */
  lemma MarkedReadsBackWhen(st: State, next: Settings, k: nat)
    requires Owned(st) && k < |Slots(next)| && Keeps(Slots(next)[k].variable)
    ensures var slot := Slots(next)[k];
      var decider := Decider(Slots(next), Key(slot));
      ReadValue(st, next, k) == MarkedValue(st, slot) <==>
        decider.None? || (if decider.value.sensitive then decider.value.value else "") == MarkedValue(st, slot)
  {
    hide SecretName, IsSlug, IsVariableName, Slots, Decider, Update, Materialized;
    UpdateThenMaterialize(st, next, k);
  }

  /** Without repeated names: supplied values read back as supplied, marked ones as they were read before. */
  lemma DistinctNamesReadBack(st: State, next: Settings, k: nat)
    requires Owned(st) && Distinct(next) && k < |Slots(next)|
    ensures var slot := Slots(next)[k];
      ReadValue(st, next, k) == if Keeps(slot.variable) then MarkedValue(st, slot) else slot.variable.value
  {
    hide SecretName, IsSlug, IsVariableName, Slots, Decider, Update, Materialized, Key;
    var slots, slot := Slots(next), Slots(next)[k];
    UpdateThenMaterialize(st, next, k);
    DeciderFacts(slots, Key(slot));
    var decider := Decider(slots, Key(slot));
    if decider.Some? {
      var j :| 0 <= j < |slots| && Key(slots[j]) == Key(slot) && slots[j].variable == decider.value;
      KeysDiffer(slots[j], slot);
      assert j == k;
    }
  }

  /** Repeated names do lose secrets: here a later empty entry takes the secret of an earlier one away. */
  lemma RepeatedNameLosesSecret(st: State, id: InstanceId, name: VariableName, value: string)
    requires Owned(st) && value != ""
    ensures ReadValue(
      st, [Instance(id, [Variable(name, value, true, false), Variable(name, "", true, false)])], 0) == ""
  {
    var first, second := Variable(name, value, true, false), Variable(name, "", true, false);
    var next := [Instance(id, [first, second])];
    assert next[..0] == [];
    assert Slots(next) == [Slot(id, first), Slot(id, second)];
    hide SecretName, IsSlug, IsVariableName, Slots, Update, Materialized;
    assert Key(Slot(id, first)) == Key(Slot(id, second));
    UpdateThenMaterialize(st, next, 0);
  }

  /** A marked value is what reading the settings before gave for that variable. */
  lemma MarkedValueIsRead(st: State, k: nat)
    requires k < |Slots(st.settings)| && Keeps(Slots(st.settings)[k].variable)
    ensures var read := Slots(Materialized(st.settings, st.secrets));
      k < |read| && read[k].variable.value == MarkedValue(st, read[k])
  {
    hide SecretName, IsSlug, IsVariableName, Slots;
    var slots := Slots(st.settings);
    SlotsOfMapped(st.settings, Materializer(st.secrets));
    assert Marked(slots, Key(slots[k]));
  }

  // ---- what a client sees, and posts back ----

  /** Redacting what was read gives the settings as they are kept. */
  lemma RedactedReading(st: State)
    requires Clean(st.settings)
    ensures Redacted(Materialized(st.settings, st.secrets)) == st.settings
  {
    hide SecretName, IsSlug, IsVariableName, Slots;
    var slots, read := Slots(st.settings), Materializer(st.secrets);
    forall k | 0 <= k < |slots|
      ensures RedactedVariable(slots[k].id, read(slots[k].id, slots[k].variable)) == slots[k].variable
    {
      assert if slots[k].variable.sensitive then slots[k].variable.value == "" else !slots[k].variable.redacted;
    }
    MappedBack(st.settings, read, RedactedVariable);
  }

  /** Settings without values in them decide nothing but removals. */
  lemma CleanRemoves(settings: Settings, key: string)
    requires Clean(settings)
    ensures Decider(Slots(settings), key).Some? ==> Outcome(Decider(Slots(settings), key), None) == None
  {
    hide SecretName, IsSlug, IsVariableName, Slots, Key;
    DeciderFacts(Slots(settings), key);
  }

  /**
   * Posting back what a client was shown changes nothing, neither settings nor store, if and only if no entry but a
   * marked one has a key under which a secret is stored.
   */
  lemma RepostChangesNothingWhen(st: State)
    requires Clean(st.settings) && Owned(st)
    ensures Update(st, Redacted(Materialized(st.settings, st.secrets))) == st <==>
      forall k :: 0 <= k < |Slots(st.settings)| && Key(Slots(st.settings)[k]) in st.secrets ==>
        Keeps(Slots(st.settings)[k].variable)
  {
    hide SecretName, IsSlug, IsVariableName, Slots, Key, Decider;
    var slots := Slots(st.settings);
    RedactedReading(st);
    MappedSame(st.settings, PersistedVariable);
    var after := SecretsAfter(st.settings, st.settings, st.secrets);
    assert after == StoredAll(st.secrets, slots);
    if forall k :: 0 <= k < |slots| && Key(slots[k]) in st.secrets ==> Keeps(slots[k].variable) {
      forall key ensures Lookup(after, key) == Lookup(st.secrets, key) {
        StoredOutcome(st.secrets, slots, key);
        DeciderFacts(slots, key);
        CleanRemoves(st.settings, key);
      }
      SameLookups(after, st.secrets);
    } else {
      var k :| 0 <= k < |slots| && Key(slots[k]) in st.secrets && !Keeps(slots[k].variable);
      var key := Key(slots[k]);
      StoredOutcome(st.secrets, slots, key);
      DeciderFacts(slots, key);
      CleanRemoves(st.settings, key);
      assert Lookup(after, key) == None;
    }
  }

  lemma SameLookups(a: Secrets, b: Secrets)
    requires forall key :: Lookup(a, key) == Lookup(b, key)
    ensures a == b
  {
    forall key ensures key in a <==> key in b {
      assert Lookup(a, key) == Lookup(b, key);
    }
    forall key | key in a ensures a[key] == b[key] {
      assert Lookup(a, key) == Lookup(b, key);
    }
  }

  /** Without repeated names that is always so. */
  lemma RepostChangesNothing(st: State)
    requires Clean(st.settings) && Owned(st) && Distinct(st.settings)
    ensures Update(st, Redacted(Materialized(st.settings, st.secrets))) == st
  {
    hide SecretName, IsSlug, IsVariableName, Slots, Key, Update;
    var slots := Slots(st.settings);
    RepostChangesNothingWhen(st);
    forall k | 0 <= k < |slots| && Key(slots[k]) in st.secrets ensures Keeps(slots[k].variable) {
      assert Marked(slots, Key(slots[k]));
      var j :| 0 <= j < |slots| && Keeps(slots[j].variable) && Key(slots[j]) == Key(slots[k]);
      KeysDiffer(slots[j], slots[k]);
      assert j == k;
    }
  }
}
