/** What a shortcut text means: its words in any order, under any of their names, with any capitals and spaces. */
module ShortcutReading {
  import opened Optional
  import opened Text
  import opened Shortcuts

  /** How many words are no modifiers. */
  function Keys(words: seq<string>): nat {
    if words == [] then 0 else Keys(words[..|words| - 1]) + if words[|words| - 1] in MODIFIER_WORDS then 0 else 1
  }

  /** What the words say: each modifier under either of its names, and the key. */
  ghost predicate Says(words: seq<string>, partial: Partial) {
    && SaysModifiers(words, partial)
    && (match partial.key
        case None => Keys(words) == 0
        case Some(key) => Keys(words) == 1 && IsKeyOf(words, key))
  }

  predicate SaysModifiers(words: seq<string>, partial: Partial) {
    && (partial.meta <==> "cmd" in words || "meta" in words)
    && (partial.ctrl <==> "ctrl" in words || "control" in words)
    && (partial.shift <==> "shift" in words)
    && (partial.alt <==> "alt" in words || "option" in words)
    && (partial.mod <==> "mod" in words)
  }

  /** The word that is no modifier, or what it is short for. */
  ghost predicate IsKeyOf(words: seq<string>, key: string) {
    exists k :: 0 <= k < |words| && IsKeyWord(words[k], key)
  }

  predicate IsKeyWord(word: string, key: string) {
    && word !in MODIFIER_WORDS
    && key == (if word == "space" then " " else if word == "esc" then "escape" else word)
  }

  lemma {:induction false} TakeLast(partial: Partial, words: seq<string>, last: string)
    ensures TakeAll(partial, words + [last]) ==
      match TakeAll(partial, words)
      case None => None
      case Some(next) => Take(next, last)
    decreases |words|
  {
    hide Take;
    if words == [] {
      assert words + [last] == [last] && [last][1..] == [];
    } else {
      assert (words + [last])[1..] == words[1..] + [last];
      var next := Take(partial, words[0]);
      if next.Some? {
        TakeLast(next.value, words[1..], last);
      }
    }
  }

  lemma OneModifierMore(words: seq<string>, partial: Partial, last: string)
    requires SaysModifiers(words, partial) && Take(partial, last).Some?
    ensures SaysModifiers(words + [last], Take(partial, last).value)
  {
    assert forall word :: word in words + [last] <==> word in words || word == last;
  }

  lemma OneKeyMore(words: seq<string>, partial: Partial, last: string)
    requires Says(words, partial)
    ensures Take(partial, last).None? <==> last !in MODIFIER_WORDS && partial.key.Some?
    ensures Keys(words + [last]) == Keys(words) + if last in MODIFIER_WORDS then 0 else 1
    ensures Take(partial, last).Some? && Take(partial, last).value.key.Some? ==>
      IsKeyOf(words + [last], Take(partial, last).value.key.value)
    ensures Take(partial, last).Some? ==>
      (Take(partial, last).value.key.None? <==> partial.key.None? && last in MODIFIER_WORDS)
  {
    var longer := words + [last];
    assert longer[..|words|] == words && longer[|words|] == last;
    hide SaysModifiers;
    if partial.key.Some? {
      KeyStays(words, last, partial.key.value);
    } else if last !in MODIFIER_WORDS {
      assert IsKeyWord(longer[|words|], NormalizeKeyToken(last));
      hide Keys;
      assert IsKeyOf(longer, NormalizeKeyToken(last));
    }
  }

  lemma KeyStays(words: seq<string>, last: string, key: string)
    requires IsKeyOf(words, key)
    ensures IsKeyOf(words + [last], key)
  {
    var longer := words + [last];
    var k :| 0 <= k < |words| && IsKeyWord(words[k], key);
    assert longer[k] == words[k];
  }

  lemma OneWordMore(words: seq<string>, partial: Partial, last: string)
    requires Says(words, partial)
    ensures Take(partial, last).None? ==> Keys(words + [last]) > 1
    ensures Take(partial, last).Some? ==> Says(words + [last], Take(partial, last).value)
  {
    OneKeyMore(words, partial, last);
    if Take(partial, last).Some? {
      OneModifierMore(words, partial, last);
    }
    hide Take, Keys, IsKeyOf, SaysModifiers;
  }

  lemma {:induction false} KeysOnlyGrow(words: seq<string>, n: nat)
    requires n <= |words|
    ensures Keys(words[..n]) <= Keys(words)
  {
    if n < |words| {
      var front := words[..|words| - 1];
      assert words[..n] == front[..n];
      KeysOnlyGrow(front, n);
    } else {
      assert words[..n] == words;
    }
  }

  /** The words are taken unless two of them are keys, and amount to what they say. */
  lemma {:induction false} WordsSay(words: seq<string>)
    ensures TakeAll(NOTHING, words).None? <==> Keys(words) > 1
    ensures TakeAll(NOTHING, words).Some? ==> Says(words, TakeAll(NOTHING, words).value)
  {
    hide Take;
    if words != [] {
      var n := |words| - 1;
      var front, last := words[..n], words[n];
      WordsSay(front);
      assert words == front + [last];
      TakeLast(NOTHING, front, last);
      KeysOnlyGrow(words, n);
      if TakeAll(NOTHING, front).Some? {
        OneWordMore(front, TakeAll(NOTHING, front).value, last);
      }
    }
  }

  /** A text is read if and only if it has no empty word and exactly one key, and then as what its words say. */
  lemma TextSays(value: string)
    ensures Parsed(value).Some? <==> "" !in Words(value) && Keys(Words(value)) == 1
    ensures Parsed(value).Some? ==>
      var s := Parsed(value).value;
      Says(Words(value), Partial(Some(s.key), s.meta, s.ctrl, s.shift, s.alt, s.mod))
  {
    hide Take, TakeAll, Words;
    WordsSay(Words(value));
  }

  // ---- the words of a text ----

  function LowerAll(parts: seq<string>): seq<string> {
    seq(|parts|, k requires 0 <= k < |parts| => Lower(parts[k]))
  }

  function Empty(n: nat): seq<string> {
    seq(n, _ => "")
  }

  lemma {:induction false} LowerOfJoin(parts: seq<string>)
    ensures Lower(Join(parts, '+')) == Join(LowerAll(parts), '+')
  {
    if |parts| > 1 {
      LowerOfJoin(parts[1..]);
      assert LowerAll(parts)[1..] == LowerAll(parts[1..]);
      assert Lower(parts[0] + ['+'] + Join(parts[1..], '+')) ==
        Lower(parts[0]) + ['+'] + Lower(Join(parts[1..], '+'));
    }
  }

  lemma {:induction false} DropEmpty(pieces: seq<string>, n: nat)
    requires pieces == [] || pieces[|pieces| - 1] != ""
    ensures DropTrailingEmpty(pieces + Empty(n)) == pieces
    decreases n
  {
    if n == 0 {
      assert pieces + Empty(0) == pieces;
    } else {
      var all := pieces + Empty(n);
      assert all[..|all| - 1] == pieces + Empty(n - 1);
      DropEmpty(pieces, n - 1);
    }
  }

  /**
   * The words are the parts between plus signs in lower case and without the spaces around them; any number of signs
   * at the end are one plus key.
   */
  lemma WordsOfParts(parts: seq<string>, signs: nat)
    requires |parts| + signs > 0 && forall k :: 0 <= k < |parts| ==> '+' !in parts[k]
    requires parts != [] ==> Trim(Lower(parts[|parts| - 1])) != ""
    ensures Words(Join(parts + Empty(signs), '+')) == TrimAll(LowerAll(parts)) + if signs > 0 then ["+"] else []
  {
    hide *;
    LowerOfJoin(parts + Empty(signs));
    LowerWithEmpty(parts, signs);
    LastPart(parts);
    WordsFrom(Join(parts + Empty(signs), '+'), TrimAll(LowerAll(parts)), signs);
  }

  lemma LastPart(parts: seq<string>)
    ensures var trimmed := TrimAll(LowerAll(parts));
      |trimmed| == |parts| && (parts != [] ==> trimmed[|parts| - 1] == Trim(Lower(parts[|parts| - 1])))
  {
  }

  lemma WordsFrom(value: string, pieces: seq<string>, signs: nat)
    requires TrimAll(SplitOn(Lower(value), '+')) == pieces + Empty(signs)
    requires pieces == [] || pieces[|pieces| - 1] != ""
    ensures Words(value) == pieces + if signs > 0 then ["+"] else []
  {
    hide TrimAll, SplitOn, Lower, DropTrailingEmpty;
    DropEmpty(pieces, signs);
    if signs == 0 {
      assert pieces + Empty(0) == pieces && pieces + [] == pieces;
    } else {
      assert |pieces + Empty(signs)| > |pieces|;
    }
  }

  lemma LowerWithEmpty(parts: seq<string>, signs: nat)
    requires |parts| + signs > 0 && forall k :: 0 <= k < |parts| ==> '+' !in parts[k]
    ensures var all := LowerAll(parts + Empty(signs));
      TrimAll(SplitOn(Join(all, '+'), '+')) == TrimAll(LowerAll(parts)) + Empty(signs)
  {
    var all := parts + Empty(signs);
    forall k | 0 <= k < |all| ensures '+' !in Lower(all[k]) {
      if k < |parts| {
        LowerHasNoPlus(parts[k]);
      }
    }
    SplitOfJoin(LowerAll(all), '+');
    assert Trim(Lower("")) == "";
    hide Trim, Lower, Join, SplitOn;
    assert TrimAll(LowerAll(all)) == TrimAll(LowerAll(parts)) + Empty(signs);
  }

  lemma LowerHasNoPlus(s: string)
    requires '+' !in s
    ensures '+' !in Lower(s)
  {
  }
}
