/** Shortcuts that were read are written in a form that is read back, so the written form can stand for the shortcut. */
module ShortcutRoundTrip {
  import opened Optional
  import opened Text
  import opened Shortcuts

  predicate NoUpper(s: string) {
    forall k :: 0 <= k < |s| ==> !('A' <= s[k] <= 'Z')
  }

  /** A word as it comes out of splitting, trimming and lowering. */
  predicate IsWord(w: string) {
    w != "" && NoUpper(w) && Trimmed(w) && (w == "+" || '+' !in w)
  }

  /** The shortcuts reading can give. */
  predicate Readable(s: Shortcut) {
    s.key == " " || (IsWord(s.key) && s.key !in MODIFIER_WORDS && s.key != "space" && s.key != "esc")
  }

  // ---- what is read is readable ----

  lemma {:induction false} SplitParts(s: string, c: char)
    ensures forall k :: 0 <= k < |SplitOn(s, c)| ==> c !in SplitOn(s, c)[k]
    ensures forall k, x :: 0 <= k < |SplitOn(s, c)| && x in SplitOn(s, c)[k] ==> x in s
  {
    if s != "" {
      SplitParts(s[1..], c);
      var rest := SplitOn(s[1..], c);
      assert forall k, x :: 0 <= k < |rest| && x in rest[k] ==> x in s[1..];
      assert forall x :: x in s[1..] ==> x in s;
    }
  }

  lemma {:induction false} TrimStartFacts(s: string)
    ensures var t := TrimStart(s); (t != "" ==> !IsSpace(t[0])) && forall x :: x in t ==> x in s
  {
    if s != "" && IsSpace(s[0]) {
      TrimStartFacts(s[1..]);
    }
  }

  lemma {:induction false} TrimEndFacts(s: string)
    ensures var t := TrimEnd(s); t <= s && (t != "" ==> !IsSpace(t[|t| - 1])) && forall x :: x in t ==> x in s
  {
    if s != "" && IsSpace(s[|s| - 1]) {
      TrimEndFacts(s[..|s| - 1]);
    }
  }

  lemma TrimFacts(s: string)
    ensures Trimmed(Trim(s)) && forall x :: x in Trim(s) ==> x in s
  {
    TrimStartFacts(s);
    TrimEndFacts(TrimStart(s));
  }

  lemma {:induction false} DropTrailingEmptyFacts(pieces: seq<string>)
    ensures DropTrailingEmpty(pieces) <= pieces
  {
    if pieces != [] && pieces[|pieces| - 1] == "" {
      DropTrailingEmptyFacts(pieces[..|pieces| - 1]);
    }
  }

  ghost predicate Within(s: string, allowed: set<char>) {
    forall x :: x in s ==> x in allowed
  }

  function Chars(s: string): set<char> {
    set k | 0 <= k < |s| :: s[k]
  }

  lemma PieceIsWord(lower: string, raw: string)
    requires NoUpper(lower) && '+' !in raw && forall x :: x in raw ==> x in lower
    ensures Trim(raw) != "" ==> IsWord(Trim(raw))
    ensures Within(Trim(raw), Chars(lower))
  {
    TrimFacts(raw);
    forall k | 0 <= k < |Trim(raw)| ensures !('A' <= Trim(raw)[k] <= 'Z') && Trim(raw)[k] in Chars(lower) {
      assert Trim(raw)[k] in raw;
    }
  }

  lemma WordsAreWords(value: string)
    ensures forall k :: 0 <= k < |Words(value)| ==>
      (Words(value)[k] != "" ==> IsWord(Words(value)[k])) && Within(Words(value)[k], Chars(Lower(value)) + {'+'})
  {
    hide Lower, Trim, IsWord, Chars;
    var lower := Lower(value);
    var raw := SplitOn(lower, '+');
    var pieces := TrimAll(raw);
    LowerHasNoUpper(value);
    SplitParts(lower, '+');
    DropTrailingEmptyFacts(pieces);
    forall k | 0 <= k < |pieces|
      ensures (pieces[k] != "" ==> IsWord(pieces[k])) && Within(pieces[k], Chars(lower))
    {
      PieceIsWord(lower, raw[k]);
    }
    PlusIsWord();
  }

  lemma PlusIsWord()
    ensures IsWord("+") && IsWord("escape")
  {
  }

  lemma LowerHasNoUpper(value: string)
    ensures NoUpper(Lower(value))
  {
  }

  ghost predicate KeyReadable(partial: Partial, allowed: set<char>) {
    partial.key.Some? ==>
      Within(partial.key.value, allowed) && Readable(Shortcut(partial.key.value, false, false, false, false, false))
  }

  lemma TakeEffect(partial: Partial, token: string)
    requires Take(partial, token).Some?
    ensures var key := Take(partial, token).value.key;
      key == partial.key || (token !in MODIFIER_WORDS && key == Some(NormalizeKeyToken(token)))
  {
  }

  lemma NormalizedReadable(token: string, allowed: set<char>)
    requires IsWord(token) && token !in MODIFIER_WORDS && Within(token, allowed) && Within(" escape", allowed)
    ensures Within(NormalizeKeyToken(token), allowed)
    ensures Readable(Shortcut(NormalizeKeyToken(token), false, false, false, false, false))
  {
    hide IsWord;
    PlusIsWord();
    if token == "esc" {
      assert "escape" == " escape"[1..];
      assert forall x :: x in "escape" ==> x in " escape";
    } else if token == "space" {
      assert " " == " escape"[..1];
      assert forall x :: x in " " ==> x in " escape";
    }
  }

  lemma TakeReadable(partial: Partial, token: string, allowed: set<char>)
    requires KeyReadable(partial, allowed) && IsWord(token) && Within(token, allowed) && Within(" escape", allowed)
    ensures Take(partial, token).Some? ==> KeyReadable(Take(partial, token).value, allowed)
  {
    hide IsWord, Take, Within, Readable, NormalizeKeyToken;
    if Take(partial, token).Some? {
      TakeEffect(partial, token);
      if token !in MODIFIER_WORDS {
        NormalizedReadable(token, allowed);
      }
    }
  }

  lemma {:induction false} TakeAllReadable(partial: Partial, tokens: seq<string>, allowed: set<char>)
    requires KeyReadable(partial, allowed) && Within(" escape", allowed)
    requires forall k :: 0 <= k < |tokens| ==> IsWord(tokens[k]) && Within(tokens[k], allowed)
    ensures TakeAll(partial, tokens).Some? ==> KeyReadable(TakeAll(partial, tokens).value, allowed)
    decreases |tokens|
  {
    hide Take, IsWord, Within, KeyReadable;
    if tokens != [] {
      TakeReadable(partial, tokens[0], allowed);
      var next := Take(partial, tokens[0]);
      if next.Some? {
        TakeAllReadable(next.value, tokens[1..], allowed);
      }
    }
  }

  /**
   * What reading gives is readable, and its key has no characters but those of the text and of the names of special
   * keys.
   */
  lemma ParsedIsReadable(value: string)
    requires Parsed(value).Some?
    ensures Readable(Parsed(value).value)
    ensures Within(Parsed(value).value.key, Chars(Lower(value)) + {'+'} + Chars(" escape"))
  {
    hide Words, Lower, TakeAll, IsWord;
    WordsAreWords(value);
    var words := Words(value);
    var allowed := Chars(Lower(value)) + {'+'} + Chars(" escape");
    assert Within(" escape", Chars(" escape"));
    forall k | 0 <= k < |words| ensures IsWord(words[k]) && Within(words[k], allowed) {
      assert words[k] in words;
    }
    TakeAllReadable(NOTHING, words, allowed);
  }

  // ---- what is written is read back ----

  lemma {:induction false} JoinNoUpper(words: seq<string>)
    requires forall k :: 0 <= k < |words| ==> NoUpper(words[k])
    ensures NoUpper(Join(words, '+'))
  {
    if |words| > 1 {
      JoinNoUpper(words[1..]);
    }
  }

  lemma LowerSame(s: string)
    requires NoUpper(s)
    ensures Lower(s) == s
  {
  }

  /** A modifier that is written if it is set, in front of other words. */
  lemma TakeIf(partial: Partial, flag: bool, word: string, rest: seq<string>, next: Partial)
    requires Take(partial, word) == Some(next)
    ensures TakeAll(partial, If(flag, word) + rest) == TakeAll(if flag then next else partial, rest)
  {
    if flag {
      assert (If(flag, word) + rest)[1..] == rest;
    } else {
      assert If(flag, word) + rest == rest;
    }
  }

  lemma ModifiersFrom(s: Shortcut, rest: seq<string>)
    ensures Modifiers(s) + rest ==
      If(s.mod, "mod") + (If(s.meta, "meta")
        + (If(s.ctrl, "ctrl") + (If(s.alt, "alt") + (If(s.shift, "shift") + rest))))
  {
    hide If;
  }

  lemma TakeModifiers(s: Shortcut, rest: seq<string>)
    ensures TakeAll(NOTHING, Modifiers(s) + rest) == TakeAll(Partial(None, s.meta, s.ctrl, s.shift, s.alt, s.mod), rest)
  {
    hide TakeAll, If;
    var p1 := NOTHING.(mod := s.mod);
    var p2 := p1.(meta := s.meta);
    var p3 := p2.(ctrl := s.ctrl);
    var p4 := p3.(alt := s.alt);
    var r5 := If(s.shift, "shift") + rest;
    var r4 := If(s.alt, "alt") + r5;
    var r3 := If(s.ctrl, "ctrl") + r4;
    var r2 := If(s.meta, "meta") + r3;
    ModifiersFrom(s, rest);
    hide Modifiers;
    TakeIf(NOTHING, s.mod, "mod", r2, NOTHING.(mod := true));
    TakeIf(p1, s.meta, "meta", r3, p1.(meta := true));
    TakeIf(p2, s.ctrl, "ctrl", r4, p2.(ctrl := true));
    TakeIf(p3, s.alt, "alt", r5, p3.(alt := true));
    TakeIf(p4, s.shift, "shift", rest, p4.(shift := true));
  }

  lemma WordsStay(s: Shortcut)
    requires Readable(s)
    ensures var words := Modifiers(s) + [KeyWord(s.key)];
      forall k :: 0 <= k < |words| ==> NoUpper(words[k]) && Trim(words[k]) == words[k]
    ensures TrimAll(Pieces(s)) == Pieces(s)
  {
    hide Modifiers;
    var words, pieces := Modifiers(s) + [KeyWord(s.key)], Pieces(s);
    ModifierFacts(s);
    forall k | 0 <= k < |words| ensures NoUpper(words[k]) && Trim(words[k]) == words[k] {
      if k < |Modifiers(s)| {
        assert words[k] == Modifiers(s)[k];
      }
      TrimmedStays(words[k]);
    }
    forall k | 0 <= k < |pieces| ensures Trim(pieces[k]) == pieces[k] {
      if k < |Modifiers(s)| {
        assert pieces[k] == words[k];
      }
    }
  }

  lemma TrailingEmptyOfPieces(s: Shortcut)
    requires Readable(s)
    ensures DropTrailingEmpty(Pieces(s)) == if s.key == "+" then Modifiers(s) else Pieces(s)
  {
    hide Modifiers;
    var pieces := Pieces(s);
    ModifierFacts(s);
    if s.key == "+" {
      assert pieces[..|pieces| - 1][..|pieces| - 2] == Modifiers(s);
      assert DropTrailingEmpty(pieces) == DropTrailingEmpty(pieces[..|pieces| - 1]) == DropTrailingEmpty(Modifiers(s));
    } else {
      assert pieces[|pieces| - 1] == KeyWord(s.key);
    }
  }

  lemma WrittenWords(s: Shortcut)
    requires Readable(s)
    ensures Encoded(s).Some? && Words(Encoded(s).value) == Modifiers(s) + [KeyWord(s.key)]
  {
    var words := Modifiers(s) + [KeyWord(s.key)];
    assert Encoded(s) == Some(Join(words, '+'));
    hide Modifiers, Join, SplitOn, Readable, TrimAll, DropTrailingEmpty, Encoded;
    WordsStay(s);
    JoinNoUpper(words);
    LowerSame(Encoded(s).value);
    EncodedSplits(s);
    TrailingEmptyOfPieces(s);
  }

  /** Every shortcut that can be read is read back from its written form. */
  lemma EncodedReadsBack(s: Shortcut)
    requires Readable(s)
    ensures Encoded(s).Some? && Parsed(Encoded(s).value) == Some(s)
  {
    WrittenWords(s);
    hide Words, Modifiers, Encoded, TakeAll, Take, Readable;
    var words := Modifiers(s) + [KeyWord(s.key)];
    NoEmptyWord(s);
    TakeModifiers(s, [KeyWord(s.key)]);
    TakeKey(s);
  }

  lemma NoEmptyWord(s: Shortcut)
    requires Readable(s)
    ensures "" !in Modifiers(s) + [KeyWord(s.key)]
  {
    hide Modifiers;
    ModifierFacts(s);
  }

  lemma TakeKey(s: Shortcut)
    requires Readable(s)
    ensures TakeAll(Partial(None, s.meta, s.ctrl, s.shift, s.alt, s.mod), [KeyWord(s.key)]) ==
      Some(Partial(Some(s.key), s.meta, s.ctrl, s.shift, s.alt, s.mod))
  {
    var partial := Partial(None, s.meta, s.ctrl, s.shift, s.alt, s.mod);
    assert Take(partial, KeyWord(s.key)) == Some(partial.(key := Some(s.key)));
  }

  // ---- a shortcut together with its condition ----

  const NUL: char := '\0'

  function Context(key: string, condition: Option<string>): Option<string> {
    match Parsed(key)
    case None => None
    case Some(shortcut) =>
      match Encoded(shortcut)
      case None => None
      case Some(text) => Some(text + [NUL] + condition.UnwrapOr(""))
  }

  predicate SameContext(key: string, condition: Option<string>, otherKey: string, otherCondition: Option<string>) {
    Context(key, condition).Some? && Context(key, condition) == Context(otherKey, otherCondition)
  }

  lemma {:induction false} JoinHasNo(words: seq<string>, c: char)
    requires c != '+' && forall k :: 0 <= k < |words| ==> c !in words[k]
    ensures c !in Join(words, '+')
  {
    if |words| > 1 {
      JoinHasNo(words[1..], c);
    }
  }

  lemma LowerHasNoNul(value: string)
    requires NUL !in value
    ensures NUL !in Chars(Lower(value))
  {
    forall k | 0 <= k < |value| ensures LowerChar(value[k]) != NUL {
      assert value[k] in value;
    }
  }

  lemma KeyHasNoNul(key: string)
    requires NUL !in key && Parsed(key).Some?
    ensures NUL !in Parsed(key).value.key
  {
    hide Parsed, Lower;
    ParsedIsReadable(key);
    LowerHasNoNul(key);
    assert NUL !in Chars(" escape");
  }

  lemma WrittenHasNoNul(s: Shortcut)
    requires NUL !in s.key && Encoded(s).Some?
    ensures NUL !in Encoded(s).value
  {
    hide Modifiers, If, Join;
    var words := Modifiers(s) + [KeyWord(s.key)];
    ModifierFacts(s);
    forall k | 0 <= k < |words| ensures NUL !in words[k] {
      if k < |Modifiers(s)| {
        assert words[k] == Modifiers(s)[k];
      }
    }
    JoinHasNo(words, NUL);
  }

  lemma NulSeparates(a: string, b: string, c: string, d: string)
    requires NUL !in a && NUL !in c && a + [NUL] + b == c + [NUL] + d
    ensures a == c && b == d
  {
    SplitPrefix(a, b, NUL);
    SplitPrefix(c, d, NUL);
    var s := a + [NUL] + b;
    assert a == SplitOn(s, NUL)[0] == c;
    assert b == s[|a| + 1..] == d;
  }

  /** Two rules clash just when both keys can be read, as the same shortcut, and their conditions are the same text. */
  lemma SameContextMeans(key: string, condition: Option<string>, otherKey: string, otherCondition: Option<string>)
    requires NUL !in key && NUL !in otherKey
    ensures SameContext(key, condition, otherKey, otherCondition) <==>
      Parsed(key).Some? && Parsed(key) == Parsed(otherKey) && condition.UnwrapOr("") == otherCondition.UnwrapOr("")
  {
    hide Parsed, Encoded, Readable;
    if Parsed(key).Some? && Parsed(otherKey).Some? {
      var a, b := Parsed(key).value, Parsed(otherKey).value;
      ParsedIsReadable(key);
      ParsedIsReadable(otherKey);
      EncodedReadsBack(a);
      EncodedReadsBack(b);
      KeyHasNoNul(key);
      KeyHasNoNul(otherKey);
      WrittenHasNoNul(a);
      WrittenHasNoNul(b);
      if SameContext(key, condition, otherKey, otherCondition) {
        NulSeparates(Encoded(a).value, condition.UnwrapOr(""), Encoded(b).value, otherCondition.UnwrapOr(""));
      }
    } else if Parsed(key).Some? {
      ParsedIsReadable(key);
      EncodedReadsBack(Parsed(key).value);
    }
  }
}
