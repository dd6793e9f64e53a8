/** Key combinations: how they are read, written, and compared together with their condition. */
module Shortcuts {
  import opened Optional
  import opened Text

  datatype Shortcut = Shortcut(key: string, meta: bool, ctrl: bool, shift: bool, alt: bool, mod: bool)

  /** Lower case, of ASCII letters only. */
  function LowerChar(c: char): char {
    if 'A' <= c <= 'Z' then 'a' + (c - 'A') else c
  }

  function Lower(s: string): string {
    seq(|s|, k requires 0 <= k < |s| => LowerChar(s[k]))
  }

  // ---- reading ----

  const MODIFIER_WORDS: set<string> := {"cmd", "meta", "ctrl", "control", "shift", "alt", "option", "mod"}

  function NormalizeKeyToken(token: string): string {
    if token == "space" then " " else if token == "esc" then "escape" else token
  }

  /** What the words so far amount to. */
  datatype Partial = Partial(key: Option<string>, meta: bool, ctrl: bool, shift: bool, alt: bool, mod: bool)

  const NOTHING := Partial(None, false, false, false, false, false)

  function Take(partial: Partial, token: string): Option<Partial> {
    if token == "cmd" || token == "meta" then Some(partial.(meta := true))
    else if token == "ctrl" || token == "control" then Some(partial.(ctrl := true))
    else if token == "shift" then Some(partial.(shift := true))
    else if token == "alt" || token == "option" then Some(partial.(alt := true))
    else if token == "mod" then Some(partial.(mod := true))
    else if partial.key.Some? then None
    else Some(partial.(key := Some(NormalizeKeyToken(token))))
  }

  function TakeAll(partial: Partial, tokens: seq<string>): Option<Partial>
    decreases |tokens|
  {
    if tokens == [] then Some(partial)
    else
      match Take(partial, tokens[0])
      case None => None
      case Some(next) => TakeAll(next, tokens[1..])
  }

  function TrimAll(pieces: seq<string>): seq<string> {
    seq(|pieces|, k requires 0 <= k < |pieces| => Trim(pieces[k]))
  }

  function DropTrailingEmpty(pieces: seq<string>): seq<string> {
    if pieces != [] && pieces[|pieces| - 1] == "" then DropTrailingEmpty(pieces[..|pieces| - 1]) else pieces
  }

  /** The words between plus signs; signs at the end stand for the plus key. */
  function Words(value: string): seq<string> {
    var pieces := TrimAll(SplitOn(Lower(value), '+'));
    var words := DropTrailingEmpty(pieces);
    if words == pieces then words else words + ["+"]
  }

  function Parsed(value: string): Option<Shortcut> {
    var words := Words(value);
    if "" in words then None
    else
      match TakeAll(NOTHING, words)
      case Some(Partial(Some(key), meta, ctrl, shift, alt, mod)) => Some(Shortcut(key, meta, ctrl, shift, alt, mod))
      case _ => None
  }

  method ParseKeybindingShortcut(value: string) returns (r: Option<Shortcut>)
    ensures r == Parsed(value)
  {
    var rawTokens := TrimAll(SplitOn(Lower(value), '+'));
    var tokens := rawTokens;
    var trailingEmptyCount := 0;
    while tokens != [] && tokens[|tokens| - 1] == ""
      invariant DropTrailingEmpty(rawTokens) == DropTrailingEmpty(tokens)
      invariant |tokens| + trailingEmptyCount == |rawTokens|
      invariant tokens <= rawTokens
      decreases |tokens|
    {
      trailingEmptyCount := trailingEmptyCount + 1;
      tokens := tokens[..|tokens| - 1];
    }
    if trailingEmptyCount > 0 {
      tokens := tokens + ["+"];
    }
    assert tokens == Words(value);
    if "" in tokens || tokens == [] {
      return None;
    }
    hide Words, TrimAll, SplitOn, Lower, DropTrailingEmpty;
    var partial := CollectTokens(tokens);
    if partial.None? || partial.value.key.None? {
      return None;
    }
    var found := partial.value;
    r := Some(Shortcut(found.key.value, found.meta, found.ctrl, found.shift, found.alt, found.mod));
  }

  /** The loop over the words. */
  method CollectTokens(tokens: seq<string>) returns (r: Option<Partial>)
    ensures r == TakeAll(NOTHING, tokens)
  {
    hide Take;
    var partial := NOTHING;
    assert tokens[0..] == tokens;
    for i := 0 to |tokens|
      invariant TakeAll(NOTHING, tokens) == TakeAll(partial, tokens[i..])
    {
      var next := Take(partial, tokens[i]);
      assert tokens[i..][0] == tokens[i] && tokens[i..][1..] == tokens[i + 1..];
      if next.None? {
        return None;
      }
      partial := next.value;
    }
    return Some(partial);
  }

  // ---- writing ----

  function If(flag: bool, word: string): seq<string> {
    if flag then [word] else []
  }

  function Modifiers(s: Shortcut): seq<string> {
    If(s.mod, "mod") + If(s.meta, "meta") + If(s.ctrl, "ctrl") + If(s.alt, "alt") + If(s.shift, "shift")
  }

  function KeyWord(key: string): string {
    if key == " " then "space" else key
  }

  function Encoded(s: Shortcut): Option<string> {
    if s.key == "" || (s.key != "+" && '+' in s.key) then None
    else Some(Join(Modifiers(s) + [KeyWord(s.key)], '+'))
  }

  method EncodeShortcut(s: Shortcut) returns (r: Option<string>)
    ensures r == Encoded(s)
  {
    var modifiers: seq<string> := [];
    if s.mod { modifiers := modifiers + ["mod"]; }
    if s.meta { modifiers := modifiers + ["meta"]; }
    if s.ctrl { modifiers := modifiers + ["ctrl"]; }
    if s.alt { modifiers := modifiers + ["alt"]; }
    if s.shift { modifiers := modifiers + ["shift"]; }
    assert modifiers == Modifiers(s);
    hide Modifiers, Join;
    if s.key == "" {
      return None;
    }
    if s.key != "+" && '+' in s.key {
      return None;
    }
    var key := if s.key == " " then "space" else s.key;
    return Some(Join(modifiers + [key], '+'));
  }

  // ---- what is written tells the shortcut ----

  /** The pieces between the plus signs of the written form. */
  function Pieces(s: Shortcut): seq<string> {
    Modifiers(s) + if s.key == "+" then ["", ""] else [KeyWord(s.key)]
  }

  lemma {:induction false} JoinPlus(words: seq<string>)
    ensures Join(words + ["+"], '+') == Join(words + ["", ""], '+')
  {
    if words == [] {
      assert [] + ["+"] == ["+"] && [] + ["", ""] == ["", ""];
      assert Join(["", ""], '+') == "" + ['+'] + Join(["", ""][1..], '+');
      assert ["", ""][1..] == [""];
    } else {
      JoinPlus(words[1..]);
      assert (words + ["+"])[1..] == words[1..] + ["+"];
      assert (words + ["", ""])[1..] == words[1..] + ["", ""];
    }
  }

  lemma ModifierFacts(s: Shortcut)
    ensures forall k :: 0 <= k < |Modifiers(s)| ==>
      var word := Modifiers(s)[k]; word in {"mod", "meta", "ctrl", "alt", "shift"}
    ensures s.mod <==> "mod" in Modifiers(s)
    ensures s.meta <==> "meta" in Modifiers(s)
    ensures s.ctrl <==> "ctrl" in Modifiers(s)
    ensures s.alt <==> "alt" in Modifiers(s)
    ensures s.shift <==> "shift" in Modifiers(s)
  {
  }

  lemma EncodedSplits(s: Shortcut)
    requires Encoded(s).Some?
    ensures SplitOn(Encoded(s).value, '+') == Pieces(s)
  {
    hide Modifiers, If, SplitOn;
    ModifierFacts(s);
    JoinPlus(Modifiers(s));
    var pieces := Pieces(s);
    forall k | 0 <= k < |pieces| ensures '+' !in pieces[k] {
      if k < |Modifiers(s)| {
        assert pieces[k] == Modifiers(s)[k];
      }
    }
    SplitOfJoin(pieces, '+');
  }

  /**
   * Two shortcuts are written alike only when their modifiers agree and their keys are the same, or a space and the
   * word for it.
   */
  lemma EncodingTellsShortcut(a: Shortcut, b: Shortcut)
    requires Encoded(a).Some? && Encoded(b).Some?
    ensures Encoded(a) == Encoded(b) <==> KeyWord(a.key) == KeyWord(b.key) && a.(key := b.key) == b
  {
    hide Modifiers, If, Join, Pieces;
    if Encoded(a) == Encoded(b) {
      EncodedSplits(a);
      EncodedSplits(b);
      PiecesTellShortcut(a, b);
    } else if a.(key := b.key) == b && KeyWord(a.key) == KeyWord(b.key) {
      SameModifiers(a, b);
    }
  }

  lemma SameModifiers(a: Shortcut, b: Shortcut)
    requires a.(key := b.key) == b
    ensures Modifiers(a) == Modifiers(b)
  {
  }

  lemma PiecesTellShortcut(a: Shortcut, b: Shortcut)
    requires a.key != "" && b.key != "" && Pieces(a) == Pieces(b)
    ensures KeyWord(a.key) == KeyWord(b.key) && a.(key := b.key) == b
  {
    hide Modifiers, If;
    var p, q := Pieces(a), Pieces(b);
    assert p[|p| - 1] == "" <==> a.key == "+";
    assert q[|q| - 1] == "" <==> b.key == "+";
    assert |Modifiers(a)| == |Modifiers(b)|;
    assert Modifiers(a) == p[..|Modifiers(a)|] && Modifiers(b) == q[..|Modifiers(b)|];
    ModifierFacts(a);
    ModifierFacts(b);
  }
}
