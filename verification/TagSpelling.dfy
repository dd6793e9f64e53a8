/** Which texts are release tags: exactly those spelled as a version, and each is read as what its parts state. */
module TagSpelling {
  import opened Optional
  import opened Text
  import opened ReleaseTags
  import opened PreviousRelease

  /** ASCII letters and digits, the dash and the dot, by their codes. */
  predicate IsTagCode(n: int) {
    48 <= n <= 57 || 65 <= n <= 90 || 97 <= n <= 122 || n == 45 || n == 46
  }

  lemma TagChars(c: char)
    ensures IsTagChar(c) <==> IsTagCode(c as int)
  {
  }

  predicate IsDigits(s: string) {
    s != "" && AllDigits(s)
  }

  /** Nothing, or a mark and what it introduces. */
  predicate IsPart(s: string, mark: char) {
    s == "" || (s[0] == mark && |s| > 1 && forall k :: 1 <= k < |s| ==> IsTagCode(s[k] as int))
  }

  lemma PartIsTagText(s: string, mark: char)
    ensures IsPart(s, mark) <==> s == "" || (s[0] == mark && IsTagText(s[1..]))
  {
    if s != "" {
      forall k | 1 <= k < |s| ensures IsTagCode(s[k] as int) <==> IsTagChar(s[k]) {
        TagChars(s[k]);
      }
      assert forall k :: 1 <= k < |s| ==> s[k] == s[1..][k - 1];
    }
  }

  function CoreText(a: string, b: string, c: string, rest: string): string {
    "v" + (a + ("." + (b + ("." + (c + rest)))))
  }

  lemma DigitsRead(a: string, rest: string)
    requires IsDigits(a) && (rest != "" ==> !IsDigit(rest[0]))
    ensures TakeNumber(a + rest) == Some(Number(NumeralValue(a), rest))
  {
    RunOfConcat(a, rest, IsDigit);
    assert (a + rest)[..|a|] == a && (a + rest)[|a|..] == rest;
  }

  lemma DigitsAndTextRead(a: string, text: string, rest: string)
    requires IsDigits(a) && text != "" && !IsDigit(text[0])
    ensures TakeNumberAnd(a + (text + rest), text) == Some(Number(NumeralValue(a), rest))
  {
    DigitsRead(a, text + rest);
    TextReads(text, rest);
  }

  lemma CoreTextReads(a: string, b: string, c: string, rest: string)
    requires IsDigits(a) && IsDigits(b) && IsDigits(c) && (rest != "" ==> !IsDigit(rest[0]))
    ensures TakeCore(CoreText(a, b, c, rest)) ==
      Some(Core(NumeralValue(a), NumeralValue(b), NumeralValue(c), rest))
  {
    hide TakeNumberAnd, TakeNumber, TakeText, NumeralValue;
    var afterB := c + rest;
    var afterA := b + ("." + afterB);
    TextReads("v", a + ("." + afterA));
    DigitsAndTextRead(a, ".", afterA);
    DigitsAndTextRead(b, ".", afterB);
    DigitsRead(c, rest);
  }

  lemma NumberWas(s: string) returns (digits: string)
    requires TakeNumber(s).Some?
    ensures IsDigits(digits) && |digits| == Run(s, IsDigit) && s == digits + TakeNumber(s).value.rest
    ensures TakeNumber(s).value.value == NumeralValue(digits)
  {
    digits := s[..Run(s, IsDigit)];
  }

  lemma NumberAndTextWere(s: string, text: string) returns (digits: string)
    requires TakeNumberAnd(s, text).Some?
    ensures IsDigits(digits) && |digits| == Run(s, IsDigit)
    ensures s == digits + (text + TakeNumberAnd(s, text).value.rest)
    ensures TakeNumberAnd(s, text).value.value == NumeralValue(digits)
  {
    digits := NumberWas(s);
    var rest := TakeNumber(s).value.rest;
    assert rest == text + rest[|text|..];
  }

  lemma CoreWas(s: string) returns (a: string, b: string, c: string)
    requires TakeCore(s).Some?
    ensures IsDigits(a) && IsDigits(b) && IsDigits(c) && s == CoreText(a, b, c, TakeCore(s).value.rest)
    ensures TakeCore(s) ==
      Some(Core(NumeralValue(a), NumeralValue(b), NumeralValue(c), TakeCore(s).value.rest))
  {
    assert s == "v" + s[1..];
    hide TakeNumberAnd, TakeNumber, NumeralValue;
    a := NumberAndTextWere(s[1..], ".");
    var major := TakeNumberAnd(s[1..], ".").value;
    b := NumberAndTextWere(major.rest, ".");
    var minor := TakeNumberAnd(major.rest, ".").value;
    c := NumberWas(minor.rest);
  }

  // ---- stable tags ----

  predicate IsStableSpelling(tag: string, a: string, b: string, c: string, prerelease: string, build: string) {
    && IsDigits(a) && IsDigits(b) && IsDigits(c) && IsPart(prerelease, '-') && IsPart(build, '+')
    && tag == CoreText(a, b, c, prerelease + build)
  }

  function StatedIdentifiers(prerelease: string): seq<string> {
    if prerelease == "" then [] else SplitOn(prerelease[1..], '.')
  }

  lemma SuffixIsRead(prerelease: string, build: string)
    requires IsPart(prerelease, '-') && IsPart(build, '+')
    ensures PrereleaseIdentifiers(prerelease + build) == Some(StatedIdentifiers(prerelease))
  {
    PartIsTagText(prerelease, '-');
    PartIsTagText(build, '+');
    var suffix := prerelease + build;
    if prerelease == "" {
      assert suffix == build;
    } else {
      var text := prerelease[1..];
      assert suffix[1..] == text + build;
      RunOfConcat(text, build, IsTagChar);
      assert suffix[1..1 + |text|] == text && suffix[1 + |text|..] == build;
    }
  }

  lemma SuffixWas(suffix: string) returns (prerelease: string, build: string)
    requires PrereleaseIdentifiers(suffix).Some?
    ensures IsPart(prerelease, '-') && IsPart(build, '+') && suffix == prerelease + build
  {
    if suffix != "" && suffix[0] == '-' {
      var n := Run(suffix[1..], IsTagChar);
      prerelease, build := suffix[..1 + n], suffix[1 + n..];
      assert prerelease[1..] == suffix[1..][..n];
    } else {
      prerelease, build := "", suffix;
    }
    PartIsTagText(prerelease, '-');
    PartIsTagText(build, '+');
  }

  /** Every spelling of a version is a stable tag, unless its first identifier says that it is a nightly. */
  lemma StableSpellingReads(tag: string, a: string, b: string, c: string, prerelease: string, build: string)
    requires IsStableSpelling(tag, a, b, c, prerelease, build)
    ensures var identifiers := StatedIdentifiers(prerelease);
      ParseStableTag(tag) ==
        if identifiers != [] && identifiers[0] == "nightly" then None
        else Some(StableVersion(NumeralValue(a), NumeralValue(b), NumeralValue(c), identifiers))
  {
    var rest := prerelease + build;
    assert rest != "" ==> !IsDigit(rest[0]);
    CoreTextReads(a, b, c, rest);
    SuffixIsRead(prerelease, build);
    hide TakeCore, PrereleaseIdentifiers, NumeralValue, CoreText, StatedIdentifiers, IsPart;
  }

  /** And nothing else is. */
  lemma StableTagsAreSpelled(tag: string) returns (a: string, b: string, c: string, prerelease: string, build: string)
    requires ParseStableTag(tag).Some?
    ensures IsStableSpelling(tag, a, b, c, prerelease, build)
  {
    a, b, c := CoreWas(tag);
    prerelease, build := SuffixWas(TakeCore(tag).value.rest);
  }

  // ---- nightly tags ----

  /** The old prefix or none, a core, and a date of eight digits with the number of the run. */
  predicate IsNightlySpelling(tag: string, prefix: string, a: string, b: string, c: string, date: string, run: string) {
    && (prefix == "" || prefix == "nightly-") && IsDigits(a) && IsDigits(b) && IsDigits(c)
    && IsDigits(date) && |date| == 8 && IsDigits(run)
    && tag == prefix + CoreText(a, b, c, "-nightly." + (date + ("." + run)))
  }

  lemma NightlySpellingReads(tag: string, prefix: string, a: string, b: string, c: string, date: string, run: string)
    requires IsNightlySpelling(tag, prefix, a, b, c, date, run)
    ensures ParseNightlyTag(tag) ==
      Some(NightlyVersion(NumeralValue(a), NumeralValue(b), NumeralValue(c), NumeralValue(date), NumeralValue(run)))
  {
    var tail := date + ("." + run);
    var core := CoreText(a, b, c, "-nightly." + tail);
    NightlyPrefix(tag, prefix, core);
    CoreTextReads(a, b, c, "-nightly." + tail);
    TextReads("-nightly.", tail);
    RunOfConcat(date, "." + run, IsDigit);
    DigitsAndTextRead(date, ".", run);
    assert run + "" == run;
    DigitsRead(run, "");
    hide TakeCore, TakeNumber, TakeNumberAnd, TakeText, NumeralValue, CoreText, Run;
  }

  lemma NightlyPrefix(tag: string, prefix: string, core: string)
    requires (prefix == "" || prefix == "nightly-") && tag == prefix + core && core != "" && core[0] == 'v'
    ensures TakeText(tag, "nightly-").UnwrapOr(tag) == core
  {
    if prefix == "" {
      assert tag == core && tag[0] != "nightly-"[0];
    } else {
      TextReads("nightly-", core);
    }
  }

  lemma NightlyTagsAreSpelled(tag: string)
      returns (prefix: string, a: string, b: string, c: string, date: string, run: string)
    requires ParseNightlyTag(tag).Some?
    ensures IsNightlySpelling(tag, prefix, a, b, c, date, run)
  {
    hide TakeCore, TakeNumber, TakeNumberAnd, TakeText, NumeralValue, CoreText, Run;
    var core;
    prefix, core := PrefixWas(tag);
    a, b, c := CoreWas(core);
    var rest := TakeCore(core).value.rest;
    var tail := TakeText(rest, "-nightly.").value;
    TextWas(rest, "-nightly.");
    date := NumberAndTextWere(tail, ".");
    run := NumberWas(TakeNumberAnd(tail, ".").value.rest);
    assert run + "" == run;
  }

  lemma TextWas(s: string, text: string)
    requires TakeText(s, text).Some?
    ensures s == text + TakeText(s, text).value
  {
  }

  lemma PrefixWas(tag: string) returns (prefix: string, core: string)
    ensures core == TakeText(tag, "nightly-").UnwrapOr(tag)
    ensures (prefix == "" || prefix == "nightly-") && tag == prefix + core
  {
    var taken := TakeText(tag, "nightly-");
    prefix := if taken.Some? then "nightly-" else "";
    core := taken.UnwrapOr(tag);
    assert tag == prefix + core;
  }
}
