/** How exact service versions are written, and their comparison on texts. */
module ServiceVersionText {
  import opened Optional
  import opened Ordering
  import opened Text
  import opened ServiceVersion

  /** The text before the first occurrence of a character. */
  function Before(s: string, c: char): string {
    if s == "" || s[0] == c then "" else [s[0]] + Before(s[1..], c)
  }

  /** The text after it, if it occurs. */
  function After(s: string, c: char): Option<string> {
    if s == "" then None else if s[0] == c then Some(s[1..]) else After(s[1..], c)
  }

  function WithoutBuild(version: string): string {
    Before(version, '+')
  }

  function CoreTexts(version: string): seq<string> {
    SplitOn(Before(WithoutBuild(version), '-'), '.')
  }

  function Pieces(text: Option<string>): seq<string> {
    if text.Some? then SplitOn(text.value, '.') else []
  }

  function PrereleaseTexts(version: string): seq<string> {
    Pieces(After(WithoutBuild(version), '-'))
  }

  /** Digits without a superfluous zero in front. */
  predicate IsNumber(s: string) {
    s != "" && AllDigits(s) && (s[0] == '0' ==> |s| == 1)
  }

  predicate IsWordChar(c: char) {
    IsDigit(c) || 'a' <= c <= 'z' || 'A' <= c <= 'Z' || c == '-'
  }

  lemma WordCodes(c: char)
    ensures var n := c as int; IsWordChar(c) <==> 48 <= n <= 57 || 65 <= n <= 90 || 97 <= n <= 122 || n == 45
  {
  }

  predicate IsWord(s: string) {
    s != "" && forall k :: 0 <= k < |s| ==> IsWordChar(s[k])
  }

  predicate IsIdentifier(s: string) {
    IsWord(s) && (AllDigits(s) ==> IsNumber(s))
  }

  predicate IsExactServiceVersion(version: string) {
    && |CoreTexts(version)| == 3
    && (forall k :: 0 <= k < 3 ==> IsNumber(CoreTexts(version)[k]))
    && (forall k :: 0 <= k < |PrereleaseTexts(version)| ==> IsIdentifier(PrereleaseTexts(version)[k]))
    && (forall k :: 0 <= k < |Pieces(After(version, '+'))| ==> IsWord(Pieces(After(version, '+'))[k]))
  }

  function ReadIdentifier(s: string): Identifier {
    if AllDigits(s) then Numeric(NumeralValue(s)) else Alphanumeric(s)
  }

  function ReadIdentifiers(texts: seq<string>): seq<Identifier> {
    seq(|texts|, k requires 0 <= k < |texts| => ReadIdentifier(texts[k]))
  }

  function Read(version: string): Version
    requires IsExactServiceVersion(version)
  {
    var core := CoreTexts(version);
    assert IsNumber(core[0]) && IsNumber(core[1]) && IsNumber(core[2]);
    Version(NumeralValue(core[0]), NumeralValue(core[1]), NumeralValue(core[2]),
            ReadIdentifiers(PrereleaseTexts(version)), After(version, '+').UnwrapOr(""))
  }

  function SpelledIdentifier(x: Identifier): string {
    match x
    case Numeric(n) => Numeral(n)
    case Alphanumeric(text) => text
  }

  function SpelledIdentifiers(identifiers: seq<Identifier>): seq<string> {
    seq(|identifiers|, k requires 0 <= k < |identifiers| => SpelledIdentifier(identifiers[k]))
  }

  function Spelled(v: Version): string {
    Join([Numeral(v.major), Numeral(v.minor), Numeral(v.patch)], '.')
    + (if v.prerelease == [] then "" else "-" + Join(SpelledIdentifiers(v.prerelease), '.'))
    + (if v.build == "" then "" else "+" + v.build)
  }

  method CompareExactServiceVersions(left: string, right: string) returns (r: int)
    requires IsExactServiceVersion(left) && IsExactServiceVersion(right)
    ensures r == Compare(Read(left), Read(right))
  {
    hide IsExactServiceVersion, ComparePrereleases, ReadIdentifier;
    var a, b := CoreTexts(left), CoreTexts(right);
    ExactCore(left);
    ExactCore(right);
    for index := 0 to 3
      invariant forall k :: 0 <= k < index ==> NumeralValue(a[k]) == NumeralValue(b[k])
    {
      var x, y := NumeralValue(a[index]), NumeralValue(b[index]);
      if x != y {
        return if x < y then -1 else 1;
      }
    }
    assert forall k :: 0 <= k < 3 ==> NumeralValue(a[k]) == NumeralValue(b[k]);
    r := ComparePrereleaseTexts(left, right);
  }

  lemma ExactCore(version: string)
    requires IsExactServiceVersion(version)
    ensures |CoreTexts(version)| == 3 && forall k :: 0 <= k < 3 ==> AllDigits(CoreTexts(version)[k])
  {
    forall k | 0 <= k < 3 ensures AllDigits(CoreTexts(version)[k]) {
      assert IsNumber(CoreTexts(version)[k]);
    }
  }

  lemma PrereleaseReads(version: string)
    requires IsExactServiceVersion(version)
    ensures var texts, identifiers := PrereleaseTexts(version), Read(version).prerelease;
      && |identifiers| == |texts|
      && forall k :: 0 <= k < |texts| ==> IsIdentifier(texts[k]) && identifiers[k] == ReadIdentifier(texts[k])
  {
  }

  /** The second half of the comparison. */
  method ComparePrereleaseTexts(left: string, right: string) returns (r: int)
    requires IsExactServiceVersion(left) && IsExactServiceVersion(right)
    ensures r == ComparePrereleases(Read(left).prerelease, Read(right).prerelease)
  {
    var a, b := PrereleaseTexts(left), PrereleaseTexts(right);
    ghost var p, q := Read(left).prerelease, Read(right).prerelease;
    PrereleaseReads(left);
    PrereleaseReads(right);
    hide Read, IsExactServiceVersion, PrereleaseTexts, ReadIdentifiers, IsIdentifier;
    if a == [] || b == [] {
      return if |a| == |b| then 0 else if a == [] then 1 else -1;
    }
    var count := if |a| >= |b| then |a| else |b|;
    var index := 0;
    while index < count
      invariant index <= |a| && index <= |b|
      invariant CompareSeqs(CompareIdentifiers, p, q) == CompareSeqs(CompareIdentifiers, p[index..], q[index..])
    {
      if index == |a| || index == |b| {
        return if index == |a| then -1 else 1;
      }
      var x, y := a[index], b[index];
      assert p[index..][1..] == p[index + 1..] && q[index..][1..] == q[index + 1..];
      TextDecides(x, y);
      CompareIdentifiersZero(p[index], q[index]);
      if x != y {
        var xNumeric, yNumeric := AllDigits(x), AllDigits(y);
        if xNumeric && yNumeric {
          return if NumeralValue(x) < NumeralValue(y) then -1 else 1;
        }
        if xNumeric != yNumeric {
          return if xNumeric then -1 else 1;
        }
        return if CompareStrings(x, y) < 0 then -1 else 1;
      }
      index := index + 1;
    }
    return 0;
  }

  lemma {:induction false} NumeralSpells(s: string)
    requires IsNumber(s)
    ensures Numeral(NumeralValue(s)) == s
  {
    if |s| == 1 {
      assert NumeralValue(s[..0]) == 0;
    } else {
      var rest := s[..|s| - 1];
      NumeralSpells(rest);
      assert NumeralValue(rest) > 0 by {
        if NumeralValue(rest) == 0 {
          assert false;
        }
      }
      assert s == rest + [s[|s| - 1]];
    }
  }

  lemma SpelledAsRead(s: string)
    requires IsIdentifier(s)
    ensures SpelledIdentifier(ReadIdentifier(s)) == s
  {
    if AllDigits(s) {
      NumeralSpells(s);
    }
  }

  /** Identifiers are the same just when their texts are. */
  lemma TextDecides(x: string, y: string)
    requires IsIdentifier(x) && IsIdentifier(y)
    ensures ReadIdentifier(x) == ReadIdentifier(y) <==> x == y
  {
    SpelledAsRead(x);
    SpelledAsRead(y);
  }

  lemma {:induction false} BeforeAndAfter(s: string, c: char)
    ensures s == Before(s, c) + (if After(s, c).Some? then [c] + After(s, c).value else "")
  {
    if s != "" && s[0] != c {
      BeforeAndAfter(s[1..], c);
      assert s == [s[0]] + s[1..];
    }
  }

  lemma SpelledAsReadAll(texts: seq<string>)
    requires forall k :: 0 <= k < |texts| ==> IsIdentifier(texts[k])
    ensures SpelledIdentifiers(ReadIdentifiers(texts)) == texts
  {
    forall k | 0 <= k < |texts| ensures SpelledIdentifier(ReadIdentifier(texts[k])) == texts[k] {
      SpelledAsRead(texts[k]);
    }
  }

  lemma BuildIsNotEmpty(version: string)
    requires IsExactServiceVersion(version)
    ensures After(version, '+') != Some("")
  {
    assert Pieces(Some(""))[0] == "";
    if After(version, '+') == Some("") {
      assert false;
    }
  }

  /** What was read is spelled as it was. */
  lemma ReadSpellsBack(version: string)
    requires IsExactServiceVersion(version)
    ensures Spelled(Read(version)) == version
  {
    var plain, core := WithoutBuild(version), CoreTexts(version);
    BeforeAndAfter(version, '+');
    BeforeAndAfter(plain, '-');
    JoinOfSplit(Before(plain, '-'), '.');
    forall k | 0 <= k < 3 ensures Numeral(NumeralValue(core[k])) == core[k] {
      assert IsNumber(core[k]);
      NumeralSpells(core[k]);
    }
    assert core == [core[0], core[1], core[2]];
    SpelledAsReadAll(PrereleaseTexts(version));
    if After(plain, '-').Some? {
      JoinOfSplit(After(plain, '-').value, '.');
    }
    BuildIsNotEmpty(version);
  }

  lemma PlainIsSpelled(version: string)
    requires IsExactServiceVersion(version)
    ensures WithoutBuild(version) == Spelled(Read(version).(build := ""))
  {
    ReadSpellsBack(version);
    BeforeAndAfter(version, '+');
    BuildIsNotEmpty(version);
    var plain, build := Spelled(Read(version).(build := "")), Read(version).build;
    var tail := if build == "" then "" else "+" + build;
    SpelledEnds(Read(version));
    assert version == WithoutBuild(version) + tail;
    hide *;
    SameFront(plain, WithoutBuild(version), tail);
  }

  lemma SpelledEnds(v: Version)
    ensures Spelled(v) == Spelled(v.(build := "")) + if v.build == "" then "" else "+" + v.build
  {
    assert Spelled(v.(build := "")) + "" == Spelled(v.(build := ""));
  }

  lemma SameFront(a: string, b: string, tail: string)
    requires a + tail == b + tail
    ensures a == b
  {
    assert |a| == |b|;
    assert a == (a + tail)[..|a|] && b == (b + tail)[..|a|];
  }

  /** Two versions tie exactly when their texts agree up to the build metadata. */
  lemma TiesAreTheSameText(a: string, b: string)
    requires IsExactServiceVersion(a) && IsExactServiceVersion(b)
    ensures Compare(Read(a), Read(b)) == 0 <==> WithoutBuild(a) == WithoutBuild(b)
  {
    TiesDifferOnlyInBuild(Read(a), Read(b));
    PlainIsSpelled(a);
    PlainIsSpelled(b);
    if WithoutBuild(a) == WithoutBuild(b) {
      PartsOfPlain(a, b);
    } else {
      assert Read(a).(build := "") != Read(b).(build := "");
    }
  }

  lemma PartsOfPlain(a: string, b: string)
    requires IsExactServiceVersion(a) && IsExactServiceVersion(b) && WithoutBuild(a) == WithoutBuild(b)
    ensures Read(a) == Read(b).(build := Read(a).build)
  {
    hide IsExactServiceVersion;
    assert CoreTexts(a) == CoreTexts(b) && PrereleaseTexts(a) == PrereleaseTexts(b);
  }

  // ---- every version with a written form is read from it ----

  predicate IsReadable(x: Identifier) {
    x.Alphanumeric? ==> IsWord(x.text) && !AllDigits(x.text)
  }

  predicate Readable(v: Version) {
    && (forall k :: 0 <= k < |v.prerelease| ==> IsReadable(v.prerelease[k]))
    && (v.build != "" ==> forall k :: 0 <= k < |SplitOn(v.build, '.')| ==> IsWord(SplitOn(v.build, '.')[k]))
  }

  lemma {:induction false} BeforeOf(s: string, rest: string, c: char)
    requires c !in s
    ensures Before(s, c) == s && After(s, c) == None
    ensures Before(s + [c] + rest, c) == s && After(s + [c] + rest, c) == Some(rest)
  {
    if s != "" {
      BeforeOf(s[1..], rest, c);
      assert (s + [c] + rest)[1..] == s[1..] + [c] + rest;
    } else {
      assert s + [c] + rest == [c] + rest;
    }
  }

  lemma {:induction false} NumeralIsNumber(n: nat)
    ensures IsNumber(Numeral(n)) && NumeralValue(Numeral(n)) == n
    ensures n > 0 ==> Numeral(n)[0] != '0'
  {
    NumeralRoundTrip(n);
    if n >= 10 {
      NumeralIsNumber(n / 10);
    }
  }

  lemma IdentifierReads(x: Identifier)
    requires IsReadable(x)
    ensures IsIdentifier(SpelledIdentifier(x)) && ReadIdentifier(SpelledIdentifier(x)) == x
  {
    if x.Numeric? {
      NumeralIsNumber(x.n);
    }
  }

  lemma {:induction false} NotInJoin(pieces: seq<string>, c: char, d: char)
    requires c != d && forall k :: 0 <= k < |pieces| ==> d !in pieces[k]
    ensures d !in Join(pieces, c)
  {
    if |pieces| > 1 {
      NotInJoin(pieces[1..], c, d);
    }
  }

  function Plain(numbers: seq<string>, identifiers: seq<string>): string {
    Join(numbers, '.') + (if identifiers == [] then "" else "-" + Join(identifiers, '.'))
  }

  lemma PlainReads(numbers: seq<string>, identifiers: seq<string>)
    requires |numbers| == 3 && forall k :: 0 <= k < 3 ==> IsNumber(numbers[k])
    requires forall k :: 0 <= k < |identifiers| ==> IsIdentifier(identifiers[k])
    ensures var plain := Plain(numbers, identifiers);
      && '+' !in plain && SplitOn(Before(plain, '-'), '.') == numbers && Pieces(After(plain, '-')) == identifiers
  {
    var core, rest := Join(numbers, '.'), Join(identifiers, '.');
    NotInJoin(numbers, '.', '+');
    NotInJoin(numbers, '.', '-');
    NotInJoin(identifiers, '.', '+');
    BeforeOf(core, rest, '-');
    assert core + "" == core && core + ("-" + rest) == core + ['-'] + rest;
    SplitOfJoin(numbers, '.');
    if identifiers != [] {
      SplitOfJoin(identifiers, '.');
    }
  }

  lemma BuildReads(plain: string, build: string)
    requires '+' !in plain
    ensures var text := plain + (if build == "" then "" else "+" + build);
      WithoutBuild(text) == plain && After(text, '+') == if build == "" then None else Some(build)
  {
    BeforeOf(plain, build, '+');
    assert plain + "" == plain && plain + ("+" + build) == plain + ['+'] + build;
  }

  /** Every version with a written form is read from it. */
  lemma SpelledReadsBack(v: Version)
    requires Readable(v)
    ensures IsExactServiceVersion(Spelled(v)) && Read(Spelled(v)) == v
  {
    var numbers, identifiers :=
      [Numeral(v.major), Numeral(v.minor), Numeral(v.patch)], SpelledIdentifiers(v.prerelease);
    var version := Spelled(v);
    NumeralIsNumber(v.major);
    NumeralIsNumber(v.minor);
    NumeralIsNumber(v.patch);
    IdentifiersRead(v.prerelease);
    PlainReads(numbers, identifiers);
    BuildReads(Plain(numbers, identifiers), v.build);
    hide Plain, Before, After, IsNumber, IsIdentifier, IsWord, NumeralValue, Numeral;
    assert CoreTexts(version) == numbers && PrereleaseTexts(version) == identifiers;
    assert Pieces(After(version, '+')) == if v.build == "" then [] else SplitOn(v.build, '.');
  }

  lemma IdentifiersRead(identifiers: seq<Identifier>)
    requires forall k :: 0 <= k < |identifiers| ==> IsReadable(identifiers[k])
    ensures var texts := SpelledIdentifiers(identifiers);
      && (forall k :: 0 <= k < |texts| ==> IsIdentifier(texts[k]))
      && ReadIdentifiers(texts) == identifiers
  {
    forall k | 0 <= k < |identifiers|
      ensures IsIdentifier(SpelledIdentifier(identifiers[k]))
      ensures ReadIdentifier(SpelledIdentifier(identifiers[k])) == identifiers[k]
    {
      IdentifierReads(identifiers[k]);
    }
  }
}
