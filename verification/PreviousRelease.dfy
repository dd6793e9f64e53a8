/** Reading release tags, and choosing the one before a given release. */
module PreviousRelease {
  import opened Optional
  import opened Ordering
  import opened Text
  import opened ReleaseTags
  import opened StableSort

  // ---- reading tags ----

  predicate IsTagChar(c: char) {
    IsDigit(c) || 'a' <= c <= 'z' || 'A' <= c <= 'Z' || c == '.' || c == '-'
  }

  predicate IsTagText(s: string) {
    s != "" && forall k :: 0 <= k < |s| ==> IsTagChar(s[k])
  }

  /** How far a run of characters of one kind goes. */
  function Run(s: string, kind: char -> bool): (n: nat)
    ensures n <= |s|
    ensures forall k :: 0 <= k < n ==> kind(s[k])
    ensures n < |s| ==> !kind(s[n])
  {
    if s != "" && kind(s[0]) then 1 + Run(s[1..], kind) else 0
  }

  datatype Number = Number(value: nat, rest: string)

  function TakeNumber(s: string): Option<Number> {
    var n := Run(s, IsDigit);
    if n == 0 then None else Some(Number(NumeralValue(s[..n]), s[n..]))
  }

  function TakeText(s: string, expected: string): Option<string> {
    if expected <= s then Some(s[|expected|..]) else None
  }

  /** A number followed by a given text. */
  function TakeNumberAnd(s: string, expected: string): Option<Number> {
    match TakeNumber(s)
    case None => None
    case Some(number) =>
      match TakeText(number.rest, expected)
      case None => None
      case Some(rest) => Some(Number(number.value, rest))
  }

  datatype Core = Core(major: nat, minor: nat, patch: nat, rest: string)

  function TakeCore(tag: string): Option<Core> {
    match TakeText(tag, "v")
    case None => None
    case Some(start) =>
      match TakeNumberAnd(start, ".")
      case None => None
      case Some(major) =>
        match TakeNumberAnd(major.rest, ".")
        case None => None
        case Some(minor) =>
          match TakeNumber(minor.rest)
          case None => None
          case Some(patch) => Some(Core(major.value, minor.value, patch.value, patch.rest))
  }

  predicate IsBuildSuffix(s: string) {
    s == "" || (s[0] == '+' && IsTagText(s[1..]))
  }

  /** What may follow the three numbers: prerelease identifiers, then build metadata, both optional. */
  function PrereleaseIdentifiers(suffix: string): Option<seq<string>> {
    if suffix != "" && suffix[0] == '-' then
      var n := Run(suffix[1..], IsTagChar);
      if n > 0 && IsBuildSuffix(suffix[1 + n..]) then Some(SplitOn(suffix[1..1 + n], '.')) else None
    else if IsBuildSuffix(suffix) then Some([])
    else None
  }

  function ParseStableTag(tag: string): Option<StableVersion> {
    match TakeCore(tag)
    case None => None
    case Some(core) =>
      match PrereleaseIdentifiers(core.rest)
      case None => None
      case Some(identifiers) =>
        if identifiers != [] && identifiers[0] == "nightly" then None
        else Some(StableVersion(core.major, core.minor, core.patch, identifiers))
  }

  /** Current nightly tags, and older ones with a prefix. */
  function ParseNightlyTag(tag: string): Option<NightlyVersion> {
    match TakeCore(TakeText(tag, "nightly-").UnwrapOr(tag))
    case None => None
    case Some(core) =>
      match TakeText(core.rest, "-nightly.")
      case None => None
      case Some(tail) =>
        if Run(tail, IsDigit) != 8 then None
        else
          match TakeNumberAnd(tail, ".")
          case None => None
          case Some(date) =>
            match TakeNumber(date.rest)
            case None => None
            case Some(run) =>
              if run.rest != "" then None
              else Some(NightlyVersion(core.major, core.minor, core.patch, date.value, run.value))
  }

  lemma {:induction false} RunOfConcat(s: string, rest: string, kind: char -> bool)
    requires forall k :: 0 <= k < |s| ==> kind(s[k])
    requires rest != "" ==> !kind(rest[0])
    ensures Run(s + rest, kind) == |s|
  {
    if s == "" {
      assert s + rest == rest;
    } else {
      assert (s + rest)[1..] == s[1..] + rest;
      RunOfConcat(s[1..], rest, kind);
    }
  }

  lemma NumberReads(n: nat, rest: string)
    requires rest != "" ==> !IsDigit(rest[0])
    ensures TakeNumber(Numeral(n) + rest) == Some(Number(n, rest))
  {
    NumeralRoundTrip(n);
    RunOfConcat(Numeral(n), rest, IsDigit);
    assert (Numeral(n) + rest)[..|Numeral(n)|] == Numeral(n);
    assert (Numeral(n) + rest)[|Numeral(n)|..] == rest;
  }

  lemma TextReads(text: string, rest: string)
    ensures TakeText(text + rest, text) == Some(rest)
  {
    assert (text + rest)[|text|..] == rest;
    assert (text + rest)[..|text|] == text;
  }

  lemma NumberAndReads(n: nat, text: string, rest: string)
    requires text != "" && !IsDigit(text[0])
    ensures TakeNumberAnd(Numeral(n) + (text + rest), text) == Some(Number(n, rest))
  {
    NumberReads(n, text + rest);
    TextReads(text, rest);
  }

  function RenderedCore(major: nat, minor: nat, patch: nat, rest: string): string {
    "v" + (Numeral(major) + ("." + (Numeral(minor) + ("." + (Numeral(patch) + rest)))))
  }

  lemma CoreReads(major: nat, minor: nat, patch: nat, rest: string)
    requires rest != "" ==> !IsDigit(rest[0])
    ensures TakeCore(RenderedCore(major, minor, patch, rest)) == Some(Core(major, minor, patch, rest))
  {
    hide Numeral, TakeNumberAnd, TakeNumber, TakeText;
    var afterMinor := Numeral(patch) + rest;
    var afterMajor := Numeral(minor) + ("." + afterMinor);
    TextReads("v", Numeral(major) + ("." + afterMajor));
    NumberAndReads(major, ".", afterMajor);
    NumberAndReads(minor, ".", afterMinor);
    NumberReads(patch, rest);
  }

  function Rendered(v: StableVersion, build: string): string {
    RenderedCore(v.major, v.minor, v.patch, (if v.prerelease == [] then "" else "-" + Join(v.prerelease, '.')) + build)
  }

  /** Identifiers a tag can carry. */
  ghost predicate AreIdentifiers(identifiers: seq<string>) {
    && (forall k :: 0 <= k < |identifiers| ==>
      '.' !in identifiers[k] && forall j :: 0 <= j < |identifiers[k]| ==> IsTagChar(identifiers[k][j]))
    && identifiers != [""] && (identifiers != [] ==> identifiers[0] != "nightly")
  }

  lemma {:induction false} JoinIsTagText(identifiers: seq<string>)
    requires forall k :: 0 <= k < |identifiers| ==>
      forall j :: 0 <= j < |identifiers[k]| ==> IsTagChar(identifiers[k][j])
    requires identifiers != [] && identifiers != [""]
    ensures IsTagText(Join(identifiers, '.'))
  {
    if |identifiers| > 1 {
      if identifiers[1..] == [""] {
        assert Join(identifiers, '.') == identifiers[0] + ['.'] + "";
      } else {
        JoinIsTagText(identifiers[1..]);
      }
    }
  }

  lemma SuffixReads(identifiers: seq<string>, build: string)
    requires AreIdentifiers(identifiers) && IsBuildSuffix(build)
    ensures PrereleaseIdentifiers((if identifiers == [] then "" else "-" + Join(identifiers, '.')) + build) ==
      Some(identifiers)
  {
    if identifiers == [] {
      assert "" + build == build;
    } else {
      var text := Join(identifiers, '.');
      var suffix := "-" + text + build;
      JoinIsTagText(identifiers);
      assert suffix[1..] == text + build;
      RunOfConcat(text, build, IsTagChar);
      assert suffix[1..1 + |text|] == text && suffix[1 + |text|..] == build;
      SplitOfJoin(identifiers, '.');
    }
  }

  /** Every stable version is read from its tag, whatever build metadata the tag carries. */
  lemma StableTagReadsBack(v: StableVersion, build: string)
    requires AreIdentifiers(v.prerelease) && IsBuildSuffix(build)
    ensures ParseStableTag(Rendered(v, build)) == Some(v)
  {
    hide Numeral, TakeCore, PrereleaseIdentifiers, RenderedCore;
    var rest := (if v.prerelease == [] then "" else "-" + Join(v.prerelease, '.')) + build;
    assert rest != "" ==> !IsDigit(rest[0]);
    CoreReads(v.major, v.minor, v.patch, rest);
    SuffixReads(v.prerelease, build);
  }

  lemma NightlySuffix(suffix: string)
    requires "-nightly." <= suffix && PrereleaseIdentifiers(suffix).Some?
    ensures var identifiers := PrereleaseIdentifiers(suffix).value; identifiers != [] && identifiers[0] == "nightly"
  {
    var n := Run(suffix[1..], IsTagChar);
    assert forall k :: 0 <= k < 8 ==> suffix[1..][k] == "nightly."[k];
    RunAtLeast(suffix[1..], 8, IsTagChar);
    var text := suffix[1..1 + n];
    assert text[..8] == "nightly.";
    assert text == "nightly" + ['.'] + text[8..];
    SplitPrefix("nightly", text[8..], '.');
  }

  /** A nightly tag is never taken for a stable one. */
  lemma NightlyIsNotStable(tag: string)
    requires ParseNightlyTag(tag).Some?
    ensures ParseStableTag(tag).None?
  {
    hide TakeNumberAnd, TakeNumber, PrereleaseIdentifiers, Run;
    if "nightly-" <= tag {
      assert tag[0] == 'n';
      assert TakeCore(tag).None?;
    } else {
      assert TakeText(tag, "nightly-").UnwrapOr(tag) == tag;
      hide TakeCore;
      var suffix := TakeCore(tag).value.rest;
      if PrereleaseIdentifiers(suffix).Some? {
        NightlySuffix(suffix);
      }
    }
  }

  lemma RunAtLeast(s: string, n: nat, kind: char -> bool)
    requires n <= |s| && forall k :: 0 <= k < n ==> kind(s[k])
    ensures Run(s, kind) >= n
  {
  }

  // ---- choosing ----

  datatype Candidate<V> = Candidate(tag: string, parsed: V)

  /** The tags that can be read and are strictly below, in the order listed. */
  function Candidates<V>(parse: string -> Option<V>, cmp: (V, V) -> int, current: V,
      tags: seq<string>): seq<Candidate<V>> {
    if tags == [] then []
    else
      (match parse(tags[0])
       case Some(version) => if cmp(version, current) < 0 then [Candidate(tags[0], version)] else []
       case None => [])
      + Candidates(parse, cmp, current, tags[1..])
  }

  /** Greatest first. */
  function Descending<V>(cmp: (V, V) -> int): (Candidate<V>, Candidate<V>) -> int {
    (left: Candidate<V>, right: Candidate<V>) => cmp(right.parsed, left.parsed)
  }

  function Previous<V>(parse: string -> Option<V>, cmp: (V, V) -> int, current: V, tags: seq<string>): Option<string> {
    var sorted := Sorted(Descending(cmp), Candidates(parse, cmp, current, tags));
    if sorted == [] then None else Some(sorted[0].tag)
  }

  datatype Channel = Stable | Nightly

  datatype Resolution = InvalidReleaseTag | Resolved(previous: Option<string>)

  function ResolvePreviousReleaseTag(collate: (string, string) -> int, channel: Channel, currentTag: string,
      tags: seq<string>): Resolution {
    match channel
    case Stable =>
      (match ParseStableTag(currentTag)
       case None => InvalidReleaseTag
       case Some(current) =>
         Resolved(Previous(ParseStableTag, (a: StableVersion, b: StableVersion) => StableCompare(collate, a, b),
           current, tags)))
    case Nightly =>
      match ParseNightlyTag(currentTag)
      case None => InvalidReleaseTag
      case Some(current) => Resolved(Previous(ParseNightlyTag, NightlyCompare, current, tags))
  }

  // ---- what is chosen ----

  ghost predicate IsCandidate<V(!new)>(parse: string -> Option<V>, cmp: (V, V) -> int, current: V, tag: string) {
    parse(tag).Some? && cmp(parse(tag).value, current) < 0
  }

  /** The first of the greatest tags strictly below. */
  ghost predicate IsPrevious<V(!new)>(parse: string -> Option<V>, cmp: (V, V) -> int, current: V, tags: seq<string>,
      i: nat) {
    && i < |tags| && IsCandidate(parse, cmp, current, tags[i])
    && forall j :: 0 <= j < |tags| && IsCandidate(parse, cmp, current, tags[j]) ==>
         && cmp(parse(tags[j]).value, parse(tags[i]).value) <= 0
         && (j < i ==> cmp(parse(tags[j]).value, parse(tags[i]).value) < 0)
  }

  lemma DescendingIsTotalPreorder<V(!new)>(cmp: (V, V) -> int)
    requires TotalPreorder(cmp)
    ensures TotalPreorder(Descending(cmp))
  {
    forall a: Candidate<V>, b: Candidate<V> ensures Descending(cmp)(a, b) < 0 <==> Descending(cmp)(b, a) > 0 {
      assert cmp(b.parsed, a.parsed) < 0 <==> cmp(a.parsed, b.parsed) > 0;
    }
    forall a: Candidate<V>, b: Candidate<V>, c: Candidate<V> | Descending(cmp)(a, b) <= 0 && Descending(cmp)(b, c) <= 0
      ensures Descending(cmp)(a, c) <= 0
    {
      assert cmp(c.parsed, b.parsed) <= 0 && cmp(b.parsed, a.parsed) <= 0;
    }
  }

  /** Where a listed tag is found among the candidates, and the other way round, in the same order. */
  lemma {:induction false} CandidatesAreListed<V(!new)>(parse: string -> Option<V>, cmp: (V, V) -> int, current: V,
      tags: seq<string>, i: nat)
    returns (k: nat)
    requires i < |Candidates(parse, cmp, current, tags)|
    ensures k < |tags| && IsCandidate(parse, cmp, current, tags[k])
    ensures Candidates(parse, cmp, current, tags)[i] == Candidate(tags[k], parse(tags[k]).value)
    ensures Candidates(parse, cmp, current, tags[..k]) == Candidates(parse, cmp, current, tags)[..i]
  {
    var here := if IsCandidate(parse, cmp, current, tags[0]) then 1 else 0;
    if here == 1 && i == 0 {
      k := 0;
    } else {
      var r := CandidatesAreListed(parse, cmp, current, tags[1..], i - here);
      k := r + 1;
      assert tags[..k][1..] == tags[1..][..r];
    }
  }

  lemma {:induction false} ListedAreCandidates<V(!new)>(parse: string -> Option<V>, cmp: (V, V) -> int, current: V,
      tags: seq<string>, k: nat)
    requires k < |tags| && IsCandidate(parse, cmp, current, tags[k])
    ensures Candidate(tags[k], parse(tags[k]).value) in Candidates(parse, cmp, current, tags)
  {
    if k > 0 {
      ListedAreCandidates(parse, cmp, current, tags[1..], k - 1);
    }
  }

  /** No listed tag that qualifies is above the one the first of the greatest candidates comes from. */
  lemma ListedIsAtMost<V(!new)>(parse: string -> Option<V>, cmp: (V, V) -> int, current: V, tags: seq<string>, i: nat,
      k: nat, j: nat)
    requires IsFirstLeast(Descending(cmp), Candidates(parse, cmp, current, tags), i)
    requires k < |tags| && parse(tags[k]) == Some(Candidates(parse, cmp, current, tags)[i].parsed)
    requires Candidates(parse, cmp, current, tags[..k]) == Candidates(parse, cmp, current, tags)[..i]
    requires j < |tags| && IsCandidate(parse, cmp, current, tags[j])
    ensures cmp(parse(tags[j]).value, parse(tags[k]).value) <= 0
    ensures j < k ==> cmp(parse(tags[j]).value, parse(tags[k]).value) < 0
  {
    var candidates := Candidates(parse, cmp, current, tags);
    hide Candidates;
    assert forall x: Candidate<V>, y: Candidate<V> :: Descending(cmp)(x, y) == cmp(y.parsed, x.parsed);
    var found := Candidate(tags[j], parse(tags[j]).value);
    if j < k {
      ListedAreCandidates(parse, cmp, current, tags[..k], j);
      var m :| 0 <= m < i && candidates[..i][m] == found;
      assert candidates[m] == found;
    } else {
      ListedAreCandidates(parse, cmp, current, tags, j);
      var m :| 0 <= m < |candidates| && candidates[m] == found;
    }
  }

  lemma PreviousIsFirstGreatest<V(!new)>(parse: string -> Option<V>, cmp: (V, V) -> int, current: V, tags: seq<string>)
    requires TotalPreorder(cmp)
    ensures match Previous(parse, cmp, current, tags)
            case None => forall j :: 0 <= j < |tags| ==> !IsCandidate(parse, cmp, current, tags[j])
            case Some(tag) => exists i: nat :: IsPrevious(parse, cmp, current, tags, i) && tags[i] == tag
  {
    var candidates := Candidates(parse, cmp, current, tags);
    assert candidates == [] ==> Sorted(Descending(cmp), candidates) == [];
    hide TotalPreorder, Candidates, Sorted, IsFirstLeast, Descending;
    if candidates == [] {
      forall j | 0 <= j < |tags| ensures !IsCandidate(parse, cmp, current, tags[j]) {
        if IsCandidate(parse, cmp, current, tags[j]) {
          ListedAreCandidates(parse, cmp, current, tags, j);
        }
      }
    } else {
      DescendingIsTotalPreorder(cmp);
      var i := SortedHead(Descending(cmp), candidates);
      FirstLeastInRange(Descending(cmp), candidates, i);
      var k := CandidatesAreListed(parse, cmp, current, tags, i);
      forall j | 0 <= j < |tags| && IsCandidate(parse, cmp, current, tags[j])
        ensures cmp(parse(tags[j]).value, parse(tags[k]).value) <= 0
        ensures j < k ==> cmp(parse(tags[j]).value, parse(tags[k]).value) < 0
      {
        ListedIsAtMost(parse, cmp, current, tags, i, k, j);
      }
      assert IsPrevious(parse, cmp, current, tags, k);
    }
  }

  lemma FirstLeastInRange<T(!new)>(cmp: (T, T) -> int, xs: seq<T>, i: nat)
    requires IsFirstLeast(cmp, xs, i)
    ensures i < |xs|
  {
  }

  /**
   * The chosen tag is the first listed among the greatest strictly below the current one; none is chosen just when
   * there is none.
   */
  lemma ResolvedIsGreatestBelow(collate: (string, string) -> int, channel: Channel, currentTag: string,
      tags: seq<string>)
    requires TotalPreorder(collate)
    ensures match channel
            case Stable =>
              (var cmp := (a: StableVersion, b: StableVersion) => StableCompare(collate, a, b);
               match ParseStableTag(currentTag)
               case None => ResolvePreviousReleaseTag(collate, channel, currentTag, tags) == InvalidReleaseTag
               case Some(current) =>
                 match ResolvePreviousReleaseTag(collate, channel, currentTag, tags)
                 case Resolved(None) => forall j :: 0 <= j < |tags| ==>
                   !IsCandidate(ParseStableTag, cmp, current, tags[j])
                 case Resolved(Some(tag)) => exists i: nat ::
                   IsPrevious(ParseStableTag, cmp, current, tags, i) && tags[i] == tag
                 case InvalidReleaseTag => false)
            case Nightly =>
              match ParseNightlyTag(currentTag)
              case None => ResolvePreviousReleaseTag(collate, channel, currentTag, tags) == InvalidReleaseTag
              case Some(current) =>
                match ResolvePreviousReleaseTag(collate, channel, currentTag, tags)
                case Resolved(None) => forall j :: 0 <= j < |tags| ==>
                  !IsCandidate(ParseNightlyTag, NightlyCompare, current, tags[j])
                case Resolved(Some(tag)) => exists i: nat ::
                  IsPrevious(ParseNightlyTag, NightlyCompare, current, tags, i) && tags[i] == tag
                case InvalidReleaseTag => false
  {
    hide ParseStableTag, ParseNightlyTag, StableCompare, NightlyCompare, Previous, TotalPreorder;
    if channel.Stable? && ParseStableTag(currentTag).Some? {
      StableCompareIsTotalPreorder(collate);
      PreviousIsFirstGreatest(ParseStableTag, (a: StableVersion, b: StableVersion) => StableCompare(collate, a, b),
                              ParseStableTag(currentTag).value, tags);
    }
    if channel.Nightly? && ParseNightlyTag(currentTag).Some? {
      NightlyCompareIsTotalPreorder();
      PreviousIsFirstGreatest(ParseNightlyTag, NightlyCompare, ParseNightlyTag(currentTag).value, tags);
    }
  }
}
