/** Which earlier release a release is compared with. */
module ReleaseTags {
  import opened Optional
  import opened Ordering
  import opened Text

  datatype StableVersion = StableVersion(major: nat, minor: nat, patch: nat, prerelease: seq<string>)

  datatype NightlyVersion = NightlyVersion(major: nat, minor: nat, patch: nat, date: nat, runNumber: nat)

  // ---- precedence ----

  predicate IsNumeric(identifier: string) {
    identifier != "" && AllDigits(identifier)
  }

  /** Numbers by value and below words; words by the collation of the host. */
  function CompareIdentifiers(collate: (string, string) -> int, left: string, right: string): int {
    if IsNumeric(left) && IsNumeric(right) then NumeralValue(left) - NumeralValue(right)
    else if IsNumeric(left) then -1
    else if IsNumeric(right) then 1
    else collate(left, right)
  }

  function IdentifierOrder(collate: (string, string) -> int): (string, string) -> int {
    (left: string, right: string) => CompareIdentifiers(collate, left, right)
  }

  function StableCompare(collate: (string, string) -> int, left: StableVersion, right: StableVersion): int {
    if left.major != right.major then left.major - right.major
    else if left.minor != right.minor then left.minor - right.minor
    else if left.patch != right.patch then left.patch - right.patch
    else if left.prerelease == [] && right.prerelease == [] then 0
    else if left.prerelease == [] then 1
    else if right.prerelease == [] then -1
    else CompareSeqs(IdentifierOrder(collate), left.prerelease, right.prerelease)
  }

  /** The walk over the identifiers, to the end of the longer list. */
  method CompareStableVersions(collate: (string, string) -> int, left: StableVersion, right: StableVersion)
      returns (r: int)
    ensures r == StableCompare(collate, left, right)
  {
    if left.major != right.major { return left.major - right.major; }
    if left.minor != right.minor { return left.minor - right.minor; }
    if left.patch != right.patch { return left.patch - right.patch; }
    var leftHasPrerelease := |left.prerelease| > 0;
    var rightHasPrerelease := |right.prerelease| > 0;
    if !leftHasPrerelease && !rightHasPrerelease { return 0; }
    if !leftHasPrerelease { return 1; }
    if !rightHasPrerelease { return -1; }
    var maxLength := if |left.prerelease| < |right.prerelease| then |right.prerelease| else |left.prerelease|;
    var index := 0;
    while index < maxLength
      invariant 0 <= index <= maxLength
      invariant index <= |left.prerelease| && index <= |right.prerelease|
      invariant StableCompare(collate, left, right) ==
        CompareSeqs(IdentifierOrder(collate), left.prerelease[index..], right.prerelease[index..])
    {
      if index >= |left.prerelease| { return -1; }
      if index >= |right.prerelease| { return 1; }
      var comparison := CompareIdentifiers(collate, left.prerelease[index], right.prerelease[index]);
      if comparison != 0 { return comparison; }
      assert left.prerelease[index..][1..] == left.prerelease[index + 1..];
      assert right.prerelease[index..][1..] == right.prerelease[index + 1..];
      index := index + 1;
    }
    return 0;
  }

  function NightlyCompare(left: NightlyVersion, right: NightlyVersion): int {
    if left.major != right.major then left.major - right.major
    else if left.minor != right.minor then left.minor - right.minor
    else if left.patch != right.patch then left.patch - right.patch
    else if left.date != right.date then left.date - right.date
    else left.runNumber - right.runNumber
  }

  lemma IdentifierOrderIsTotalPreorder(collate: (string, string) -> int)
    requires TotalPreorder(collate)
    ensures TotalPreorder(IdentifierOrder(collate))
  {
    var cmp := IdentifierOrder(collate);
    forall a, b ensures cmp(a, b) < 0 <==> cmp(b, a) > 0 {
      assert collate(a, b) < 0 <==> collate(b, a) > 0;
    }
    forall a, b, c | cmp(a, b) <= 0 && cmp(b, c) <= 0 ensures cmp(a, c) <= 0 {
      assert collate(a, b) <= 0 && collate(b, c) <= 0 ==> collate(a, c) <= 0;
    }
  }

  /** The comparison of stable versions is a total preorder, with any mixture of numbers and words and any lengths. */
  lemma StableCompareIsTotalPreorder(collate: (string, string) -> int)
    requires TotalPreorder(collate)
    ensures TotalPreorder((a: StableVersion, b: StableVersion) => StableCompare(collate, a, b))
  {
    var cmp := IdentifierOrder(collate);
    IdentifierOrderIsTotalPreorder(collate);
    hide CompareIdentifiers, CompareSeqs, IdentifierOrder, TotalPreorder;
    forall a: StableVersion, b: StableVersion
      ensures StableCompare(collate, a, b) < 0 <==> StableCompare(collate, b, a) > 0
    {
      CompareSeqsFlips(cmp, a.prerelease, b.prerelease);
    }
    forall a: StableVersion, b: StableVersion, c: StableVersion | StableCompare(collate, a, b) <= 0
      && StableCompare(collate, b, c) <= 0
      ensures StableCompare(collate, a, c) <= 0
    {
      if CompareSeqs(cmp, a.prerelease, b.prerelease) <= 0 && CompareSeqs(cmp, b.prerelease, c.prerelease) <= 0 {
        CompareSeqsTransitive(cmp, a.prerelease, b.prerelease, c.prerelease);
      }
    }
    StableTotalPreorderFrom(collate);
  }

  lemma StableTotalPreorderFrom(collate: (string, string) -> int)
    requires forall a: StableVersion, b: StableVersion :: StableCompare(collate, a, b) < 0 <==>
      StableCompare(collate, b, a) > 0
    requires forall a: StableVersion, b: StableVersion, c: StableVersion ::
               StableCompare(collate, a, b) <= 0 && StableCompare(collate, b, c) <= 0 ==>
                 StableCompare(collate, a, c) <= 0
    ensures TotalPreorder((a: StableVersion, b: StableVersion) => StableCompare(collate, a, b))
  {
  }

  lemma NightlyCompareIsTotalPreorder()
    ensures TotalPreorder(NightlyCompare)
  {
  }

  /** Numbers compare by value and come before words; words compare by the collation; nothing is no number. */
  lemma IdentifierPrecedence(collate: (string, string) -> int, a: string, b: string)
    ensures var aNumber := a != "" && forall k :: 0 <= k < |a| ==> '0' <= a[k] <= '9';
      var bNumber := b != "" && forall k :: 0 <= k < |b| ==> '0' <= b[k] <= '9';
      var order := IdentifierOrder(collate)(a, b);
      && (aNumber && bNumber ==> order == NumeralValue(a) - NumeralValue(b))
      && (aNumber && !bNumber ==> order < 0)
      && (!aNumber && bNumber ==> order > 0)
      && (!aNumber && !bNumber ==> order == collate(a, b))
  {
  }

  /** The nightly comparison: core, then date, then the number of the run. */
  lemma NightlyPrecedence(a: NightlyVersion, b: NightlyVersion)
    ensures NightlyCompare(a, b) < 0 <==>
      || a.major < b.major
      || (a.major == b.major && a.minor < b.minor)
      || (a.major == b.major && a.minor == b.minor && a.patch < b.patch)
      || ((a.major, a.minor, a.patch) == (b.major, b.minor, b.patch) && a.date < b.date)
      || ((a.major, a.minor, a.patch, a.date) == (b.major, b.minor, b.patch, b.date) && a.runNumber < b.runNumber)
    ensures NightlyCompare(a, b) == 0 <==> a == b
  {
  }

  /** The precedence of section 11 of SemVer 2.0.0, with the collation in place of ASCII order. */
  lemma StablePrecedence(collate: (string, string) -> int, a: StableVersion, b: StableVersion)
    ensures StableCompare(collate, a, b) < 0 <==>
      || a.major < b.major
      || (a.major == b.major && a.minor < b.minor)
      || (a.major == b.major && a.minor == b.minor && a.patch < b.patch)
      || (&& (a.major, a.minor, a.patch) == (b.major, b.minor, b.patch)
          && a.prerelease != []
          && (b.prerelease == [] || exists k: nat ::
            FallsBehindAt(IdentifierOrder(collate), a.prerelease, b.prerelease, k)))
  {
    CompareSeqsFindsFirstDifference(IdentifierOrder(collate), a.prerelease, b.prerelease);
  }
}
