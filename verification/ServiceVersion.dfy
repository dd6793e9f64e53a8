/** Exact service versions and their precedence: build metadata takes no part in it. */
module ServiceVersion {
  import opened Ordering

  /** A prerelease identifier. A numeric one has no leading zeros, so its number determines its text. */
  datatype Identifier = Numeric(n: nat) | Alphanumeric(text: string)

  datatype Version = Version(major: nat, minor: nat, patch: nat, prerelease: seq<Identifier>, build: string)

  function Sign(n: int): int {
    if n < 0 then -1 else if n > 0 then 1 else 0
  }

  /** Numbers by value and before text; text by code points. */
  function CompareIdentifiers(x: Identifier, y: Identifier): int {
    match (x, y)
    case (Numeric(m), Numeric(n)) => Sign(m - n)
    case (Numeric(_), Alphanumeric(_)) => -1
    case (Alphanumeric(_), Numeric(_)) => 1
    case (Alphanumeric(s), Alphanumeric(t)) => Sign(CompareStrings(s, t))
  }

  /** A release comes after all of its own prereleases. */
  function ComparePrereleases(a: seq<Identifier>, b: seq<Identifier>): int {
    if a == [] && b == [] then 0
    else if a == [] then 1
    else if b == [] then -1
    else CompareSeqs(CompareIdentifiers, a, b)
  }

  function Compare(a: Version, b: Version): int {
    if a.major != b.major then Sign(a.major - b.major)
    else if a.minor != b.minor then Sign(a.minor - b.minor)
    else if a.patch != b.patch then Sign(a.patch - b.patch)
    else ComparePrereleases(a.prerelease, b.prerelease)
  }

  predicate Precedes(a: Version, b: Version) {
    Compare(a, b) < 0
  }

  lemma {:induction false} CompareStringsSame(s: string)
    ensures CompareStrings(s, s) == 0
  {
    if s != [] {
      CompareStringsSame(s[1..]);
    }
  }

  lemma CompareIdentifiersZero(x: Identifier, y: Identifier)
    ensures CompareIdentifiers(x, y) == 0 <==> x == y
  {
    if x.Alphanumeric? && y.Alphanumeric? {
      if CompareStrings(x.text, y.text) == 0 {
        CompareStringsZero(x.text, y.text);
      }
      CompareStringsSame(x.text);
    }
  }

  lemma CompareIdentifiersIsTotalPreorder()
    ensures TotalPreorder(CompareIdentifiers)
  {
    CompareStringsIsTotalPreorder();
    assert forall s: string, t: string :: CompareStrings(s, t) < 0 <==> CompareStrings(t, s) > 0;
    assert forall s: string, t: string, u: string ::
      CompareStrings(s, t) <= 0 && CompareStrings(t, u) <= 0 ==> CompareStrings(s, u) <= 0;
  }

  lemma CompareIsTotalPreorder()
    ensures TotalPreorder(Compare)
  {
    CompareIdentifiersIsTotalPreorder();
    CompareSeqsIsTotalPreorder(CompareIdentifiers);
    var lifted := (a: seq<Identifier>, b: seq<Identifier>) => CompareSeqs(CompareIdentifiers, a, b);
    forall a, b ensures Compare(a, b) < 0 <==> Compare(b, a) > 0 {
      var p, q := a.prerelease, b.prerelease;
      assert lifted(p, q) < 0 <==> lifted(q, p) > 0;
    }
    forall a, b, c | Compare(a, b) <= 0 && Compare(b, c) <= 0 ensures Compare(a, c) <= 0 {
      var p, q, r := a.prerelease, b.prerelease, c.prerelease;
      assert lifted(p, q) <= 0 && lifted(q, r) <= 0 ==> lifted(p, r) <= 0;
    }
  }

  lemma {:induction false} CompareSeqsZero(a: seq<Identifier>, b: seq<Identifier>)
    ensures CompareSeqs(CompareIdentifiers, a, b) == 0 <==> a == b
  {
    if a != [] && b != [] {
      CompareIdentifiersZero(a[0], b[0]);
      CompareSeqsZero(a[1..], b[1..]);
      assert a == [a[0]] + a[1..] && b == [b[0]] + b[1..];
    }
  }

  /** Two exact versions tie exactly when they differ in nothing but build metadata. */
  lemma TiesDifferOnlyInBuild(a: Version, b: Version)
    ensures Compare(a, b) == 0 <==> a == b.(build := a.build)
  {
    CompareSeqsZero(a.prerelease, b.prerelease);
  }

  lemma PrecedesIsStrict(a: Version, b: Version, c: Version)
    ensures !Precedes(a, a)
    ensures Precedes(a, b) && Precedes(b, c) ==> Precedes(a, c)
    ensures Precedes(a, b) && Compare(b, c) <= 0 ==> Precedes(a, c)
    ensures Compare(a, b) <= 0 && Precedes(b, c) ==> Precedes(a, c)
  {
    CompareIsTotalPreorder();
    assert Compare(a, c) < 0 || Compare(c, a) <= 0;
    assert Compare(a, b) < 0 <==> Compare(b, a) > 0;
    assert Compare(b, c) < 0 <==> Compare(c, b) > 0;
    assert Compare(c, a) <= 0 && Compare(a, b) <= 0 ==> Compare(c, b) <= 0;
    assert Compare(b, c) <= 0 && Compare(c, a) <= 0 ==> Compare(b, a) <= 0;
    assert Compare(a, a) < 0 <==> Compare(a, a) > 0;
  }

  /** Numbers by value and below words, words by their characters. */
  predicate IdentifierBelow(x: Identifier, y: Identifier) {
    || (x.Numeric? && y.Numeric? && x.n < y.n)
    || (x.Numeric? && y.Alphanumeric?)
    || (x.Alphanumeric? && y.Alphanumeric? && CompareStrings(x.text, y.text) < 0)
  }

  /** The identifiers are the same up to a place, at which the first ends or is below. */
  ghost predicate FallsBehind(a: seq<Identifier>, b: seq<Identifier>) {
    exists k: nat :: k <= |a| && k < |b| && a[..k] == b[..k] && (k < |a| ==> IdentifierBelow(a[k], b[k]))
  }

  /** The precedence of section 11 of SemVer 2.0.0. */
  lemma Precedence(a: Version, b: Version)
    ensures Precedes(a, b) <==>
      || a.major < b.major
      || (a.major == b.major && a.minor < b.minor)
      || (a.major == b.major && a.minor == b.minor && a.patch < b.patch)
      || ((a.major, a.minor, a.patch) == (b.major, b.minor, b.patch) && a.prerelease != []
          && (b.prerelease == [] || FallsBehind(a.prerelease, b.prerelease)))
    ensures Precedes(b, a) <==> Compare(a, b) > 0
  {
    CompareIsTotalPreorder();
    FallsBehindWhen(a.prerelease, b.prerelease);
    hide CompareSeqs, FallsBehind, TotalPreorder;
    assert Compare(b, a) < 0 <==> Compare(a, b) > 0 by {
      Flips(a, b);
    }
  }

  lemma Flips(a: Version, b: Version)
    ensures Compare(b, a) < 0 <==> Compare(a, b) > 0
  {
    CompareIsTotalPreorder();
  }

  lemma FallsBehindWhen(a: seq<Identifier>, b: seq<Identifier>)
    ensures CompareSeqs(CompareIdentifiers, a, b) < 0 <==> FallsBehind(a, b)
  {
    CompareSeqsFindsFirstDifference(CompareIdentifiers, a, b);
    if k: nat :| FallsBehindAt(CompareIdentifiers, a, b, k) {
      forall j | 0 <= j < k ensures a[j] == b[j] {
        CompareIdentifiersZero(a[j], b[j]);
      }
      assert a[..k] == b[..k];
    }
    if k: nat :| k <= |a| && k < |b| && a[..k] == b[..k] && (k < |a| ==> IdentifierBelow(a[k], b[k])) {
      forall j | 0 <= j < k ensures CompareIdentifiers(a[j], b[j]) == 0 {
        assert a[j] == a[..k][j] == b[..k][j];
        CompareIdentifiersZero(a[j], b[j]);
      }
      assert FallsBehindAt(CompareIdentifiers, a, b, k);
    }
  }
}
