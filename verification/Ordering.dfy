/** Comparison functions in the JavaScript style: a negative, zero or positive number. */
module Ordering {

  /** The sign flips with the arguments, and "at most" is transitive. */
  ghost predicate TotalPreorder<T(!new)>(cmp: (T, T) -> int) {
    && (forall a, b :: cmp(a, b) < 0 <==> cmp(b, a) > 0)
    && (forall a, b, c :: cmp(a, b) <= 0 && cmp(b, c) <= 0 ==> cmp(a, c) <= 0)
  }

  /** Position by position; a sequence that is a proper prefix of the other comes first. */
  function CompareSeqs<T>(cmp: (T, T) -> int, a: seq<T>, b: seq<T>): int {
    if a == [] && b == [] then 0
    else if a == [] then -1
    else if b == [] then 1
    else if cmp(a[0], b[0]) != 0 then cmp(a[0], b[0])
    else CompareSeqs(cmp, a[1..], b[1..])
  }

  lemma {:induction false} CompareSeqsFlips<T(!new)>(cmp: (T, T) -> int, a: seq<T>, b: seq<T>)
    requires TotalPreorder(cmp)
    ensures CompareSeqs(cmp, a, b) < 0 <==> CompareSeqs(cmp, b, a) > 0
    ensures CompareSeqs(cmp, b, a) < 0 <==> CompareSeqs(cmp, a, b) > 0
  {
    if a != [] && b != [] {
      CompareSeqsFlips(cmp, a[1..], b[1..]);
      assert cmp(a[0], b[0]) < 0 <==> cmp(b[0], a[0]) > 0;
      assert cmp(b[0], a[0]) < 0 <==> cmp(a[0], b[0]) > 0;
    }
  }

  lemma {:induction false} CompareSeqsTransitive<T(!new)>(cmp: (T, T) -> int, a: seq<T>, b: seq<T>, c: seq<T>)
    requires TotalPreorder(cmp)
    requires CompareSeqs(cmp, a, b) <= 0 && CompareSeqs(cmp, b, c) <= 0
    ensures CompareSeqs(cmp, a, c) <= 0
  {
    if a != [] && b != [] && c != [] {
      assert cmp(a[0], b[0]) <= 0 && cmp(b[0], c[0]) <= 0;
      assert cmp(a[0], c[0]) <= 0;
      if cmp(a[0], c[0]) == 0 {
        assert cmp(c[0], a[0]) <= 0;
        assert cmp(c[0], b[0]) <= 0;
        assert cmp(b[0], a[0]) <= 0;
        assert cmp(a[0], b[0]) == 0 && cmp(b[0], c[0]) == 0;
        CompareSeqsTransitive(cmp, a[1..], b[1..], c[1..]);
      }
    }
  }

  /** Lifting a comparison to sequences keeps it a total preorder. */
  lemma CompareSeqsIsTotalPreorder<T(!new)>(cmp: (T, T) -> int)
    requires TotalPreorder(cmp)
    ensures TotalPreorder((a: seq<T>, b: seq<T>) => CompareSeqs(cmp, a, b))
  {
    forall a: seq<T>, b: seq<T>
      ensures CompareSeqs(cmp, a, b) < 0 <==> CompareSeqs(cmp, b, a) > 0
    {
      CompareSeqsFlips(cmp, a, b);
    }
    forall a: seq<T>, b: seq<T>, c: seq<T> | CompareSeqs(cmp, a, b) <= 0 && CompareSeqs(cmp, b, c) <= 0
      ensures CompareSeqs(cmp, a, c) <= 0
    {
      CompareSeqsTransitive(cmp, a, b, c);
    }
  }

  function CompareChars(a: char, b: char): int {
    a as int - b as int
  }

  /** The built-in `<` on strings, by code points. */
  function CompareStrings(a: string, b: string): int {
    CompareSeqs(CompareChars, a, b)
  }

  lemma {:induction false} CompareStringsZero(a: string, b: string)
    requires CompareStrings(a, b) == 0
    ensures a == b
  {
    if a != [] && b != [] {
      CompareStringsZero(a[1..], b[1..]);
      assert a == [a[0]] + a[1..] && b == [b[0]] + b[1..];
    }
  }

  lemma CompareStringsIsTotalPreorder()
    ensures TotalPreorder(CompareStrings)
  {
    assert TotalPreorder(CompareChars);
    CompareSeqsIsTotalPreorder(CompareChars);
    var lifted := (a: string, b: string) => CompareSeqs(CompareChars, a, b);
    assert forall a: string, b: string :: CompareStrings(a, b) == lifted(a, b);
  }

  /** A position up to which two lists agree and at which the first is behind, or has ended. */
  ghost predicate FallsBehindAt<T(!new)>(cmp: (T, T) -> int, a: seq<T>, b: seq<T>, k: nat) {
    && k <= |a| && k < |b|
    && (forall j :: 0 <= j < k ==> cmp(a[j], b[j]) == 0)
    && (k < |a| ==> cmp(a[k], b[k]) < 0)
  }

  lemma {:induction false} CompareSeqsFindsFirstDifference<T(!new)>(cmp: (T, T) -> int, a: seq<T>, b: seq<T>)
    ensures CompareSeqs(cmp, a, b) < 0 <==> exists k: nat :: FallsBehindAt(cmp, a, b, k)
  {
    if a != [] && b != [] {
      CompareSeqsFindsFirstDifference(cmp, a[1..], b[1..]);
      if cmp(a[0], b[0]) < 0 {
        assert FallsBehindAt(cmp, a, b, 0);
      } else if cmp(a[0], b[0]) == 0 {
        if k: nat :| FallsBehindAt(cmp, a[1..], b[1..], k) {
          assert forall j :: 1 <= j <= k ==> a[j] == a[1..][j - 1] && b[j] == b[1..][j - 1];
          assert FallsBehindAt(cmp, a, b, k + 1);
        }
        if k: nat :| FallsBehindAt(cmp, a, b, k) {
          assert FallsBehindAt(cmp, a[1..], b[1..], k - 1);
        }
      }
    } else if b != [] {
      assert FallsBehindAt(cmp, a, b, 0);
    }
  }

  /** The strings are the same up to a place, at which the first one ends or has a smaller code. */
  predicate StringBehindAt(a: string, b: string, k: nat) {
    && k <= |a| && k < |b| && (forall j :: 0 <= j < k ==> a[j] == b[j])
    && (k < |a| ==> a[k] as int < b[k] as int)
  }

  /** Strings compare by the first character in which they differ. */
  lemma StringsFallBehind(a: string, b: string)
    ensures CompareStrings(a, b) < 0 <==> exists k: nat :: StringBehindAt(a, b, k)
  {
    CompareSeqsFindsFirstDifference(CompareChars, a, b);
    if k: nat :| StringBehindAt(a, b, k) {
      assert FallsBehindAt(CompareChars, a, b, k);
    }
    if k: nat :| FallsBehindAt(CompareChars, a, b, k) {
      assert forall j :: 0 <= j < k ==> CompareChars(a[j], b[j]) == 0;
      assert StringBehindAt(a, b, k);
    }
  }
}
