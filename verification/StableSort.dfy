/** Sorting as the built-in does it: by a comparison, equal elements staying in order. */
module StableSort {
  import opened Ordering

  function Inserted<T>(cmp: (T, T) -> int, x: T, sorted: seq<T>): seq<T> {
    if sorted == [] || cmp(x, sorted[0]) <= 0 then [x] + sorted
    else [sorted[0]] + Inserted(cmp, x, sorted[1..])
  }

  function Sorted<T>(cmp: (T, T) -> int, xs: seq<T>): seq<T> {
    if xs == [] then [] else Inserted(cmp, xs[0], Sorted(cmp, xs[1..]))
  }

  lemma {:induction false} InsertedPermutes<T>(cmp: (T, T) -> int, x: T, sorted: seq<T>)
    ensures multiset(Inserted(cmp, x, sorted)) == multiset{x} + multiset(sorted)
  {
    if sorted != [] && cmp(x, sorted[0]) > 0 {
      InsertedPermutes(cmp, x, sorted[1..]);
      assert sorted == [sorted[0]] + sorted[1..];
    }
  }

  lemma {:induction false} SortedPermutes<T>(cmp: (T, T) -> int, xs: seq<T>)
    ensures multiset(Sorted(cmp, xs)) == multiset(xs)
  {
    if xs != [] {
      SortedPermutes(cmp, xs[1..]);
      InsertedPermutes(cmp, xs[0], Sorted(cmp, xs[1..]));
      assert xs == [xs[0]] + xs[1..];
    }
  }

  /** The first of the least elements. */
  ghost predicate IsFirstLeast<T(!new)>(cmp: (T, T) -> int, xs: seq<T>, i: nat) {
    && i < |xs|
    && forall j :: 0 <= j < |xs| ==> cmp(xs[i], xs[j]) <= 0 && (j < i ==> cmp(xs[i], xs[j]) < 0)
  }

  lemma AtMostThrough<T(!new)>(cmp: (T, T) -> int, a: T, b: T, c: T)
    requires TotalPreorder(cmp) && cmp(a, b) <= 0 && cmp(b, c) <= 0
    ensures cmp(a, c) <= 0
  {
  }

  /** The first of the least of all, from that of the others. */
  lemma FirstOrRest<T(!new)>(cmp: (T, T) -> int, xs: seq<T>, k: nat) returns (i: nat)
    requires TotalPreorder(cmp) && |xs| > 1
    requires IsFirstLeast(cmp, xs[1..], k)
    ensures i == if cmp(xs[0], xs[k + 1]) <= 0 then 0 else k + 1
    ensures IsFirstLeast(cmp, xs, i)
  {
    i := if cmp(xs[0], xs[k + 1]) <= 0 then 0 else k + 1;
    assert cmp(xs[0], xs[0]) <= 0;
    assert cmp(xs[0], xs[k + 1]) > 0 ==> cmp(xs[k + 1], xs[0]) < 0;
    hide TotalPreorder;
    forall j | 1 <= j < |xs| ensures cmp(xs[i], xs[j]) <= 0 && (j < i ==> cmp(xs[i], xs[j]) < 0) {
      assert xs[j] == xs[1..][j - 1] && xs[k + 1] == xs[1..][k];
      if i == 0 {
        AtMostThrough(cmp, xs[0], xs[k + 1], xs[j]);
      }
    }
  }

  /** What comes first after sorting. */
  lemma {:induction false} SortedHead<T(!new)>(cmp: (T, T) -> int, xs: seq<T>) returns (i: nat)
    requires TotalPreorder(cmp) && xs != []
    ensures IsFirstLeast(cmp, xs, i) && Sorted(cmp, xs) != [] && Sorted(cmp, xs)[0] == xs[i]
  {
    if |xs| == 1 {
      i := 0;
      assert cmp(xs[0], xs[0]) <= 0;
    } else {
      hide TotalPreorder;
      var k := SortedHead(cmp, xs[1..]);
      i := FirstOrRest(cmp, xs, k);
    }
  }

  predicate IsOrdered<T(!new)>(cmp: (T, T) -> int, xs: seq<T>) {
    forall i, j :: 0 <= i < j < |xs| ==> cmp(xs[i], xs[j]) <= 0
  }

  lemma {:induction false} InsertedIsOrdered<T(!new)>(cmp: (T, T) -> int, x: T, sorted: seq<T>)
    requires TotalPreorder(cmp) && IsOrdered(cmp, sorted)
    ensures IsOrdered(cmp, Inserted(cmp, x, sorted))
  {
    hide TotalPreorder;
    if sorted != [] && cmp(x, sorted[0]) > 0 {
      InsertedIsOrdered(cmp, x, sorted[1..]);
      FirstStaysLeast(cmp, x, sorted);
    } else if sorted != [] {
      BeforeAll(cmp, x, sorted);
    }
  }

  lemma FirstStaysLeast<T(!new)>(cmp: (T, T) -> int, x: T, sorted: seq<T>)
    requires TotalPreorder(cmp) && IsOrdered(cmp, sorted) && sorted != [] && cmp(x, sorted[0]) > 0
    ensures forall j :: 0 <= j < |Inserted(cmp, x, sorted[1..])| ==>
      cmp(sorted[0], Inserted(cmp, x, sorted[1..])[j]) <= 0
  {
    var rest := Inserted(cmp, x, sorted[1..]);
    InsertedPermutes(cmp, x, sorted[1..]);
    assert cmp(sorted[0], x) < 0;
    hide TotalPreorder, Inserted;
    forall j | 0 <= j < |rest| ensures cmp(sorted[0], rest[j]) <= 0 {
      assert rest[j] in multiset(rest);
      assert rest[j] == x || rest[j] in sorted[1..];
    }
  }

  lemma BeforeAll<T(!new)>(cmp: (T, T) -> int, x: T, sorted: seq<T>)
    requires TotalPreorder(cmp) && IsOrdered(cmp, sorted) && sorted != [] && cmp(x, sorted[0]) <= 0
    ensures forall j :: 0 <= j < |sorted| ==> cmp(x, sorted[j]) <= 0
  {
    hide TotalPreorder;
    forall j | 0 < j < |sorted| ensures cmp(x, sorted[j]) <= 0 {
      AtMostThrough(cmp, x, sorted[0], sorted[j]);
    }
  }

  lemma {:induction false} SortedIsOrdered<T(!new)>(cmp: (T, T) -> int, xs: seq<T>)
    requires TotalPreorder(cmp)
    ensures IsOrdered(cmp, Sorted(cmp, xs))
  {
    if xs != [] {
      SortedIsOrdered(cmp, xs[1..]);
      InsertedIsOrdered(cmp, xs[0], Sorted(cmp, xs[1..]));
    }
  }

  lemma SortedKeepsElements<T>(cmp: (T, T) -> int, xs: seq<T>)
    ensures forall x :: x in Sorted(cmp, xs) <==> x in xs
  {
    SortedPermutes(cmp, xs);
    forall x ensures x in Sorted(cmp, xs) <==> x in xs {
      assert x in Sorted(cmp, xs) <==> x in multiset(Sorted(cmp, xs));
      assert x in xs <==> x in multiset(xs);
    }
  }

  lemma {:induction false} DistinctAreSingle<T(!new)>(xs: seq<T>)
    ensures (forall i, j :: 0 <= i < j < |xs| ==> xs[i] != xs[j]) <==> forall x :: x in xs ==> multiset(xs)[x] == 1
  {
    if xs != [] {
      var rest := xs[1..];
      DistinctAreSingle(rest);
      assert xs == [xs[0]] + rest;
      assert multiset(xs) == multiset{xs[0]} + multiset(rest);
      if forall i, j :: 0 <= i < j < |xs| ==> xs[i] != xs[j] {
        assert xs[0] !in rest;
        forall x | x in xs ensures multiset(xs)[x] == 1 {
          assert x != xs[0] ==> x in rest;
        }
      } else {
        var i, j :| 0 <= i < j < |xs| && xs[i] == xs[j];
        if i == 0 {
          assert xs[j] == rest[j - 1];
          assert multiset(xs)[xs[0]] >= 2;
        } else {
          assert rest[i - 1] == rest[j - 1];
          var x :| x in rest && multiset(rest)[x] != 1;
          assert x in xs && multiset(xs)[x] != 1;
        }
      }
    }
  }

  lemma SortedStaysDistinct<T(!new)>(cmp: (T, T) -> int, xs: seq<T>)
    requires forall i, j :: 0 <= i < j < |xs| ==> xs[i] != xs[j]
    ensures forall i, j :: 0 <= i < j < |Sorted(cmp, xs)| ==> Sorted(cmp, xs)[i] != Sorted(cmp, xs)[j]
  {
    SortedPermutes(cmp, xs);
    SortedKeepsElements(cmp, xs);
    DistinctAreSingle(xs);
    DistinctAreSingle(Sorted(cmp, xs));
  }
}
