/**
 * The two ways the configuration tests decide that a column has no repeated
 * value: `new Set(values).size === values.length`, and counting occurrences
 * in a `Map` and requiring every count to be 1. Both are stated here over the
 * column as a sequence, together with the pairwise notion they stand for.
 */
module Uniqueness {

  /** `rows.map(field)`: one property read from every row, in order. */
  function Column<R, T>(rows: seq<R>, field: R -> T): (col: seq<T>)
    ensures |col| == |rows|
    ensures forall i :: 0 <= i < |rows| ==> col[i] == field(rows[i])
  {
    seq(|rows|, i requires 0 <= i < |rows| => field(rows[i]))
  }

  /** No two positions hold the same value. */
  predicate Distinct<T(==)>(s: seq<T>) {
    forall i, j :: 0 <= i < j < |s| ==> s[i] != s[j]
  }

  /** `new Set(s)`. */
  function Elements<T>(s: seq<T>): set<T> {
    set x | x in s
  }

  /** `new Set(s).size === s.length`. */
  predicate SetSizeMatches<T(==)>(s: seq<T>) {
    |Elements(s)| == |s|
  }

  /** Every value of `s` occurs in it exactly once. */
  predicate EveryCountIsOne<T(==)>(s: seq<T>) {
    forall x :: x in s ==> multiset(s)[x] == 1
  }

  lemma ElementsOfCons<T>(s: seq<T>)
    requires |s| > 0
    ensures Elements(s) == {s[0]} + Elements(s[1..])
  {
    assert forall x :: x in s <==> x == s[0] || x in s[1..];
  }

  lemma {:induction false} ElementsBound<T>(s: seq<T>)
    ensures |Elements(s)| <= |s|
  {
    if |s| > 0 {
      ElementsOfCons(s);
      ElementsBound(s[1..]);
    }
  }

  lemma DistinctOfCons<T>(s: seq<T>)
    requires |s| > 0
    ensures Distinct(s) <==> s[0] !in s[1..] && Distinct(s[1..])
  {
    if Distinct(s) {
      forall i, j | 0 <= i < j < |s[1..]| ensures s[1..][i] != s[1..][j] {
        assert s[1..][i] == s[i + 1] && s[1..][j] == s[j + 1];
      }
    }
    if s[0] !in s[1..] && Distinct(s[1..]) {
      forall i, j | 0 <= i < j < |s| ensures s[i] != s[j] {
        if i == 0 {
          assert s[j] == s[1..][j - 1];
        } else {
          assert s[i] == s[1..][i - 1] && s[j] == s[1..][j - 1];
        }
      }
    }
  }

  /** The set-size test passes exactly when no value repeats. */
  lemma {:induction false} SetSizeIffDistinct<T>(s: seq<T>)
    ensures SetSizeMatches(s) <==> Distinct(s)
  {
    if |s| > 0 {
      ElementsOfCons(s);
      DistinctOfCons(s);
      SetSizeIffDistinct(s[1..]);
      ElementsBound(s[1..]);
      if s[0] in s[1..] {
        assert Elements(s) == Elements(s[1..]);
      } else {
        assert s[0] !in Elements(s[1..]);
      }
    }
  }

  /** The count-map test passes exactly when no value repeats. */
  lemma {:induction false} CountsOneIffDistinct<T>(s: seq<T>)
    ensures EveryCountIsOne(s) <==> Distinct(s)
  {
    if |s| > 0 {
      var rest := s[1..];
      assert s == [s[0]] + rest;
      assert multiset(s) == multiset{s[0]} + multiset(rest);
      DistinctOfCons(s);
      CountsOneIffDistinct(rest);
      if s[0] in rest {
        assert multiset(s)[s[0]] >= 2;
      } else {
        assert multiset(s)[s[0]] == 1;
        forall x | x in rest ensures multiset(s)[x] == multiset(rest)[x] {
          assert x != s[0];
        }
      }
    }
  }

  /** The two uniqueness tests agree on every column. */
  lemma SetSizeIffCountsOne<T>(s: seq<T>)
    ensures SetSizeMatches(s) <==> EveryCountIsOne(s)
  {
    SetSizeIffDistinct(s);
    CountsOneIffDistinct(s);
  }
}
