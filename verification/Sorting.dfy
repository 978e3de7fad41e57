/** Sorting by a strict order, as `sorted` does for keys that never tie. */
module Sorting {

  ghost predicate Transitive<T(!new)>(less: (T, T) -> bool) {
    && (forall x, y, z :: less(x, y) && less(y, z) ==> less(x, z))
    && forall x :: !less(x, x)
  }

  ghost predicate Ascending<T>(s: seq<T>, less: (T, T) -> bool) {
    forall j, k :: 0 <= j < k < |s| ==> less(s[j], s[k])
  }

  /** Any two entries can be told apart. */
  ghost predicate Comparable<T>(s: seq<T>, less: (T, T) -> bool) {
    forall j, k :: 0 <= j < k < |s| ==> less(s[j], s[k]) || less(s[k], s[j])
  }

  function Insert<T>(x: T, sorted: seq<T>, less: (T, T) -> bool): seq<T> {
    if sorted == [] || less(x, sorted[0]) then [x] + sorted
    else [sorted[0]] + Insert(x, sorted[1..], less)
  }

  function Sorted<T>(s: seq<T>, less: (T, T) -> bool): seq<T> {
    if s == [] then [] else Insert(s[|s| - 1], Sorted(s[..|s| - 1], less), less)
  }

  lemma {:induction false} InsertKeeps<T(!new)>(x: T, sorted: seq<T>, less: (T, T) -> bool)
    requires Transitive(less) && Ascending(sorted, less)
    requires forall y :: y in sorted ==> less(x, y) || less(y, x)
    ensures Ascending(Insert(x, sorted, less), less)
    ensures forall y :: y in Insert(x, sorted, less) <==> y == x || y in sorted
  {
    if sorted != [] {
      assert sorted[0] in sorted;
      if !less(x, sorted[0]) {
        InsertKeeps(x, sorted[1..], less);
        var rest := Insert(x, sorted[1..], less);
        assert sorted == [sorted[0]] + sorted[1..];
        forall k | 0 <= k < |rest| ensures less(sorted[0], rest[k]) {
          assert rest[k] in rest;
          assert rest[k] == x || exists j :: 0 <= j < |sorted| - 1 && sorted[1..][j] == rest[k];
        }
      }
    }
  }

  lemma {:induction false} SortedIs<T(!new)>(s: seq<T>, less: (T, T) -> bool)
    requires Transitive(less) && Comparable(s, less)
    ensures Ascending(Sorted(s, less), less)
    ensures forall x :: x in Sorted(s, less) <==> x in s
  {
    if s != [] {
      var n := |s| - 1;
      SortedIs(s[..n], less);
      forall y | y in Sorted(s[..n], less) ensures less(s[n], y) || less(y, s[n]) {
        assert y in s[..n];
      }
      InsertKeeps(s[n], Sorted(s[..n], less), less);
      assert s == s[..n] + [s[n]];
    }
  }

  /** What is in it decides what a sorted sequence is. */
  lemma {:induction false} SortedOneWay<T(!new)>(a: seq<T>, b: seq<T>, less: (T, T) -> bool)
    requires Transitive(less) && Ascending(a, less) && Ascending(b, less)
    requires forall x :: x in a <==> x in b
    ensures a == b
    decreases |a|
  {
    if a == [] {
      if b != [] {
        HasFirst(b);
        assert false;
      }
    } else {
      assert a[0] in b;
      var j :| 0 <= j < |b| && b[j] == a[0];
      assert b[0] in a;
      var i :| 0 <= i < |a| && a[i] == b[0];
      assert a[0] == b[0];
      assert a == [a[0]] + a[1..] && b == [b[0]] + b[1..];
      forall x | x in a[1..] ensures x in b[1..] {
        Later(a, x, less);
      }
      forall x | x in b[1..] ensures x in a[1..] {
        Later(b, x, less);
      }
      SortedOneWay(a[1..], b[1..], less);
    }
  }

  lemma HasFirst<T>(s: seq<T>)
    requires s != []
    ensures exists x :: x in s
  {
    assert s[0] in s;
  }

  lemma Later<T(!new)>(s: seq<T>, x: T, less: (T, T) -> bool)
    requires Transitive(less) && Ascending(s, less) && s != [] && x in s[1..]
    ensures x != s[0] && x in s
  {
    var k :| 0 <= k < |s| - 1 && s[1..][k] == x;
    assert s[k + 1] == x && less(s[0], s[k + 1]);
  }
}
