/**
 * The ordering that a query's `orderBy` clause asks the database for,
 * given as a reference definition: a stable insertion sort under a total
 * preorder, and the code-unit lexicographic order on strings.
 */
module Sorting {

  /** `le` is total and transitive. */
  ghost predicate TotalPreorder<T(!new)>(le: (T, T) -> bool) {
    && (forall a, b :: le(a, b) || le(b, a))
    && (forall a, b, c :: le(a, b) && le(b, c) ==> le(a, c))
  }

  predicate SortedBy<T>(s: seq<T>, le: (T, T) -> bool) {
    forall i, j :: 0 <= i < j < |s| ==> le(s[i], s[j])
  }

  /** `x` placed before the first element it is not after. */
  function Insert<T(==,!new)>(x: T, s: seq<T>, le: (T, T) -> bool): (r: seq<T>)
    requires TotalPreorder(le) && SortedBy(s, le)
    ensures SortedBy(r, le)
    ensures multiset(r) == multiset(s) + multiset{x}
  {
    if s == [] then [x]
    else if le(x, s[0]) then
      assert forall j :: 0 <= j < |s| ==> le(s[0], s[j]);
      [x] + s
    else
      var t := Insert(x, s[1..], le);
      assert s == [s[0]] + s[1..];
      AddedStaysAfter(s[0], x, s[1..], t, le);
      ConsSorted(s[0], t, le);
      [s[0]] + t
  }

  /** An element at or before `x` and every element of `s` is at or before every element of `s` with `x` added. */
  lemma AddedStaysAfter<T>(y: T, x: T, s: seq<T>, t: seq<T>, le: (T, T) -> bool)
    requires multiset(t) == multiset(s) + multiset{x}
    requires le(y, x) && forall j :: 0 <= j < |s| ==> le(y, s[j])
    ensures forall j :: 0 <= j < |t| ==> le(y, t[j])
  {
    forall j | 0 <= j < |t|
      ensures le(y, t[j])
    {
      assert t[j] in multiset(t);
      if t[j] != x {
        assert t[j] in multiset(s);
        var i :| 0 <= i < |s| && s[i] == t[j];
      }
    }
  }

  /** A sorted sequence stays sorted with an element in front that is at or before all of it. */
  lemma ConsSorted<T>(y: T, t: seq<T>, le: (T, T) -> bool)
    requires SortedBy(t, le) && forall j :: 0 <= j < |t| ==> le(y, t[j])
    ensures SortedBy([y] + t, le)
  {
    var r := [y] + t;
    forall i, j | 0 <= i < j < |r|
      ensures le(r[i], r[j])
    {
      assert r[j] == t[j - 1];
      if i > 0 {
        assert r[i] == t[i - 1];
      }
    }
  }

  /** Insertion sort: the rows of `s`, rearranged into `le` order. */
  function SortBy<T(==,!new)>(s: seq<T>, le: (T, T) -> bool): (r: seq<T>)
    requires TotalPreorder(le)
    ensures SortedBy(r, le)
    ensures multiset(r) == multiset(s)
    ensures |r| == |s|
  {
    if s == [] then []
    else
      assert s == [s[0]] + s[1..];
      var r := Insert(s[0], SortBy(s[1..], le), le);
      assert |r| == |multiset(r)|;
      r
  }

  /** An element at two positions of a sequence occurs in it at least twice. */
  lemma RepeatedCount<T>(r: seq<T>, i: int, j: int)
    requires 0 <= i < j < |r| && r[i] == r[j]
    ensures multiset(r)[r[i]] >= 2
  {
    assert r == r[..j] + r[j..];
    assert r[i] in r[..j];
    assert r[j] in r[j..];
    assert multiset(r) == multiset(r[..j]) + multiset(r[j..]);
  }

  // -----------------------------------------------------------------------
  // Strings in lexicographic order of their code units.

  predicate LexLe(a: string, b: string)
    decreases |a|
  {
    a == [] || (b != [] && (a[0] < b[0] || (a[0] == b[0] && LexLe(a[1..], b[1..]))))
  }

  lemma {:induction false} LexLeTotal(a: string, b: string)
    ensures LexLe(a, b) || LexLe(b, a)
    decreases |a|
  {
    if a != [] && b != [] && a[0] == b[0] {
      LexLeTotal(a[1..], b[1..]);
    }
  }

  lemma {:induction false} LexLeTransitive(a: string, b: string, c: string)
    requires LexLe(a, b) && LexLe(b, c)
    ensures LexLe(a, c)
    decreases |a|
  {
    if a != [] && b != [] && c != [] && a[0] == b[0] == c[0] {
      LexLeTransitive(a[1..], b[1..], c[1..]);
    }
  }

  lemma {:induction false} LexLeAntisymmetric(a: string, b: string)
    requires LexLe(a, b) && LexLe(b, a)
    ensures a == b
    decreases |a|
  {
    if a != [] {
      LexLeAntisymmetric(a[1..], b[1..]);
      assert a == [a[0]] + a[1..] && b == [b[0]] + b[1..];
    }
  }
}
