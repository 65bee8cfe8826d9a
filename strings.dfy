/**
  Strings as Python compares them (code point by code point), and the sorting
  that the source's `sorted(...)` calls perform on currency symbols and labels.
 */
module Strings {

  /** Python's `s <= t` on `str`: lexicographic order of code points. */
  predicate Le(s: string, t: string)
    decreases |s|
  {
    if s == [] then true
    else if t == [] then false
    else if s[0] != t[0] then s[0] < t[0]
    else Le(s[1..], t[1..])
  }

  lemma {:induction false} LeRefl(s: string)
    ensures Le(s, s)
    decreases |s|
  {
    if s != [] { LeRefl(s[1..]); }
  }

  lemma {:induction false} LeTotal(s: string, t: string)
    ensures Le(s, t) || Le(t, s)
    decreases |s|
  {
    if s != [] && t != [] && s[0] == t[0] { LeTotal(s[1..], t[1..]); }
  }

  lemma {:induction false} LeAntisymmetric(s: string, t: string)
    requires Le(s, t) && Le(t, s)
    ensures s == t
    decreases |s|
  {
    if s != [] && t != [] {
      LeAntisymmetric(s[1..], t[1..]);
      assert s == [s[0]] + s[1..] && t == [t[0]] + t[1..];
    }
  }

  lemma {:induction false} LeTransitive(s: string, t: string, u: string)
    requires Le(s, t) && Le(t, u)
    ensures Le(s, u)
    decreases |s|
  {
    if s != [] && t != [] && u != [] && s[0] == t[0] && t[0] == u[0] {
      LeTransitive(s[1..], t[1..], u[1..]);
    }
  }

  /** Ascending order, as `sorted` leaves a list. */
  predicate Sorted(s: seq<string>)
  {
    forall i, j :: 0 <= i < j < |s| ==> Le(s[i], s[j])
  }

  /** No element occurs twice, as in a list built from a Python `set`. */
  predicate Distinct<T(==)>(s: seq<T>)
  {
    forall i, j :: 0 <= i < j < |s| ==> s[i] != s[j]
  }

  /** The elements of `s`, each once, in order of first occurrence: a Python `set` of them, listed in insertion order. */
  function Dedup(s: seq<string>): (r: seq<string>)
    ensures Distinct(r) && forall x :: x in r <==> x in s
    decreases |s|
  {
    if s == [] then []
    else
      var n := |s| - 1;
      assert s == s[..n] + [s[n]];
      var r := Dedup(s[..n]);
      if s[n] in r then r else r + [s[n]]
  }

  /** Puts `x` into its place in the sorted list `s`. */
  function Insert(x: string, s: seq<string>): (r: seq<string>)
    requires Sorted(s)
    ensures Sorted(r)
    ensures multiset(r) == multiset(s) + multiset{x}
    ensures |r| == |s| + 1
  {
    if s == [] then [x]
    else if Le(x, s[0]) then
      assert forall j :: 0 < j < |s| ==> Le(x, s[j]) by {
        forall j | 0 < j < |s| ensures Le(x, s[j]) { LeTransitive(x, s[0], s[j]); }
      }
      [x] + s
    else
      var rest := Insert(x, s[1..]);
      LeTotal(x, s[0]);
      assert s == [s[0]] + s[1..];
      InsertBelow(s[0], x, s[1..], rest);
      [s[0]] + rest
  }

  /** A lower bound of `x` and of every element of `t` bounds every element of `r`. */
  lemma InsertBelow(y: string, x: string, t: seq<string>, r: seq<string>)
    requires Le(y, x) && forall j :: 0 <= j < |t| ==> Le(y, t[j])
    requires multiset(r) == multiset(t) + multiset{x}
    ensures forall j :: 0 <= j < |r| ==> Le(y, r[j])
  {
    forall j | 0 <= j < |r| ensures Le(y, r[j]) {
      assert r[j] in multiset(r);
      if r[j] != x {
        assert r[j] in multiset(t);
        var k :| 0 <= k < |t| && t[k] == r[j];
      }
    }
  }

  /**
    `sorted(s)`: an ascending arrangement of the same elements.
   */
  function Sort(s: seq<string>): (r: seq<string>)
    ensures Sorted(r)
    ensures multiset(r) == multiset(s)
    ensures |r| == |s|
  {
    if s == [] then []
    else
      assert s == s[..|s| - 1] + [s[|s| - 1]];
      Insert(s[|s| - 1], Sort(s[..|s| - 1]))
  }

  /** Sort keeps distinct elements distinct. */
  lemma SortDistinct(s: seq<string>)
    requires Distinct(s)
    ensures Distinct(Sort(s))
  {
    var r := Sort(s);
    forall i, j | 0 <= i < j < |r| ensures r[i] != r[j] {
      if r[i] == r[j] {
        TwiceCounted(r, i, j);
        DistinctCountAtMostOne(s, r[i]);
      }
    }
  }

  lemma TwiceCounted(r: seq<string>, i: nat, j: nat)
    requires i < j < |r| && r[i] == r[j]
    ensures multiset(r)[r[i]] >= 2
  {
    var x := r[i];
    assert r == r[..j] + r[j..];
    assert multiset(r) == multiset(r[..j]) + multiset(r[j..]);
    assert r[..j][i] == x;
    assert x in multiset(r[..j]);
    assert r[j..][0] == x;
    assert x in multiset(r[j..]);
  }

  lemma {:induction false} DistinctCountAtMostOne(s: seq<string>, x: string)
    requires Distinct(s)
    ensures multiset(s)[x] <= 1
    decreases |s|
  {
    if s != [] {
      assert s == [s[0]] + s[1..];
      assert Distinct(s[1..]);
      DistinctCountAtMostOne(s[1..], x);
      if s[0] == x {
        assert x !in s[1..];
      }
    }
  }
}
