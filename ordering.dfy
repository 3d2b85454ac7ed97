/** The string order that `sorted()` and pandas' `sort_index` use (code
    point by code point, a proper prefix first), and sorting a collection of
    distinct strings in either direction. */
module Ordering {

  /** `a < b` on Python strings. */
  predicate Less(a: string, b: string) {
    if a == [] then b != []
    else b != [] && (a[0] < b[0] || (a[0] == b[0] && Less(a[1..], b[1..])))
  }

  lemma {:induction false} LessIrreflexive(a: string)
    ensures !Less(a, a)
  {
    if a != [] {
      LessIrreflexive(a[1..]);
    }
  }

  lemma {:induction false} LessTransitive(a: string, b: string, c: string)
    requires Less(a, b) && Less(b, c)
    ensures Less(a, c)
  {
    if a != [] && a[0] == b[0] && b[0] == c[0] {
      LessTransitive(a[1..], b[1..], c[1..]);
    }
  }

  /** Two different strings are ordered one way or the other. */
  lemma {:induction false} LessTotal(a: string, b: string)
    requires a != b
    ensures Less(a, b) || Less(b, a)
  {
    if a != [] && b != [] && a[0] == b[0] {
      assert a == [a[0]] + a[1..] && b == [b[0]] + b[1..];
      LessTotal(a[1..], b[1..]);
    }
  }

  lemma {:induction false} LessAsymmetric(a: string, b: string)
    requires Less(a, b)
    ensures !Less(b, a)
  {
    if Less(b, a) {
      LessTransitive(a, b, a);
      LessIrreflexive(a);
    }
  }

  /** `a` comes before `b`: ascending, or descending when `desc` holds
      (`reverse=True`, `ascending=False`). */
  predicate Before(a: string, b: string, desc: bool) {
    if desc then Less(b, a) else Less(a, b)
  }

  /** Every element comes strictly before the ones after it. */
  predicate Sorted(s: seq<string>, desc: bool) {
    forall i, j :: 0 <= i < j < |s| ==> Before(s[i], s[j], desc)
  }

  /** Puts `x` in its place in a sorted sequence, unless it is there already. */
  function Insert(x: string, s: seq<string>, desc: bool): (r: seq<string>)
    requires Sorted(s, desc)
    ensures Sorted(r, desc)
    ensures forall y :: y in r <==> y == x || y in s
  {
    if s == [] then [x]
    else if x == s[0] then s
    else if Before(x, s[0], desc) then
      assert forall j :: 0 < j < |s| ==> Before(x, s[j], desc) by {
        forall j | 0 < j < |s| ensures Before(x, s[j], desc) {
          if desc { LessTransitive(s[j], s[0], x); } else { LessTransitive(x, s[0], s[j]); }
        }
      }
      [x] + s
    else
      LessTotal(x, s[0]);
      assert Before(s[0], x, desc);
      var t := Insert(x, s[1..], desc);
      HeadBefore(x, s, t, desc);
      assert forall y :: y in s[1..] ==> y in s;
      assert forall y :: y in s ==> y == s[0] || y in s[1..] by {
        assert s == [s[0]] + s[1..];
      }
      [s[0]] + t
  }

  /** The head of a sorted sequence comes before everything drawn from its
      tail or from an element it comes before. */
  lemma HeadBefore(x: string, s: seq<string>, t: seq<string>, desc: bool)
    requires Sorted(s, desc) && s != [] && Before(s[0], x, desc)
    requires forall y :: y in t ==> y == x || y in s[1..]
    ensures forall j :: 0 <= j < |t| ==> Before(s[0], t[j], desc)
  {
    forall j | 0 <= j < |t| ensures Before(s[0], t[j], desc) {
      if t[j] != x {
        assert t[j] in s[1..];
        var k :| 0 <= k < |s[1..]| && s[1..][k] == t[j];
        assert s[k + 1] == t[j];
      }
    }
  }

  /** `sorted(set(s), reverse=desc)`: the distinct elements of `s`, each
      once, in order. */
  function SortedSet(s: seq<string>, desc: bool): (r: seq<string>)
    ensures Sorted(r, desc)
    ensures forall y :: y in r <==> y in s
  {
    if s == [] then []
    else
      var r := Insert(s[|s| - 1], SortedSet(s[..|s| - 1], desc), desc);
      assert forall y :: y in s <==> y in s[..|s| - 1] || y == s[|s| - 1] by {
        assert s == s[..|s| - 1] + [s[|s| - 1]];
      }
      r
  }

  /** A sorted sequence has no repeated element. */
  lemma SortedDistinct(s: seq<string>, desc: bool, i: int, j: int)
    requires Sorted(s, desc) && 0 <= i < j < |s|
    ensures s[i] != s[j]
  {
    assert Before(s[i], s[j], desc);
    LessIrreflexive(s[i]);
  }

  lemma SameMembersEmpty(r: seq<string>, t: seq<string>)
    requires forall y :: y in r <==> y in t
    ensures r == [] <==> t == []
  {
    if r != [] {
      assert r[0] in t;
    }
    if t != [] {
      assert t[0] in r;
    }
  }

  /** Sorting is determined by the elements: two sorted sequences with the
      same members are the same sequence. */
  lemma {:induction false} SortedUnique(r: seq<string>, t: seq<string>, desc: bool)
    requires Sorted(r, desc) && Sorted(t, desc)
    requires forall y :: y in r <==> y in t
    ensures r == t
  {
    if r != [] && t != [] {
      if r[0] != t[0] {
        assert r[0] in t && t[0] in r;
        var i :| 0 <= i < |t| && t[i] == r[0];
        var j :| 0 <= j < |r| && r[j] == t[0];
        assert i > 0 && j > 0;
        assert Before(t[0], r[0], desc) && Before(r[0], t[0], desc);
        if desc { LessAsymmetric(t[0], r[0]); } else { LessAsymmetric(r[0], t[0]); }
      }
      forall y ensures y in r[1..] <==> y in t[1..] {
        if y in r[1..] {
          var i :| 1 <= i < |r| && r[i] == y;
          SortedDistinct(r, desc, 0, i);
          assert y in t && y != t[0];
        }
        if y in t[1..] {
          var i :| 1 <= i < |t| && t[i] == y;
          SortedDistinct(t, desc, 0, i);
          assert y in r && y != r[0];
        }
      }
      SortedUnique(r[1..], t[1..], desc);
      assert r == [r[0]] + r[1..] && t == [t[0]] + t[1..];
    } else {
      SameMembersEmpty(r, t);
    }
  }
}
