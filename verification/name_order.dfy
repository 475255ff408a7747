/**
 * Ordering of directory entry names.
 *
 * Entries are sorted by `Path.name`, which Python compares as strings: code
 * point by code point, a proper prefix coming first.  This module defines
 * that order, proves it is a strict total order, and provides the sorting
 * used for snapshot differences (insertion into a strictly increasing
 * sequence, which also drops duplicates, as the set the program sorts has
 * none).
 */
module NameOrder {

  /**
   * Python's `a < b` on `str` (code point by code point), stated without
   * recursion: `a` is a proper prefix of `b`, or at the first position where
   * they differ `a` has the smaller code point.
   */
  ghost predicate Lexicographic(a: string, b: string) {
    ProperPrefix(a, b) || SmallerAtFirstDifference(a, b)
  }

  ghost predicate ProperPrefix(a: string, b: string) {
    |a| < |b| && a == b[..|a|]
  }

  ghost predicate SmallerAtFirstDifference(a: string, b: string) {
    exists k :: 0 <= k < |a| && k < |b| && a[..k] == b[..k] && a[k] < b[k]
  }

  /** Python's `a < b` on `str`, compared from the first character on. */
  function NameLess(a: string, b: string): (r: bool)
    ensures r <==> Lexicographic(a, b)
    decreases |a|
  {
    if |a| == 0 then
      assert |b| > 0 ==> a == b[..|a|];
      |b| > 0
    else if |b| == 0 then false
    else if a[0] < b[0] then
      assert a[..0] == b[..0];
      true
    else if a[0] > b[0] then
      LexicographicHeadGreater(a, b);
      false
    else
      var r := NameLess(a[1..], b[1..]);
      LexicographicCons(a, b);
      r
  }

  lemma LexicographicHeadGreater(a: string, b: string)
    requires |a| > 0 && |b| > 0 && a[0] > b[0]
    ensures !Lexicographic(a, b)
  {
  }

  lemma LexicographicCons(a: string, b: string)
    requires |a| > 0 && |b| > 0 && a[0] == b[0]
    ensures Lexicographic(a, b) <==> Lexicographic(a[1..], b[1..])
  {
    assert a == [a[0]] + a[1..] && b == [b[0]] + b[1..];
    ProperPrefixCons(a, b);
    if SmallerAtFirstDifference(a[1..], b[1..]) {
      SmallerAtFirstDifferenceUp(a, b);
    }
    if SmallerAtFirstDifference(a, b) {
      SmallerAtFirstDifferenceDown(a, b);
    }
  }

  lemma ProperPrefixCons(a: string, b: string)
    requires |a| > 0 && |b| > 0 && a[0] == b[0]
    requires a == [a[0]] + a[1..] && b == [b[0]] + b[1..]
    ensures ProperPrefix(a, b) <==> ProperPrefix(a[1..], b[1..])
  {
    var a', b' := a[1..], b[1..];
    if ProperPrefix(a, b) {
      assert a' == b'[..|a'|];
    }
    if ProperPrefix(a', b') {
      assert b[..|a|] == [b[0]] + b'[..|a'|];
    }
  }

  lemma SmallerAtFirstDifferenceUp(a: string, b: string)
    requires |a| > 0 && |b| > 0 && a[0] == b[0]
    requires SmallerAtFirstDifference(a[1..], b[1..])
    ensures SmallerAtFirstDifference(a, b)
  {
    var a', b' := a[1..], b[1..];
    var k :| 0 <= k < |a'| && k < |b'| && a'[..k] == b'[..k] && a'[k] < b'[k];
    assert a[..k + 1] == [a[0]] + a'[..k];
    assert b[..k + 1] == [b[0]] + b'[..k];
    assert a[k + 1] == a'[k] && b[k + 1] == b'[k];
  }

  lemma SmallerAtFirstDifferenceDown(a: string, b: string)
    requires |a| > 0 && |b| > 0 && a[0] == b[0]
    requires SmallerAtFirstDifference(a, b)
    ensures SmallerAtFirstDifference(a[1..], b[1..])
  {
    var a', b' := a[1..], b[1..];
    var k :| 0 <= k < |a| && k < |b| && a[..k] == b[..k] && a[k] < b[k];
    assert k > 0;
    assert a'[..k - 1] == a[1..k] && b'[..k - 1] == b[1..k];
    assert a'[k - 1] == a[k] && b'[k - 1] == b[k];
  }

  lemma {:induction false} NameLessIrreflexive(a: string)
    ensures !NameLess(a, a)
    decreases |a|
  {
    if |a| > 0 {
      NameLessIrreflexive(a[1..]);
    }
  }

  lemma {:induction false} NameLessTransitive(a: string, b: string, c: string)
    requires NameLess(a, b) && NameLess(b, c)
    ensures NameLess(a, c)
    decreases |a|
  {
    if |a| > 0 {
      assert |b| > 0 && |c| > 0;
      if a[0] == b[0] && b[0] == c[0] {
        NameLessTransitive(a[1..], b[1..], c[1..]);
      }
    }
  }

  lemma {:induction false} NameLessTotal(a: string, b: string)
    requires a != b
    ensures NameLess(a, b) || NameLess(b, a)
    decreases |a|
  {
    if |a| > 0 && |b| > 0 && a[0] == b[0] {
      assert a == [a[0]] + a[1..] && b == [b[0]] + b[1..];
      NameLessTotal(a[1..], b[1..]);
    }
  }

  lemma NameLessAsymmetric(a: string, b: string)
    requires NameLess(a, b)
    ensures !NameLess(b, a)
  {
    if NameLess(b, a) {
      NameLessTransitive(a, b, a);
      NameLessIrreflexive(a);
    }
  }

  /** Strictly increasing by name: sorted and free of duplicates. */
  ghost predicate StrictlySorted(s: seq<string>) {
    forall i, j :: 0 <= i < j < |s| ==> NameLess(s[i], s[j])
  }

  /** Inserts `x` at its place in a strictly increasing sequence; a name already present is not repeated. */
  function Insert(x: string, s: seq<string>): (r: seq<string>)
    requires StrictlySorted(s)
    ensures StrictlySorted(r)
    ensures forall n :: n in r <==> n == x || n in s
    decreases |s|
  {
    if |s| == 0 then [x]
    else if x == s[0] then s
    else if NameLess(x, s[0]) then
      InsertFrontSorted(x, s);
      [x] + s
    else
      NameLessTotal(x, s[0]);
      var tail := Insert(x, s[1..]);
      InsertBehindSorted(s[0], s[1..], x, tail);
      [s[0]] + tail
  }

  lemma InsertFrontSorted(x: string, s: seq<string>)
    requires StrictlySorted(s) && |s| > 0 && NameLess(x, s[0])
    ensures StrictlySorted([x] + s)
  {
    forall j | 1 <= j < |s| + 1
      ensures NameLess(([x] + s)[0], ([x] + s)[j])
    {
      if j > 1 {
        NameLessTransitive(x, s[0], s[j - 1]);
      }
    }
  }

  lemma InsertBehindSorted(h: string, rest: seq<string>, x: string, tail: seq<string>)
    requires StrictlySorted([h] + rest) && NameLess(h, x)
    requires StrictlySorted(tail)
    requires forall n :: n in tail <==> n == x || n in rest
    ensures StrictlySorted([h] + tail)
  {
    var s := [h] + rest;
    forall j | 0 <= j < |tail|
      ensures NameLess(h, tail[j])
    {
      assert tail[j] in tail;
      if tail[j] != x {
        var k :| 0 <= k < |rest| && rest[k] == tail[j];
        assert s[k + 1] == rest[k];
        assert NameLess(s[0], s[k + 1]);
      }
    }
    forall i, j | 0 <= i < j < |tail| + 1
      ensures NameLess(([h] + tail)[i], ([h] + tail)[j])
    {
      if i > 0 {
        assert NameLess(tail[i - 1], tail[j - 1]);
      }
    }
  }

  /** `sorted(xs)` for names that are distinct once collected into a set. */
  function SortNames(xs: seq<string>): (r: seq<string>)
    ensures StrictlySorted(r)
    ensures forall n :: n in r <==> n in xs
    decreases |xs|
  {
    if |xs| == 0 then []
    else Insert(xs[0], SortNames(xs[1..]))
  }

  /** A strictly increasing sequence repeats no name. */
  lemma StrictlySortedDistinct(s: seq<string>)
    requires StrictlySorted(s)
    ensures forall i, j :: 0 <= i < j < |s| ==> s[i] != s[j]
  {
    forall i, j | 0 <= i < j < |s|
      ensures s[i] != s[j]
    {
      if s[i] == s[j] {
        assert NameLess(s[i], s[j]);
        NameLessIrreflexive(s[i]);
      }
    }
  }

  /** A sequence is empty exactly when no name is in it. */
  lemma NonEmptyIffMember(s: seq<string>)
    ensures |s| > 0 <==> exists n :: n in s
  {
    if |s| > 0 {
      assert s[0] in s;
    }
  }

  /** Two strictly increasing sequences with the same names are the same sequence. */
  lemma {:induction false} StrictlySortedUnique(a: seq<string>, b: seq<string>)
    requires StrictlySorted(a) && StrictlySorted(b)
    requires forall n :: n in a <==> n in b
    ensures a == b
    decreases |a|
  {
    NonEmptyIffMember(a);
    NonEmptyIffMember(b);
    if |a| > 0 {
      assert a[0] in b && b[0] in a;
      if a[0] != b[0] {
        var i :| 0 <= i < |a| && a[i] == b[0];
        var j :| 0 <= j < |b| && b[j] == a[0];
        assert NameLess(a[0], a[i]);
        assert NameLess(b[0], b[j]);
        NameLessAsymmetric(a[0], b[0]);
      }
      StrictlySortedDistinct(a);
      StrictlySortedDistinct(b);
      forall n
        ensures n in a[1..] <==> n in b[1..]
      {
        if n in a[1..] {
          var k :| 1 <= k < |a| && a[k] == n;
          assert n in b && n != b[0];
        }
        if n in b[1..] {
          var k :| 1 <= k < |b| && b[k] == n;
          assert n in a && n != a[0];
        }
      }
      StrictlySortedUnique(a[1..], b[1..]);
      assert a == [a[0]] + a[1..] && b == [b[0]] + b[1..];
    }
  }

  /** A sequence that repeats no name has exactly as many elements as the set of its names. */
  lemma {:induction false} DistinctCard(s: seq<string>)
    requires forall i, j :: 0 <= i < j < |s| ==> s[i] != s[j]
    ensures |set n | n in s| == |s|
    decreases |s|
  {
    if |s| > 0 {
      DistinctCard(s[1..]);
      var rest := set n | n in s[1..];
      assert s[0] !in rest;
      assert (set n | n in s) == {s[0]} + rest;
    }
  }

  /** A strictly increasing sequence has exactly as many elements as the set of its names. */
  lemma StrictlySortedCard(s: seq<string>)
    requires StrictlySorted(s)
    ensures |set n | n in s| == |s|
  {
    StrictlySortedDistinct(s);
    DistinctCard(s);
  }
}
