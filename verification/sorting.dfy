/** Ordering of query results: the in-memory counterpart of `order_by` and
    of a model's default `ordering`. */
module Sorting {

  /** `le` is a total preorder on the elements of `s`: any two can be
      compared, and comparison chains. */
  predicate TotalPreorderOn<T(==)>(s: seq<T>, le: (T, T) -> bool) {
    && (forall a, b | a in s && b in s :: le(a, b) || le(b, a))
    && (forall a, b, c | a in s && b in s && c in s :: le(a, b) && le(b, c) ==> le(a, c))
  }

  /** Every element comes no later than those after it. */
  predicate SortedBy<T>(s: seq<T>, le: (T, T) -> bool) {
    forall i, j | 0 <= i < j < |s| :: le(s[i], s[j])
  }

  lemma TotalPreorderOnSubset<T>(s: seq<T>, t: seq<T>, le: (T, T) -> bool)
    requires TotalPreorderOn(s, le)
    requires forall x | x in t :: x in s
    ensures TotalPreorderOn(t, le)
  {
  }

  /** The head of a sorted sequence comes no later than any element. */
  lemma SortedHeadFirst<T>(s: seq<T>, le: (T, T) -> bool)
    requires s != [] && TotalPreorderOn(s, le) && SortedBy(s, le)
    ensures forall y | y in s :: le(s[0], y)
  {
    forall y | y in s ensures le(s[0], y) {
      var k :| 0 <= k < |s| && s[k] == y;
      if k > 0 { assert le(s[0], s[k]); }
    }
  }

  /** An element that comes no later than the head of a sorted sequence
      comes no later than any of its elements. */
  lemma BeforeHeadBeforeAll<T>(x: T, s: seq<T>, le: (T, T) -> bool)
    requires s != [] && TotalPreorderOn([x] + s, le) && SortedBy(s, le) && le(x, s[0])
    ensures forall y | y in s :: le(x, y)
  {
    TotalPreorderOnSubset([x] + s, s, le);
    SortedHeadFirst(s, le);
    assert ([x] + s)[0] == x && ([x] + s)[1] == s[0];
  }

  /** Putting in front of a sorted sequence an element that comes no later
      than any of its elements keeps it sorted. */
  lemma PrependSorted<T>(x: T, s: seq<T>, le: (T, T) -> bool)
    requires SortedBy(s, le) && forall y | y in s :: le(x, y)
    ensures SortedBy([x] + s, le)
  {
    var r := [x] + s;
    assert forall j | 1 <= j < |r| :: r[j] == s[j - 1];
  }

  /** Inserts `x` into sorted `s` before the first element it does not follow. */
  function InsertSorted<T(==)>(x: T, s: seq<T>, le: (T, T) -> bool): (r: seq<T>)
    requires TotalPreorderOn([x] + s, le)
    requires SortedBy(s, le)
    ensures multiset(r) == multiset(s) + multiset{x}
    ensures SortedBy(r, le)
  {
    if s == [] then [x]
    else if le(x, s[0]) then
      BeforeHeadBeforeAll(x, s, le);
      PrependSorted(x, s, le);
      [x] + s
    else
      InsertAfterHead(x, s, le);
      var tail := InsertSorted(x, s[1..], le);
      assert multiset(tail) == multiset([x] + s[1..]);
      SameElementsBounded(s[0], [x] + s[1..], tail, le);
      PrependSorted(s[0], tail, le);
      assert s == [s[0]] + s[1..];
      [s[0]] + tail
  }

  /** A bound on every element carries over to a permutation. */
  lemma SameElementsBounded<T>(h: T, u: seq<T>, t: seq<T>, le: (T, T) -> bool)
    requires multiset(t) == multiset(u) && forall y | y in u :: le(h, y)
    ensures forall y | y in t :: le(h, y)
  {
    forall y | y in t ensures le(h, y) {
      assert y in multiset(t);
    }
  }

  /** The step of `InsertSorted` that keeps the head in front. */
  lemma InsertAfterHead<T>(x: T, s: seq<T>, le: (T, T) -> bool)
    requires s != [] && TotalPreorderOn([x] + s, le) && SortedBy(s, le) && !le(x, s[0])
    ensures TotalPreorderOn([x] + s[1..], le) && SortedBy(s[1..], le)
    ensures forall y | y in [x] + s[1..] :: le(s[0], y)
  {
    assert ([x] + s)[0] == x && ([x] + s)[1] == s[0];
    assert le(s[0], x);
    TotalPreorderOnSubset([x] + s, [x] + s[1..], le);
    TotalPreorderOnSubset([x] + s, s, le);
    SortedHeadFirst(s, le);
    assert forall y | y in s[1..] :: y in s;
  }

  /** An ordering of `s` by `le` that keeps every element exactly as often
      as it occurs. */
  function SortBy<T(==)>(s: seq<T>, le: (T, T) -> bool): (r: seq<T>)
    requires TotalPreorderOn(s, le)
    ensures multiset(r) == multiset(s)
    ensures SortedBy(r, le)
    ensures |r| == |s|
  {
    if s == [] then []
    else
      assert s == [s[0]] + s[1..];
      TotalPreorderOnSubset(s, s[1..], le);
      var rest := SortBy(s[1..], le);
      assert forall y | y in [s[0]] + rest :: y in s by {
        forall y | y in [s[0]] + rest ensures y in s {
          if y != s[0] { assert y in multiset(rest); }
        }
      }
      TotalPreorderOnSubset(s, [s[0]] + rest, le);
      var r := InsertSorted(s[0], rest, le);
      assert |r| == |multiset(r)|;
      r
  }

  /** A permutation has the same elements. */
  lemma SameMultisetSameElements<T>(s: seq<T>, t: seq<T>)
    requires multiset(s) == multiset(t)
    ensures forall x :: x in s <==> x in t
  {
    forall x ensures x in s <==> x in t {
      assert x in s <==> x in multiset(s);
      assert x in t <==> x in multiset(t);
    }
  }
}
