/** Order-preserving filtering of sequences: the in-memory counterpart of a
    Django `QuerySet.filter` over one table. */
module Seqs {

  import opened Wrappers

  /** `r` is `s` with some elements deleted: its elements occur in `s`, in
      the same order. */
  predicate Subseq<T(==)>(r: seq<T>, s: seq<T>) {
    r == [] || (s != [] && ((r[0] == s[0] && Subseq(r[1..], s[1..])) || Subseq(r, s[1..])))
  }

  /** The elements of `s` that satisfy `p`, in their original order. */
  function Filter<T(==,!new)>(s: seq<T>, p: T -> bool): (r: seq<T>)
    ensures |r| <= |s|
    ensures forall x :: x in r <==> x in s && p(x)
    ensures r == [] <==> forall x | x in s :: !p(x)
  {
    if s == [] then []
    else if p(s[0]) then [s[0]] + Filter(s[1..], p)
    else Filter(s[1..], p)
  }

  /** `Filter` keeps each element that satisfies `p` exactly as often as it
      occurs in `s`, drops every other, and keeps the order of `s`. */
  lemma {:induction false} FilterExact<T(!new)>(s: seq<T>, p: T -> bool)
    ensures forall x :: multiset(Filter(s, p))[x] == if p(x) then multiset(s)[x] else 0
    ensures Subseq(Filter(s, p), s)
  {
    if s != [] {
      FilterExact(s[1..], p);
      assert s == [s[0]] + s[1..];
      if p(s[0]) {
        assert Filter(s, p)[1..] == Filter(s[1..], p);
      }
    }
  }

  /** Filtering by a stronger predicate yields a subset. */
  lemma FilterMonotone<T(!new)>(s: seq<T>, p: T -> bool, q: T -> bool)
    requires forall x :: x in s && q(x) ==> p(x)
    ensures forall x :: x in Filter(s, q) ==> x in Filter(s, p)
  {
  }

  /** Filtering twice by the same predicate changes nothing more. */
  lemma {:induction false} FilterIdempotent<T(!new)>(s: seq<T>, p: T -> bool)
    ensures Filter(Filter(s, p), p) == Filter(s, p)
  {
    if s != [] {
      FilterIdempotent(s[1..], p);
    }
  }

  /** Filtering distributes over appending one element. */
  lemma {:induction false} FilterAppend<T(!new)>(s: seq<T>, x: T, p: T -> bool)
    ensures Filter(s + [x], p) == Filter(s, p) + (if p(x) then [x] else [])
  {
    if s != [] {
      assert (s + [x])[1..] == s[1..] + [x];
      FilterAppend(s[1..], x, p);
    }
  }

  /** A predicate that holds throughout keeps the whole sequence. */
  lemma {:induction false} FilterKeepsAll<T(!new)>(s: seq<T>, p: T -> bool)
    requires forall i | 0 <= i < |s| :: p(s[i])
    ensures Filter(s, p) == s
  {
    if s != [] {
      FilterKeepsAll(s[1..], p);
    }
  }

  /** Two kept elements come from two different positions of `s`. */
  lemma {:induction false} FilterTwo<T(!new)>(s: seq<T>, p: T -> bool)
    requires |Filter(s, p)| >= 2
    ensures exists i, j :: 0 <= i < j < |s| && p(s[i]) && p(s[j])
  {
    if p(s[0]) {
      assert |Filter(s[1..], p)| >= 1;
      var x := Filter(s[1..], p)[0];
      assert x in Filter(s[1..], p);
      var k :| 0 <= k < |s[1..]| && s[1..][k] == x;
      assert p(s[0]) && p(s[k + 1]);
    } else {
      FilterTwo(s[1..], p);
      var i, j :| 0 <= i < j < |s[1..]| && p(s[1..][i]) && p(s[1..][j]);
      assert p(s[i + 1]) && p(s[j + 1]);
    }
  }

  /** The first element of `s` whose key is `id`: Django's `objects.get(pk=id)`
      over a table whose keys are unique. */
  function Find<T>(s: seq<T>, key: T -> nat, id: nat): (r: Option<T>)
    ensures r.Some? ==> r.value in s && key(r.value) == id
    ensures r.None? ==> forall i :: 0 <= i < |s| ==> key(s[i]) != id
  {
    if s == [] then None
    else if key(s[0]) == id then Some(s[0])
    else Find(s[1..], key, id)
  }

  /** Applies `f` to each element in order; any error makes the whole
      result an error. */
  function MapResults<A, B, E>(s: seq<A>, f: A --> Result<B, E>): (r: Result<seq<B>, E>)
    requires forall i | 0 <= i < |s| :: f.requires(s[i])
    ensures r.Ok? <==> forall i | 0 <= i < |s| :: f(s[i]).Ok?
    ensures r.Ok? ==> |r.value| == |s| && forall i | 0 <= i < |s| :: r.value[i] == f(s[i]).value
  {
    if s == [] then Ok([])
    else
      assert forall i | 1 <= i < |s| :: s[1..][i - 1] == s[i];
      match f(s[0])
      case Err(e) => Err(e)
      case Ok(first) =>
        match MapResults(s[1..], f)
        case Err(e) => Err(e)
        case Ok(rest) => Ok([first] + rest)
  }
}
