/** The array operations the views use: `filter`, `find`, `new Set(...)`
    with its `size` and first-appearance iteration order, and `slice`. */
module Lists {
  import opened Wrappers

  /** `r` is `s` with some elements dropped and the rest in order. */
  predicate IsSubsequence<T(==)>(r: seq<T>, s: seq<T>)
    decreases |s|
  {
    if r == [] then true
    else if s == [] then false
    else (r[0] == s[0] && IsSubsequence(r[1..], s[1..])) || IsSubsequence(r, s[1..])
  }

  /** `s.filter(keep)`. */
  function Filter<T(==)>(s: seq<T>, keep: T -> bool): (r: seq<T>)
    ensures |r| <= |s|
    ensures forall i :: 0 <= i < |r| ==> r[i] in s && keep(r[i])
    ensures forall i :: 0 <= i < |s| && keep(s[i]) ==> s[i] in r
    ensures IsSubsequence(r, s)
    ensures multiset(r) <= multiset(s)
    ensures forall i :: 0 <= i < |s| ==>
      multiset(r)[s[i]] == if keep(s[i]) then multiset(s)[s[i]] else 0
    decreases |s|
  {
    if s == [] then []
    else
      var rest := Filter(s[1..], keep);
      assert forall i :: 1 <= i < |s| ==> s[i] == s[1..][i - 1];
      FilterCountStep(s, rest, keep);
      if keep(s[0]) then
        assert ([s[0]] + rest)[1..] == rest;
        [s[0]] + rest
      else
        rest
  }

  /** The step of `Filter`'s count clauses: if `rest` counts every element
      of `s[1..]` as the filter should, then so does `s[0]` consed onto
      `rest` (when `s[0]` is kept) or `rest` alone (when it is not) against `s`. */
  lemma FilterCountStep<T>(s: seq<T>, rest: seq<T>, keep: T -> bool)
    requires s != []
    requires multiset(rest) <= multiset(s[1..])
    requires forall i :: 1 <= i < |s| ==>
      multiset(rest)[s[i]] == if keep(s[i]) then multiset(s[1..])[s[i]] else 0
    ensures var r := if keep(s[0]) then [s[0]] + rest else rest;
      && multiset(r) <= multiset(s)
      && forall i :: 0 <= i < |s| ==>
        multiset(r)[s[i]] == if keep(s[i]) then multiset(s)[s[i]] else 0
  {
    var x, tail := s[0], s[1..];
    assert s == [x] + tail;
    var r := if keep(x) then [x] + rest else rest;
    assert multiset(s) == multiset{x} + multiset(tail);
    assert multiset(r) == (if keep(x) then multiset{x} else multiset{}) + multiset(rest);
    if x in tail {
      var j :| 0 <= j < |tail| && tail[j] == x;
      assert s[j + 1] == x;
    } else {
      assert multiset(rest)[x] <= multiset(tail)[x];
    }
  }

  /** A filter that keeps every element returns the sequence unchanged. */
  lemma {:induction false} FilterKeepsAll<T>(s: seq<T>, keep: T -> bool)
    requires forall i :: 0 <= i < |s| ==> keep(s[i])
    ensures Filter(s, keep) == s
    decreases |s|
  {
    if s != [] {
      FilterKeepsAll(s[1..], keep);
    }
  }

  /** Filtering a concatenation filters each part. */
  lemma {:induction false} FilterAppend<T>(s: seq<T>, t: seq<T>, keep: T -> bool)
    ensures Filter(s + t, keep) == Filter(s, keep) + Filter(t, keep)
    decreases |s|
  {
    if s == [] {
      assert s + t == t;
    } else {
      assert (s + t)[1..] == s[1..] + t;
      FilterAppend(s[1..], t, keep);
    }
  }

  /** Every element is kept by exactly one of a filter and its complement. */
  lemma {:induction false} FilterComplement<T>(s: seq<T>, keep: T -> bool, drop: T -> bool)
    requires forall x :: drop(x) == !keep(x)
    ensures |Filter(s, keep)| + |Filter(s, drop)| == |s|
    decreases |s|
  {
    if s != [] {
      FilterComplement(s[1..], keep, drop);
    }
  }

  /** `s.find(p)`: the first element satisfying `p`, if any. */
  function Find<T(==)>(s: seq<T>, p: T -> bool): (r: Option<T>)
    ensures r.Some? ==>
      exists i :: 0 <= i < |s| && s[i] == r.value && p(s[i]) && (forall j :: 0 <= j < i ==> !p(s[j]))
    ensures r.None? <==> forall i :: 0 <= i < |s| ==> !p(s[i])
    decreases |s|
  {
    if s == [] then None
    else if p(s[0]) then Some(s[0])
    else
      var r := Find(s[1..], p);
      assert forall i :: 1 <= i < |s| ==> s[i] == s[1..][i - 1];
      if r.Some? then
        var i :| 0 <= i < |s[1..]| && s[1..][i] == r.value && p(s[1..][i]) && forall j :: 0 <= j < i ==> !p(s[1..][j]);
        assert s[i + 1] == r.value && forall j :: 0 <= j < i + 1 ==> !p(s[j]);
        r
      else r
  }

  /** No element occurs twice. */
  predicate NoDuplicates<T(==)>(s: seq<T>) {
    forall i, j :: 0 <= i < j < |s| ==> s[i] != s[j]
  }

  /** The distinct elements of `s` in first-appearance order, as iterating a
      `Set` built from `s` yields them. */
  function Distinct<T(==)>(s: seq<T>): (r: seq<T>)
    ensures NoDuplicates(r)
    ensures forall i :: 0 <= i < |r| ==> r[i] in s
    ensures forall i :: 0 <= i < |s| ==> s[i] in r
    ensures |r| <= |s|
    decreases |s|
  {
    if s == [] then []
    else
      var r := Distinct(s[..|s| - 1]);
      var last := s[|s| - 1];
      assert forall i :: 0 <= i < |s| - 1 ==> s[i] == s[..|s| - 1][i];
      if last in r then r else r + [last]
  }

  /** Adding one element at the end appends at most that element. */
  lemma DistinctStep<T>(t: seq<T>)
    requires t != []
    ensures var d := Distinct(t[..|t| - 1]);
      |d| <= |Distinct(t)| && Distinct(t)[..|d|] == d
  {
  }

  /** Growing the input only appends to the distinct elements: the order is
      fixed by first appearance. */
  lemma {:induction false} DistinctPrefix<T>(s: seq<T>, k: nat)
    requires k <= |s|
    ensures |Distinct(s[..k])| <= |Distinct(s)|
    ensures Distinct(s)[..|Distinct(s[..k])|] == Distinct(s[..k])
    decreases |s| - k
  {
    if k < |s| {
      DistinctPrefix(s, k + 1);
      var t := s[..k + 1];
      assert t[..|t| - 1] == s[..k];
      DistinctStep(t);
      var dk := Distinct(s[..k]);
      var dk1 := Distinct(t);
      var ds := Distinct(s);
      assert ds[..|dk1|][..|dk|] == ds[..|dk|];
    } else {
      assert s[..k] == s;
    }
  }

  /** A sequence without duplicates has as many elements as its set. */
  lemma {:induction false} NoDuplicatesCard<T>(s: seq<T>)
    requires NoDuplicates(s)
    ensures |set x | x in s| == |s|
    decreases |s|
  {
    if s != [] {
      var t := s[..|s| - 1];
      assert NoDuplicates(t);
      NoDuplicatesCard(t);
      var last := s[|s| - 1];
      assert last !in t;
      assert (set x | x in s) == (set x | x in t) + {last};
    }
  }

  /** `s.slice(0, n)`. */
  function Take<T>(s: seq<T>, n: nat): (r: seq<T>)
    ensures |r| == if |s| < n then |s| else n
    ensures r == s[..|r|]
  {
    if |s| <= n then s else s[..n]
  }

  /** A prefix shorter than the cut survives any extension of the input. */
  lemma TakeKeepsShortPrefix<T>(p: seq<T>, s: seq<T>, n: nat)
    requires |p| < n && |p| <= |s| && s[..|p|] == p
    ensures |p| <= |Take(s, n)| && Take(s, n)[..|p|] == p
  {
  }

  /** `new Set(s).size`: the number of distinct elements, never more than
      the number of elements. */
  function DistinctCount<T(==)>(s: seq<T>): (n: nat)
    ensures n == |Distinct(s)|
    ensures n <= |s|
  {
    NoDuplicatesCard(Distinct(s));
    assert (set x | x in Distinct(s)) == (set x | x in s);
    |set x | x in s|
  }
}
