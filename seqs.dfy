/** Option, and the two array searches the store code is built on:
    `Array.prototype.find` (first element satisfying a test) and
    `Array.prototype.filter` (all elements satisfying it, in order). */
module Seqs {

  datatype Option<+T> = None | Some(value: T)

  /** Index of the first element of `s` satisfying `p`, or None. */
  function Find<T>(s: seq<T>, p: T -> bool): (r: Option<nat>)
    ensures r.None? <==> forall k :: 0 <= k < |s| ==> !p(s[k])
    ensures r.Some? ==> r.value < |s| && p(s[r.value])
    ensures r.Some? ==> forall k :: 0 <= k < r.value ==> !p(s[k])
  {
    if |s| == 0 then None
    else if p(s[0]) then Some(0)
    else
      match Find(s[1..], p)
      case None =>
        assert forall k :: 1 <= k < |s| ==> s[k] == s[1..][k - 1];
        None
      case Some(k) =>
        assert forall j :: 1 <= j <= k ==> s[j] == s[1..][j - 1];
        Some(k + 1)
  }

  /** The elements of `s` satisfying `p`, each as often as in `s`; that the
      order is kept is stated by FindAfterFilter. */
  function Filter<T(!new)>(s: seq<T>, p: T -> bool): (r: seq<T>)
    ensures |r| <= |s|
    ensures forall x :: multiset(r)[x] == if p(x) then multiset(s)[x] else 0
    ensures forall x :: x in r ==> p(x) && x in s
  {
    if |s| == 0 then []
    else
      var rest := Filter(s[1..], p);
      assert s == [s[0]] + s[1..];
      if p(s[0]) then [s[0]] + rest else rest
  }

  /** Filtering keeps order: the first element of `Filter(s, p)` passing `q`
      is the first element of `s` passing both tests (`pq` is their
      conjunction), so `filter` followed by `find` picks what a single `find`
      over the original list would. */
  lemma {:induction false} FindAfterFilter<T(!new)>(s: seq<T>, p: T -> bool, q: T -> bool, pq: T -> bool)
    requires forall x :: pq(x) == (p(x) && q(x))
    ensures Find(Filter(s, p), q).Some? <==> Find(s, pq).Some?
    ensures Find(Filter(s, p), q).Some? ==> Filter(s, p)[Find(Filter(s, p), q).value] == s[Find(s, pq).value]
  {
    if |s| > 0 {
      var rest := Filter(s[1..], p);
      FindAfterFilter(s[1..], p, q, pq);
      assert s == [s[0]] + s[1..];
      FindCons(s[0], s[1..], pq);
      if p(s[0]) {
        assert Filter(s, p) == [s[0]] + rest;
        FindCons(s[0], rest, q);
        var fr := Find(rest, q);
        assert fr.Some? ==> ([s[0]] + rest)[fr.value + 1] == rest[fr.value];
      } else {
        assert Filter(s, p) == rest;
      }
      var fs := Find(s[1..], pq);
      assert fs.Some? ==> s[fs.value + 1] == s[1..][fs.value];
    }
  }

  /** `Find` on a list with a known head. */
  lemma FindCons<T>(x: T, rest: seq<T>, q: T -> bool)
    ensures Find([x] + rest, q) ==
      if q(x) then Some(0) else if Find(rest, q).Some? then Some(Find(rest, q).value + 1) else None
  {
    assert ([x] + rest)[1..] == rest;
  }

  predicate NoDuplicates<T(==)>(s: seq<T>)
  {
    forall i, j :: 0 <= i < j < |s| ==> s[i] != s[j]
  }
}
