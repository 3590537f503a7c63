/** A user's generation history as `getUserGenerations` lists it: that
    user's records, newest first, at most fifty of them. The listing keeps
    ties in their stored order, as the stable `Array.prototype.sort` does. */
module History {
  import opened Seqs
  import opened Records

  const ListLimit := 50

  predicate NewestFirst(s: seq<Generation>)
  {
    forall i, j :: 0 <= i < j < |s| ==> s[i].createdAt >= s[j].createdAt
  }

  /** `generations.filter(g => g.userId === userId)` */
  function OwnedBy(gens: seq<Generation>, userId: string): (r: seq<Generation>)
    ensures forall g :: g in r ==> g.userId == userId && g in gens
    ensures forall g: Generation :: g.userId == userId ==> multiset(r)[g] == multiset(gens)[g]
  {
    Filter(gens, (g: Generation) => g.userId == userId)
  }

  /** Places `g` in front of the first entry that is not newer than it. */
  function InsertNewestFirst(g: Generation, s: seq<Generation>): (r: seq<Generation>)
    requires NewestFirst(s)
    ensures NewestFirst(r)
    ensures |r| == |s| + 1
    ensures forall k :: 0 <= k < |r| ==> r[k] == g || r[k] in s
    ensures multiset(r) == multiset(s) + multiset{g}
  {
    if s == [] || s[0].createdAt <= g.createdAt then [g] + s
    else
      var rest := InsertNewestFirst(g, s[1..]);
      assert s == [s[0]] + s[1..];
      var r := [s[0]] + rest;
      assert forall k :: 1 <= k < |r| ==> r[k] == rest[k - 1];
      assert forall k :: 0 <= k < |rest| ==> s[0].createdAt >= rest[k].createdAt;
      assert multiset(r) == multiset([s[0]]) + multiset(rest);
      assert multiset(s) == multiset([s[0]]) + multiset(s[1..]);
      r
  }

  /** `.sort((a, b) => b.createdAt - a.createdAt)`, by stable insertion. */
  function SortNewestFirst(s: seq<Generation>): (r: seq<Generation>)
    ensures NewestFirst(r)
    ensures multiset(r) == multiset(s)
  {
    if s == [] then []
    else
      assert s == [s[0]] + s[1..];
      InsertNewestFirst(s[0], SortNewestFirst(s[1..]))
  }

  function Min(a: int, b: int): int
  {
    if a <= b then a else b
  }

  /** The listing: only the user's records, newest first, at most fifty and
      all of them when there are no more, each at most as often as stored,
      and none left out that is newer than one listed. */
  function UserGenerations(gens: seq<Generation>, userId: string): (r: seq<Generation>)
    ensures |r| == Min(ListLimit, |OwnedBy(gens, userId)|)
    ensures multiset(r) <= multiset(OwnedBy(gens, userId))
    ensures forall g :: g in r ==> g.userId == userId && g in gens
    ensures NewestFirst(r)
    ensures forall g, h :: g in gens && g.userId == userId && g !in r && h in r ==> h.createdAt >= g.createdAt
    ensures |OwnedBy(gens, userId)| <= ListLimit ==> forall g :: g in gens && g.userId == userId ==> g in r
  {
    var owned := OwnedBy(gens, userId);
    var sorted := SortNewestFirst(owned);
    var n := Min(ListLimit, |sorted|);
    ListingFacts(gens, userId, owned, sorted, n);
    sorted[..n]
  }

  /** What the listing promises, for the first `n` entries of a newest-first
      permutation of the user's records. */
  lemma ListingFacts(gens: seq<Generation>, userId: string, owned: seq<Generation>, sorted: seq<Generation>, n: nat)
    requires owned == OwnedBy(gens, userId)
    requires multiset(sorted) == multiset(owned) && NewestFirst(sorted)
    requires n == Min(ListLimit, |sorted|)
    ensures |sorted[..n]| == Min(ListLimit, |owned|)
    ensures multiset(sorted[..n]) <= multiset(owned)
    ensures forall g :: g in sorted[..n] ==> g.userId == userId && g in gens
    ensures NewestFirst(sorted[..n])
    ensures forall g, h :: g in gens && g.userId == userId && g !in sorted[..n] && h in sorted[..n] ==> h.createdAt >= g.createdAt
    ensures |owned| <= ListLimit ==> forall g :: g in gens && g.userId == userId ==> g in sorted[..n]
  {
    SameElements(gens, userId, owned, sorted);
    PrefixNotOlder(sorted, n);
    PrefixSubMultiset(sorted, n);
    var r := sorted[..n];
    assert forall k :: 0 <= k < n ==> r[k] == sorted[k];
    forall g | g in r ensures g in sorted {
      var k :| 0 <= k < n && r[k] == g;
    }
    if |owned| <= ListLimit {
      assert r == sorted;
    }
  }

  /** A newest-first permutation of the user's records holds exactly the
      user's records. */
  lemma SameElements(gens: seq<Generation>, userId: string, owned: seq<Generation>, sorted: seq<Generation>)
    requires owned == OwnedBy(gens, userId)
    requires multiset(sorted) == multiset(owned)
    ensures |sorted| == |owned|
    ensures forall g :: g in sorted ==> g.userId == userId && g in gens
    ensures forall g :: g in gens && g.userId == userId ==> g in sorted
  {
    assert |sorted| == |multiset(sorted)| == |multiset(owned)| == |owned|;
    forall g | g in sorted ensures g.userId == userId && g in gens {
      assert g in multiset(sorted);
      assert g in multiset(owned);
    }
    forall g | g in gens && g.userId == userId ensures g in sorted {
      assert g in multiset(gens);
      assert multiset(owned)[g] == multiset(gens)[g];
      assert g in multiset(sorted);
    }
  }

  /** A prefix holds each element at most as often as the whole list. */
  lemma PrefixSubMultiset(s: seq<Generation>, n: nat)
    requires n <= |s|
    ensures multiset(s[..n]) <= multiset(s)
  {
    assert s == s[..n] + s[n..];
    assert multiset(s) == multiset(s[..n]) + multiset(s[n..]);
  }

  /** In a newest-first list, every entry of a prefix is at least as new as
      every entry past it. */
  lemma PrefixNotOlder(s: seq<Generation>, n: nat)
    requires NewestFirst(s) && n <= |s|
    ensures forall g, h :: g in s && g !in s[..n] && h in s[..n] ==> h.createdAt >= g.createdAt
  {
    forall g, h | g in s && g !in s[..n] && h in s[..n] ensures h.createdAt >= g.createdAt {
      var j :| 0 <= j < |s| && s[j] == g;
      var i :| 0 <= i < n && s[..n][i] == h;
      assert s[i] == h;
    }
  }

  /** A record newer than every other record of its user is listed first
      once it is appended: what the handler stores is what the history
      listing shows, with the same prompt, images and cost. */
  lemma {:induction false} AppendedNewestListedFirst(gens: seq<Generation>, g: Generation)
    requires forall h :: h in gens && h.userId == g.userId ==> h.createdAt < g.createdAt
    ensures |UserGenerations(gens + [g], g.userId)| >= 1
    ensures UserGenerations(gens + [g], g.userId)[0] == g
  {
    var all := gens + [g];
    var owned := OwnedBy(all, g.userId);
    var r := UserGenerations(all, g.userId);
    assert g in all && g in multiset(all);
    assert g in multiset(owned);
    assert |owned| >= 1;
    assert |r| >= 1;
    var top := r[0];
    assert top in r;
    assert top in all && top.userId == g.userId;
    assert g in r;
    var j :| 0 <= j < |r| && r[j] == g;
    assert top.createdAt >= g.createdAt;
  }
}
