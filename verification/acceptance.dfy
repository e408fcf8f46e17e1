/** The acceptance half of a `HousingMarket` round: a zone with room takes
    every proposer; a zone without takes the proposers with the highest
    utility, as many as it has free units. */
module Acceptance {
  import opened Dicts
  import opened Ranking
  import opened Proposals

  function Utility(p: Proposal): real {
    p.utility
  }

  /** How many elements Python's `s[:k]` keeps of `n`: `k` of them up to
      all, and for a negative `k` all but the last `-k`. */
  function SliceLength(n: nat, k: int): (m: nat)
    ensures m <= n
  {
    if k >= 0 then (if k <= n then k else n)
    else if n + k >= 0 then n + k else 0
  }

  /** `s[:k]`. */
  function SlicePrefix<T>(s: seq<T>, k: int): (r: seq<T>)
    ensures |r| == SliceLength(|s|, k) && r == s[..|r|]
  {
    s[..SliceLength(|s|, k)]
  }

  /** The proposers a zone with `available` free units accepts, in the
      order it admits them: all of them, in proposal order, when they fit;
      otherwise the first `available` of them sorted by descending utility,
      a stable sort (`sorted(..., key=itemgetter(1), reverse=True)`). */
  function Accepted(ps: seq<Proposal>, available: int): (r: seq<Proposal>)
    ensures multiset(r) <= multiset(ps)
  {
    if available >= |ps| then ps
    else
      var t := StableSortDesc(ps, Utility);
      var r := SlicePrefix(t, available);
      assert t == r + t[|r|..];
      r
  }

  /** A zone with room for every proposer accepts them all. */
  lemma AcceptAllWhenRoom(ps: seq<Proposal>, available: int)
    requires available >= |ps|
    ensures Accepted(ps, available) == ps
  {
  }

  /** A zone without room for every proposer fills exactly its free units;
      a negative count, which the slice reads from the end, accepts all but
      that many. */
  lemma AcceptedCount(ps: seq<Proposal>, available: int)
    requires available < |ps|
    ensures 0 <= available ==> |Accepted(ps, available)| == available
    ensures available < 0 ==> |Accepted(ps, available)| == if |ps| + available >= 0 then |ps| + available else 0
  {
    assert |multiset(StableSortDesc(ps, Utility))| == |multiset(ps)|;
  }

  /** Every accepted proposer has at least the utility of every proposer
      turned away. */
  lemma AcceptedBest(ps: seq<Proposal>, available: int, a: Proposal, q: Proposal)
    requires a in Accepted(ps, available)
    requires q in ps && q !in Accepted(ps, available)
    ensures a.utility >= q.utility
  {
    var t := StableSortDesc(ps, Utility);
    var r := Accepted(ps, available);
    StableSortSorted(ps, Utility);
    assert r == t[..|r|];
    assert q in multiset(t);
    var j :| 0 <= j < |t| && t[j] == q;
    var i :| 0 <= i < |r| && r[i] == a;
    assert t[i] == a;
  }

  /** Proposers of equal utility are accepted in proposal order: those the
      zone accepts at each utility are the first ones that proposed with
      it. */
  lemma AcceptedTies(ps: seq<Proposal>, available: int, v: real)
    ensures var acc := WithKey(Accepted(ps, available), Utility, v);
      |acc| <= |WithKey(ps, Utility, v)| && acc == WithKey(ps, Utility, v)[..|acc|]
  {
    if available < |ps| {
      var t := StableSortDesc(ps, Utility);
      StableSortWithKey(ps, Utility, v);
      WithKeyPrefix(t, SliceLength(|t|, available), Utility, v);
    }
  }

  /** The proposers are accepted once each when they proposed once each. */
  lemma AcceptedDistinct(ps: seq<Proposal>, available: int)
    requires Distinct(ps)
    ensures Distinct(Accepted(ps, available))
  {
    DistinctSubMultiset(Accepted(ps, available), ps);
  }
}
