/** The two orderings the housing market sorts by.

    A household ranks its candidate zones the way Python sorts the pairs
    `(utility, zone name)` and reads them from the end: higher utility first,
    and on equal utility the larger zone name first, names compared character
    by character as Python compares strings.

    A zone short of units orders its proposers with Python's `sorted(...,
    key=utility, reverse=True)`, which is stable: proposers of equal utility
    keep the order in which they proposed. */
module Ranking {
  import opened Dicts
  import opened Results

  /** Python's `a < b` on strings: lexicographic by character, a proper
      prefix first. */
  predicate StrLess(a: string, b: string)
    decreases |a|
  {
    if |a| == 0 then |b| > 0
    else |b| > 0 && (a[0] < b[0] || (a[0] == b[0] && StrLess(a[1..], b[1..])))
  }

  lemma StrLessIrreflexive(a: string)
    ensures !StrLess(a, a)
  {
  }

  lemma {:induction false} StrLessTransitive(a: string, b: string, c: string)
    requires StrLess(a, b) && StrLess(b, c)
    ensures StrLess(a, c)
    decreases |a|
  {
    if |a| > 0 && a[0] == b[0] && b[0] == c[0] {
      StrLessTransitive(a[1..], b[1..], c[1..]);
    }
  }

  lemma {:induction false} StrLessTotal(a: string, b: string)
    requires a != b
    ensures StrLess(a, b) || StrLess(b, a)
    decreases |a|
  {
    if |a| > 0 && |b| > 0 && a[0] == b[0] {
      assert a == [a[0]] + a[1..] && b == [b[0]] + b[1..];
      StrLessTotal(a[1..], b[1..]);
    }
  }

  lemma {:induction false} StrLessAsymmetric(a: string, b: string)
    requires StrLess(a, b)
    ensures !StrLess(b, a)
    decreases |a|
  {
    if |a| > 0 && a[0] == b[0] {
      StrLessAsymmetric(a[1..], b[1..]);
    }
  }

  /** A scored candidate zone of one household: `(zone name, utility)`. */
  type Candidate = (string, real)

  /** `x` sorts after `y` in Python's ascending order of `(utility, name)`,
      so a household prefers `x`. */
  predicate Better(x: Candidate, y: Candidate) {
    x.1 > y.1 || (x.1 == y.1 && StrLess(y.0, x.0))
  }

  lemma BetterIrreflexive(x: Candidate)
    ensures !Better(x, x)
  {
    StrLessIrreflexive(x.0);
  }

  lemma BetterAsymmetric(x: Candidate, y: Candidate)
    requires Better(x, y)
    ensures !Better(y, x)
  {
    if x.1 == y.1 {
      StrLessAsymmetric(y.0, x.0);
    }
  }

  lemma BetterTransitive(x: Candidate, y: Candidate, z: Candidate)
    requires Better(x, y) && Better(y, z)
    ensures Better(x, z)
  {
    if x.1 == y.1 && y.1 == z.1 {
      StrLessTransitive(z.0, y.0, x.0);
    }
  }

  lemma BetterTotal(x: Candidate, y: Candidate)
    requires x.0 != y.0
    ensures Better(x, y) || Better(y, x)
  {
    StrLessTotal(x.0, y.0);
  }

  /** No zone is scored twice: the candidates are the items of a dictionary
      keyed by zone name. */
  predicate DistinctZones(u: seq<Candidate>) {
    forall i, j :: 0 <= i < j < |u| ==> u[i].0 != u[j].0
  }

  predicate SortedBest(t: seq<Candidate>) {
    forall i, j :: 0 <= i < j < |t| ==> Better(t[i], t[j])
  }

  lemma InsertFront(x: Candidate, t: seq<Candidate>)
    requires SortedBest(t) && |t| > 0 && Better(x, t[0])
    ensures SortedBest([x] + t)
  {
    forall j | 0 <= j < |t|
      ensures Better(x, t[j])
    {
      if j > 0 { BetterTransitive(x, t[0], t[j]); }
    }
    var r := [x] + t;
    forall i, j | 0 <= i < j < |r|
      ensures Better(r[i], r[j])
    {
      if i > 0 { assert r[i] == t[i - 1] && r[j] == t[j - 1]; }
    }
  }

  lemma InsertBehind(x: Candidate, t: seq<Candidate>, rest: seq<Candidate>)
    requires SortedBest(t) && |t| > 0 && Better(t[0], x)
    requires SortedBest(rest) && multiset(rest) == multiset(t[1..]) + multiset{x}
    ensures SortedBest([t[0]] + rest)
    ensures multiset([t[0]] + rest) == multiset(t) + multiset{x}
  {
    forall j | 0 <= j < |rest|
      ensures Better(t[0], rest[j])
    {
      var y := rest[j];
      assert y in multiset(rest);
      if y != x {
        assert y in multiset(t[1..]);
        var k :| 0 <= k < |t[1..]| && t[1..][k] == y;
        assert t[k + 1] == y;
      }
    }
    var r := [t[0]] + rest;
    forall i, j | 0 <= i < j < |r|
      ensures Better(r[i], r[j])
    {
      if i > 0 { assert r[i] == rest[i - 1] && r[j] == rest[j - 1]; }
    }
    assert t == [t[0]] + t[1..];
  }

  function Insert(x: Candidate, t: seq<Candidate>): (r: seq<Candidate>)
    requires SortedBest(t)
    requires forall i :: 0 <= i < |t| ==> t[i].0 != x.0
    ensures multiset(r) == multiset(t) + multiset{x}
    ensures SortedBest(r)
  {
    if |t| == 0 then [x]
    else if Better(x, t[0]) then
      InsertFront(x, t);
      [x] + t
    else
      BetterTotal(x, t[0]);
      var rest := Insert(x, t[1..]);
      InsertBehind(x, t, rest);
      [t[0]] + rest
  }

  /** A reordering of the tail of zone-distinct candidates shares no zone
      with the head. */
  lemma HeadApart(u: seq<Candidate>, rest: seq<Candidate>)
    requires DistinctZones(u) && |u| > 0 && multiset(rest) == multiset(u[1..])
    ensures forall i :: 0 <= i < |rest| ==> rest[i].0 != u[0].0
  {
    forall i | 0 <= i < |rest|
      ensures rest[i].0 != u[0].0
    {
      assert rest[i] in multiset(u[1..]);
      var j :| 0 <= j < |u[1..]| && u[1..][j] == rest[i];
      assert u[j + 1] == rest[i];
    }
  }

  /** The candidates in the order the market reads them: best first. */
  function SortBest(u: seq<Candidate>): (t: seq<Candidate>)
    requires DistinctZones(u)
    ensures multiset(t) == multiset(u)
    ensures SortedBest(t)
  {
    if |u| == 0 then []
    else
      var rest := SortBest(u[1..]);
      HeadApart(u, rest);
      assert u == [u[0]] + u[1..];
      Insert(u[0], rest)
  }

  /** The candidates a household prefers to `c`. */
  ghost function PreferredTo(u: seq<Candidate>, c: Candidate): set<Candidate> {
    set x | x in u && Better(x, c)
  }

  /** `sorted(...)[-1-r]`: the candidate in position `r` of the best-first
      order, or nothing when the household scored `r` or fewer zones (where
      Python raises IndexError). */
  function RankedChoice(u: seq<Candidate>, r: nat): (c: Option<Candidate>)
    requires DistinctZones(u)
    ensures c.Some? <==> r < |u|
  {
    if r < |u| then Some(SortBest(u)[r]) else None
  }

  /** The choice in round `r` is one of the household's scored zones, and
      exactly `r` of its scored zones are preferred to it. */
  lemma {:induction false} RankedChoiceIsRank(u: seq<Candidate>, r: nat)
    requires DistinctZones(u) && r < |u|
    ensures RankedChoice(u, r).value in u
    ensures |PreferredTo(u, RankedChoice(u, r).value)| == r
  {
    var t := SortBest(u);
    var c := t[r];
    assert c in multiset(t);
    assert forall x :: x in u <==> x in t by {
      forall x
        ensures x in u <==> x in t
      {
        assert x in u <==> x in multiset(u);
        assert x in t <==> x in multiset(t);
      }
    }
    assert PreferredTo(u, c) == set x | x in t[..r] by {
      forall x | x in u && Better(x, c)
        ensures x in t[..r]
      {
        var i :| 0 <= i < |t| && t[i] == x;
        if i == r {
          BetterIrreflexive(c);
        } else if i > r {
          BetterAsymmetric(c, x);
        }
        assert t[..r][i] == x;
      }
      forall x | x in t[..r]
        ensures x in u && Better(x, c)
      {
        var i :| 0 <= i < r && t[..r][i] == x;
        assert t[i] == x;
      }
    }
    assert Distinct(t[..r]) by {
      forall i, j | 0 <= i < j < r
        ensures t[..r][i] != t[..r][j]
      {
        BetterIrreflexive(t[i]);
      }
    }
    DistinctCard(t[..r]);
  }

  /** The rank determines the choice: no other scored zone has exactly `r`
      preferred zones. */
  lemma RankUnique(u: seq<Candidate>, c: Candidate, d: Candidate)
    requires c in u && d in u && c != d && DistinctZones(u)
    ensures |PreferredTo(u, c)| != |PreferredTo(u, d)|
  {
    var i :| 0 <= i < |u| && u[i] == c;
    var j :| 0 <= j < |u| && u[j] == d;
    BetterTotal(c, d);
    if Better(c, d) {
      StrictlyMorePreferred(u, c, d);
    } else {
      StrictlyMorePreferred(u, d, c);
    }
  }

  /** A worse candidate has strictly more candidates preferred to it. */
  lemma StrictlyMorePreferred(u: seq<Candidate>, c: Candidate, d: Candidate)
    requires c in u && Better(c, d)
    ensures |PreferredTo(u, c)| < |PreferredTo(u, d)|
  {
    var pc, pd := PreferredTo(u, c), PreferredTo(u, d);
    forall x | x in pc
      ensures x in pd
    {
      BetterTransitive(x, c, d);
    }
    BetterIrreflexive(c);
    var extra := pd - pc;
    assert c in extra;
    assert pd == pc + extra && pc !! extra;
  }

  // ---------------------------------------------------------------------
  // Stable sort by descending key
  // ---------------------------------------------------------------------

  /** The elements of `s` whose key is `v`, in their order in `s`. */
  function WithKey<T>(s: seq<T>, key: T -> real, v: real): (r: seq<T>)
    ensures |r| <= |s|
  {
    if |s| == 0 then []
    else WithKey(s[..|s| - 1], key, v) + (if key(s[|s| - 1]) == v then [s[|s| - 1]] else [])
  }

  lemma {:induction false} WithKeyAppend<T>(a: seq<T>, b: seq<T>, key: T -> real, v: real)
    ensures WithKey(a + b, key, v) == WithKey(a, key, v) + WithKey(b, key, v)
    decreases |b|
  {
    if |b| == 0 {
      assert a + b == a;
    } else {
      var b' := b[..|b| - 1];
      assert (a + b)[..|a + b| - 1] == a + b';
      WithKeyAppend(a, b', key, v);
    }
  }

  predicate SortedByKey<T>(t: seq<T>, key: T -> real) {
    forall i, j :: 0 <= i < j < |t| ==> key(t[i]) >= key(t[j])
  }

  /** Places `x` right after every element whose key is at least its own. */
  function InsertStable<T>(t: seq<T>, x: T, key: T -> real): (r: seq<T>)
    ensures multiset(r) == multiset(t) + multiset{x}
  {
    if |t| == 0 then [x]
    else if key(t[|t| - 1]) >= key(x) then t + [x]
    else
      assert t == t[..|t| - 1] + [t[|t| - 1]];
      InsertStable(t[..|t| - 1], x, key) + [t[|t| - 1]]
  }

  lemma {:induction false} InsertStableSorted<T>(t: seq<T>, x: T, key: T -> real)
    requires SortedByKey(t, key)
    ensures SortedByKey(InsertStable(t, x, key), key)
  {
    if |t| > 0 && key(t[|t| - 1]) < key(x) {
      var last := t[|t| - 1];
      var front := t[..|t| - 1];
      InsertStableSorted(front, x, key);
      var rest := InsertStable(front, x, key);
      var r := rest + [last];
      forall i, j | 0 <= i < j < |r|
        ensures key(r[i]) >= key(r[j])
      {
        if j == |r| - 1 {
          assert r[i] in multiset(rest);
          if r[i] != x {
            assert r[i] in multiset(front);
            var k :| 0 <= k < |front| && front[k] == r[i];
            assert t[k] == r[i];
          }
        }
      }
    }
  }

  lemma WithKeyOne<T>(x: T, key: T -> real, v: real)
    ensures WithKey([x], key, v) == if key(x) == v then [x] else []
  {
    assert [x][..0] == [];
  }

  lemma {:induction false} InsertStableWithKey<T>(t: seq<T>, x: T, key: T -> real, v: real)
    ensures WithKey(InsertStable(t, x, key), key, v) == WithKey(t, key, v) + (if key(x) == v then [x] else [])
  {
    WithKeyOne(x, key, v);
    if |t| == 0 {
    } else if key(t[|t| - 1]) >= key(x) {
      WithKeyAppend(t, [x], key, v);
    } else {
      var last := t[|t| - 1];
      var front := t[..|t| - 1];
      var rest := InsertStable(front, x, key);
      assert InsertStable(t, x, key) == rest + [last];
      InsertStableWithKey(front, x, key, v);
      WithKeyAppend(rest, [last], key, v);
      WithKeyOne(last, key, v);
      var a := WithKey(front, key, v);
      assert WithKey(t, key, v) == a + WithKey([last], key, v);
      if key(x) == v {
        assert WithKey([last], key, v) == [];
        assert WithKey(t, key, v) == a;
      } else {
        assert WithKey(rest, key, v) == a;
      }
    }
  }

  /** Python's `sorted(s, key=key, reverse=True)`. */
  function StableSortDesc<T>(s: seq<T>, key: T -> real): (r: seq<T>)
    ensures multiset(r) == multiset(s)
  {
    if |s| == 0 then []
    else
      assert s == s[..|s| - 1] + [s[|s| - 1]];
      InsertStable(StableSortDesc(s[..|s| - 1], key), s[|s| - 1], key)
  }

  /** The sort orders by descending key ... */
  lemma {:induction false} StableSortSorted<T>(s: seq<T>, key: T -> real)
    ensures SortedByKey(StableSortDesc(s, key), key)
  {
    if |s| > 0 {
      StableSortSorted(s[..|s| - 1], key);
      InsertStableSorted(StableSortDesc(s[..|s| - 1], key), s[|s| - 1], key);
    }
  }

  /** ... and is stable: the elements sharing a key keep their order. */
  lemma {:induction false} StableSortWithKey<T>(s: seq<T>, key: T -> real, v: real)
    ensures WithKey(StableSortDesc(s, key), key, v) == WithKey(s, key, v)
  {
    if |s| > 0 {
      StableSortWithKey(s[..|s| - 1], key, v);
      InsertStableWithKey(StableSortDesc(s[..|s| - 1], key), s[|s| - 1], key, v);
    }
  }

  /** Taking a prefix of a sequence takes a prefix of each key's
      subsequence. */
  lemma {:induction false} WithKeyPrefix<T>(s: seq<T>, n: nat, key: T -> real, v: real)
    requires n <= |s|
    ensures |WithKey(s[..n], key, v)| <= |WithKey(s, key, v)|
    ensures WithKey(s[..n], key, v) == WithKey(s, key, v)[..|WithKey(s[..n], key, v)|]
  {
    assert s == s[..n] + s[n..];
    WithKeyAppend(s[..n], s[n..], key, v);
  }
}
