/** Python dictionaries keyed by name, as the engines use them for zone
    memberships (`hh_agents`) and the two wait queues: an insertion-ordered
    sequence of distinct keys. Assigning to a present key keeps its place;
    `del` removes it and keeps the order of the rest. The values these
    dictionaries hold are the agent records, kept once in the landscape's
    agent map. */
module Dicts {

  predicate Distinct<T(==)>(s: seq<T>) {
    forall i, j :: 0 <= i < j < |s| ==> s[i] != s[j]
  }

  /** `d[k] = v`: appends `k` unless it is already a key. */
  function Put(s: seq<string>, k: string): (r: seq<string>)
    ensures forall x :: x in r <==> x in s || x == k
    ensures Distinct(s) ==> Distinct(r)
    ensures |s| <= |r| && r[..|s|] == s
    ensures k !in s ==> |r| == |s| + 1
    ensures k in s ==> |r| == |s|
  {
    if k in s then s else s + [k]
  }

  /** `del d[k]` when `k` is a key, and nothing otherwise. */
  function Del(s: seq<string>, k: string): (r: seq<string>)
    ensures forall x :: x in r <==> x in s && x != k
    ensures Distinct(s) ==> Distinct(r)
    ensures |r| <= |s|
    ensures k !in s ==> r == s
    ensures Distinct(s) && k in s ==> |r| == |s| - 1
  {
    if |s| == 0 then []
    else if s[0] == k then Del(s[1..], k)
    else
      var t := Del(s[1..], k);
      DistinctTail(s);
      DistinctCons(s[0], t);
      [s[0]] + t
  }

  lemma DistinctCons<T>(x: T, t: seq<T>)
    ensures x !in t && Distinct(t) ==> Distinct([x] + t)
  {
  }

  lemma DistinctTail<T>(s: seq<T>)
    ensures Distinct(s) && |s| > 0 ==> Distinct(s[1..]) && s[0] !in s[1..]
  {
  }

  /** Two dictionaries with no key in common concatenate to one. */
  lemma DistinctConcat<T>(a: seq<T>, b: seq<T>)
    requires Distinct(a) && Distinct(b)
    requires forall x :: x in a ==> x !in b
    ensures Distinct(a + b)
  {
    var c := a + b;
    forall i, j | 0 <= i < j < |c|
      ensures c[i] != c[j]
    {
      if i < |a| && j >= |a| {
        assert c[i] in a && c[j] == b[j - |a|];
      }
    }
  }

  /** In a sequence of distinct elements each occurs at most once. */
  lemma {:induction false} DistinctCount<T>(s: seq<T>, x: T)
    requires Distinct(s)
    ensures multiset(s)[x] <= 1
  {
    if |s| > 0 {
      DistinctTail(s);
      DistinctCount(s[1..], x);
      assert s == [s[0]] + s[1..];
    }
  }

  /** An element at two positions occurs at least twice. */
  lemma TwiceCount<T>(s: seq<T>, i: nat, j: nat)
    requires i < j < |s| && s[i] == s[j]
    ensures multiset(s)[s[i]] >= 2
  {
    assert s == s[..j] + [s[j]] + s[j + 1..];
    assert s[..j][i] == s[i];
    assert s[i] in multiset(s[..j]);
  }

  /** A sub-multiset of distinct elements holds distinct elements. */
  lemma DistinctSubMultiset<T>(a: seq<T>, b: seq<T>)
    requires multiset(a) <= multiset(b) && Distinct(b)
    ensures Distinct(a)
  {
    forall i, j | 0 <= i < j < |a|
      ensures a[i] != a[j]
    {
      if a[i] == a[j] {
        TwiceCount(a, i, j);
        DistinctCount(b, a[i]);
        assert false;
      }
    }
  }

  /** Keeps, in order, the keys outside `ks`. */
  function DelAll(s: seq<string>, ks: set<string>): (r: seq<string>)
    ensures forall x :: x in r <==> x in s && x !in ks
    ensures Distinct(s) ==> Distinct(r)
    ensures |r| <= |s|
  {
    if |s| == 0 then []
    else if s[0] in ks then DelAll(s[1..], ks)
    else
      var t := DelAll(s[1..], ks);
      DistinctTail(s);
      DistinctCons(s[0], t);
      [s[0]] + t
  }

  /** Deleting no key changes nothing. */
  lemma {:induction false} DelAllEmpty(s: seq<string>)
    ensures DelAll(s, {}) == s
  {
    if |s| > 0 {
      DelAllEmpty(s[1..]);
    }
  }

  /** Deleting one key more from an already filtered dictionary. */
  lemma {:induction false} DelAllStep(s: seq<string>, ks: set<string>, k: string)
    ensures Del(DelAll(s, ks), k) == DelAll(s, ks + {k})
  {
    if |s| > 0 {
      DelAllStep(s[1..], ks, k);
    }
  }

  /** Deleting one key and then a set of keys deletes their union. */
  lemma {:induction false} DelThenDelAll(s: seq<string>, k: string, ks: set<string>)
    ensures DelAll(Del(s, k), ks) == DelAll(s, ks + {k})
  {
    if |s| > 0 {
      DelThenDelAll(s[1..], k, ks);
      if s[0] != k {
        var t := Del(s[1..], k);
        assert Del(s, k) == [s[0]] + t;
        assert ([s[0]] + t)[1..] == t;
      }
    }
  }

  /** Repeated `d[k] = v` for the keys of `ks`, in order. */
  function PutAll(s: seq<string>, ks: seq<string>): (r: seq<string>)
    ensures forall x :: x in r <==> x in s || x in ks
    ensures Distinct(s) ==> Distinct(r)
    ensures |s| <= |r| && r[..|s|] == s
    decreases |ks|
  {
    if |ks| == 0 then s else PutAll(Put(s, ks[0]), ks[1..])
  }

  lemma FreshTail(s: seq<string>, ks: seq<string>)
    requires |ks| > 0 && Distinct(ks)
    requires forall k :: k in ks ==> k !in s
    ensures forall k :: k in ks[1..] ==> k !in s + [ks[0]]
  {
    forall k | k in ks[1..]
      ensures k !in s + [ks[0]]
    {
      var j :| 0 <= j < |ks| - 1 && ks[1..][j] == k;
      assert ks[j + 1] == k && ks[0] != ks[j + 1];
      assert k in ks;
    }
  }

  /** Putting keys that are all new and pairwise distinct appends them in
      order. */
  lemma {:induction false} PutAllFresh(s: seq<string>, ks: seq<string>)
    requires Distinct(ks)
    requires forall k :: k in ks ==> k !in s
    ensures PutAll(s, ks) == s + ks
    decreases |ks|
  {
    if |ks| > 0 {
      var s' := s + [ks[0]];
      PutAllFreshStep(s, ks);
      PutAllFresh(s', ks[1..]);
      AppendHead(s, ks);
    }
  }

  lemma AppendHead<T>(s: seq<T>, ks: seq<T>)
    requires |ks| > 0
    ensures (s + [ks[0]]) + ks[1..] == s + ks
  {
    assert [ks[0]] + ks[1..] == ks;
  }

  lemma PutAllFreshStep(s: seq<string>, ks: seq<string>)
    requires |ks| > 0 && Distinct(ks)
    requires forall k :: k in ks ==> k !in s
    ensures PutAll(s, ks) == PutAll(s + [ks[0]], ks[1..])
    ensures Distinct(ks[1..])
    ensures forall k :: k in ks[1..] ==> k !in s + [ks[0]]
  {
    assert ks[0] in ks;
    assert Put(s, ks[0]) == s + [ks[0]];
    FreshTail(s, ks);
    DistinctTail(ks);
  }

  /** The elements of `s` at positions `idx`, as `random.sample` returns them
      when it picks those positions. */
  function Select<T>(s: seq<T>, idx: seq<nat>): (r: seq<T>)
    requires forall i :: 0 <= i < |idx| ==> idx[i] < |s|
    ensures |r| == |idx|
    ensures forall i :: 0 <= i < |idx| ==> r[i] == s[idx[i]]
  {
    seq(|idx|, i requires 0 <= i < |idx| => s[idx[i]])
  }

  lemma SelectAppend<T>(s: seq<T>, a: seq<nat>, b: seq<nat>)
    requires forall i :: 0 <= i < |a| ==> a[i] < |s|
    requires forall i :: 0 <= i < |b| ==> b[i] < |s|
    ensures Select(s, a + b) == Select(s, a) + Select(s, b)
  {
  }

  lemma SelectPrefix<T>(s: seq<T>, n: nat, idx: seq<nat>)
    requires n <= |s|
    requires forall i :: 0 <= i < |idx| ==> idx[i] < n
    ensures Select(s[..n], idx) == Select(s, idx)
  {
  }

  /** Removing position `q` from a sample of distinct positions that holds
      the last position `p` leaves distinct positions below `p`. */
  lemma DropLast(idx: seq<nat>, q: nat, p: nat) returns (rest: seq<nat>)
    requires Distinct(idx)
    requires q < |idx| && idx[q] == p
    requires forall i :: 0 <= i < |idx| ==> idx[i] <= p
    ensures rest == idx[..q] + idx[q + 1..]
    ensures Distinct(rest)
    ensures forall i :: 0 <= i < |rest| ==> rest[i] < p
  {
    rest := idx[..q] + idx[q + 1..];
    forall i | 0 <= i < |rest|
      ensures rest[i] == idx[if i < q then i else i + 1]
    {
    }
  }

  /** The step of `SelectSubMultiset` when the last position is sampled. */
  lemma SampledLast<T>(s: seq<T>, idx: seq<nat>, q: nat, rest: seq<nat>)
    requires |s| > 0 && q < |idx| && idx[q] == |s| - 1
    requires forall i :: 0 <= i < |idx| ==> idx[i] < |s|
    requires rest == idx[..q] + idx[q + 1..]
    requires forall i :: 0 <= i < |rest| ==> rest[i] < |s| - 1
    requires multiset(Select(s[..|s| - 1], rest)) <= multiset(s[..|s| - 1])
    ensures multiset(Select(s, idx)) <= multiset(s)
  {
    var p := |s| - 1;
    assert s == s[..p] + [s[p]];
    SelectPrefix(s, p, rest);
    assert idx == idx[..q] + [p] + idx[q + 1..];
    SelectAppend(s, idx[..q] + [p], idx[q + 1..]);
    SelectAppend(s, idx[..q], [p]);
    SelectAppend(s, idx[..q], idx[q + 1..]);
    var a, b := Select(s, idx[..q]), Select(s, idx[q + 1..]);
    assert Select(s, [p]) == [s[p]];
    assert Select(s, idx) == a + [s[p]] + b;
    assert Select(s[..p], rest) == a + b;
    assert multiset(a + [s[p]] + b) == multiset(a + b) + multiset{s[p]};
  }

  /** A sample of distinct positions holds each value at most as often as the
      sampled sequence does. */
  lemma {:induction false} SelectSubMultiset<T>(s: seq<T>, idx: seq<nat>)
    requires Distinct(idx)
    requires forall i :: 0 <= i < |idx| ==> idx[i] < |s|
    ensures multiset(Select(s, idx)) <= multiset(s)
    decreases |s|
  {
    if |s| > 0 {
      var p := |s| - 1;
      if q :| 0 <= q < |idx| && idx[q] == p {
        var rest := DropLast(idx, q, p);
        SelectSubMultiset(s[..p], rest);
        SampledLast(s, idx, q, rest);
      } else {
        forall i | 0 <= i < |idx|
          ensures idx[i] < p
        {
          assert idx[i] != p;
        }
        SelectSubMultiset(s[..p], idx);
        SelectPrefix(s, p, idx);
        assert s == s[..p] + [s[p]];
      }
    }
  }

  /** `[k] * n` in Python: `n` copies of `k`, none for a negative count. */
  function Repeat<T>(k: T, n: int): (r: seq<T>)
    ensures |r| == if n < 0 then 0 else n
    ensures forall i :: 0 <= i < |r| ==> r[i] == k
  {
    if n <= 0 then [] else [k] + Repeat(k, n - 1)
  }

  /** The number of distinct keys is the length of the dictionary. */
  lemma {:induction false} DistinctCard<T>(s: seq<T>)
    requires Distinct(s)
    ensures |set x | x in s| == |s|
  {
    if |s| > 0 {
      var t := s[1..];
      assert Distinct(t);
      DistinctCard(t);
      assert (set x | x in s) == (set x | x in t) + {s[0]};
    }
  }
}
