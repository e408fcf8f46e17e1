/** Admitting matched households to zones, as a `HousingMarket` round does
    for each accepted proposer: a new household joins the zone and leaves
    the unassigned queue; a relocating one leaves the membership of the
    zone its location names, joins the new zone and leaves the relocating
    queue. The market never writes an agent record: locations, units and
    every other zone field stay as they were. */
module Admission {
  import opened Dicts
  import opened Results
  import opened Records

  /** What a market round changes: the zone memberships, by zone name, and
      the two queues. */
  datatype Book = Book(members: map<string, seq<string>>, unassigned: seq<string>, relocating: seq<string>)

  /** An accepted proposer and the zone that accepted it (`hh_match`, `bg`). */
  datatype Match = Match(agent: string, zone: string)

  /** Admits `hh` to `bg`. Both branches read the household's record
      first, so a name missing from the registry fails with `KeyError`.
      The branch follows the queue the household waits in. A relocating household must be located in a zone whose membership
      holds it, as `del bg_old_location.hh_agents[hh]` demands; one in
      neither queue fails on the final `del`. */
  function Admit(b: Book, agents: map<string, Agent>, hh: string, bg: string): (r: Result<Book>)
    requires bg in b.members
    ensures r.Ok? ==> r.value.members.Keys == b.members.Keys
    ensures hh !in agents ==> r == Err(KeyError(hh))
  {
    if hh !in agents then Err(KeyError(hh))
    else if hh in b.unassigned then
      Ok(b.(members := b.members[bg := Put(b.members[bg], hh)], unassigned := Del(b.unassigned, hh)))
    else if !agents[hh].location.At? || agents[hh].location.zone !in b.members then Err(NoZoneLocation(hh))
    else
      var from := agents[hh].location.zone;
      if hh !in b.members[from] then Err(KeyError(hh))
      else if hh !in b.relocating then Err(KeyError(hh))
      else
        var m1 := b.members[from := Del(b.members[from], hh)];
        Ok(b.(members := m1[bg := Put(m1[bg], hh)], relocating := Del(b.relocating, hh)))
  }

  /** A registered new household is always admitted: it joins `bg` and
      leaves the unassigned queue. A registered household in neither queue
      fails. */
  lemma AdmitByQueue(b: Book, agents: map<string, Agent>, hh: string, bg: string)
    requires bg in b.members && hh in agents
    ensures hh in b.unassigned ==>
      && Admit(b, agents, hh, bg).Ok?
      && Admit(b, agents, hh, bg).value.unassigned == Del(b.unassigned, hh)
      && hh in Admit(b, agents, hh, bg).value.members[bg]
    ensures hh !in b.unassigned && hh !in b.relocating ==> Admit(b, agents, hh, bg).Err?
  {
  }

  /** The matches, admitted in order. */
  function AdmitAll(b: Book, agents: map<string, Agent>, ms: seq<Match>): (r: Result<Book>)
    requires forall m :: m in ms ==> m.zone in b.members
    ensures r.Ok? ==> r.value.members.Keys == b.members.Keys
    decreases |ms|
  {
    if |ms| == 0 then Ok(b)
    else
      match Admit(b, agents, ms[0].agent, ms[0].zone)
      case Err(e) => Err(e)
      case Ok(b1) => AdmitAll(b1, agents, ms[1..])
  }

  /** Admitting one list of matches and then another. */
  lemma {:induction false} AdmitAllAppend(b: Book, agents: map<string, Agent>, p: seq<Match>, q: seq<Match>)
    requires forall m :: m in p + q ==> m.zone in b.members
    ensures AdmitAll(b, agents, p + q) ==
      match AdmitAll(b, agents, p)
      case Err(e) => Err(e)
      case Ok(b1) => AdmitAll(b1, agents, q)
    decreases |p|
  {
    if |p| == 0 {
      assert p + q == q;
    } else {
      assert (p + q)[0] == p[0] && (p + q)[1..] == p[1..] + q;
      match Admit(b, agents, p[0].agent, p[0].zone)
      case Err(e) =>
      case Ok(b1) => AdmitAllAppend(b1, agents, p[1..], q);
    }
  }

  // ---------------------------------------------------------------------
  // Admissions that succeed
  // ---------------------------------------------------------------------

  /** Household `x` lives, by its location, in a zone whose membership
      holds it. */
  predicate Located(b: Book, agents: map<string, Agent>, x: string) {
    x in agents && agents[x].location.At? && agents[x].location.zone in b.members
    && x in b.members[agents[x].location.zone]
  }

  /** Household `x` is registered, waits in exactly one queue, and if it is
      relocating it is located. */
  predicate Ready(b: Book, agents: map<string, Agent>, x: string) {
    && x in agents
    && (|| (x in b.unassigned && x !in b.relocating)
        || (x !in b.unassigned && x in b.relocating && Located(b, agents, x)))
  }

  /** The households matched, in match order. */
  function MatchAgents(ms: seq<Match>): (r: seq<string>)
    ensures |r| == |ms|
    ensures forall i :: 0 <= i < |ms| ==> r[i] == ms[i].agent
  {
    seq(|ms|, i requires 0 <= i < |ms| => ms[i].agent)
  }

  lemma MatchAgentsAppend(p: seq<Match>, q: seq<Match>)
    ensures MatchAgents(p + q) == MatchAgents(p) + MatchAgents(q)
  {
  }

  /** Matches that can all be admitted: each household once, every one
      ready, every zone known. */
  predicate Admissible(b: Book, agents: map<string, Agent>, ms: seq<Match>) {
    && Distinct(MatchAgents(ms))
    && forall m :: m in ms ==> m.zone in b.members && Ready(b, agents, m.agent)
  }

  /** Relocating household `x` moves out of zone `y`. */
  predicate MovesOut(b: Book, agents: map<string, Agent>, x: string, y: string) {
    x in b.relocating && x in agents && agents[x].location == At(y)
  }

  /** One admission of a ready household. */
  lemma AdmitStep(b: Book, agents: map<string, Agent>, x: string, z: string) returns (b1: Book)
    requires Ready(b, agents, x) && z in b.members
    ensures Admit(b, agents, x, z) == Ok(b1)
    ensures b1.unassigned == Del(b.unassigned, x) && b1.relocating == Del(b.relocating, x)
    ensures b1.members.Keys == b.members.Keys
    ensures forall y, w :: y in b.members ==>
      (w in b1.members[y] <==> (w in b.members[y] && !(w == x && MovesOut(b, agents, x, y))) || (w == x && y == z))
  {
    b1 := Admit(b, agents, x, z).value;
  }

  /** The first admission leaves the rest admissible. */
  lemma AdmitNext(b: Book, agents: map<string, Agent>, ms: seq<Match>) returns (b1: Book)
    requires Admissible(b, agents, ms) && |ms| > 0
    ensures Admissible(b1, agents, ms[1..])
    ensures Admit(b, agents, ms[0].agent, ms[0].zone) == Ok(b1)
    ensures AdmitAll(b, agents, ms) == AdmitAll(b1, agents, ms[1..])
    ensures b1.unassigned == Del(b.unassigned, ms[0].agent) && b1.relocating == Del(b.relocating, ms[0].agent)
    ensures b1.members.Keys == b.members.Keys
  {
    var x := ms[0].agent;
    assert ms[0] in ms;
    b1 := AdmitStep(b, agents, x, ms[0].zone);
    var tail := ms[1..];
    assert MatchAgents(tail) == MatchAgents(ms)[1..];
    DistinctTail(MatchAgents(ms));
    forall m | m in tail
      ensures m.zone in b1.members && Ready(b1, agents, m.agent)
    {
      assert m in ms;
      var k :| 0 <= k < |tail| && tail[k] == m;
      assert MatchAgents(ms)[k + 1] == m.agent;
      assert m.agent != x;
      if Located(b, agents, m.agent) {
        assert m.agent in b1.members[agents[m.agent].location.zone];
      }
    }
  }

  /** What one admission does to the membership of zone `y` and to who
      moves out of it. */
  lemma AdmitMember(b: Book, agents: map<string, Agent>, x: string, z: string, b1: Book, w: string, y: string)
    requires Ready(b, agents, x) && z in b.members && y in b.members
    requires Admit(b, agents, x, z) == Ok(b1)
    ensures y in b1.members
    ensures w in b1.members[y] <==> (w in b.members[y] && !(w == x && MovesOut(b, agents, x, y))) || (w == x && y == z)
    ensures w != x ==> (MovesOut(b1, agents, w, y) <==> MovesOut(b, agents, w, y))
  {
  }

  /** The households a list of matches names. */
  function Names(ms: seq<Match>): (r: set<string>)
    ensures forall m :: m in ms ==> m.agent in r
  {
    set m | m in ms :: m.agent
  }

  /** A household is named by the matches exactly when it appears among
      the matched households. */
  lemma NamesAgents(ms: seq<Match>, w: string)
    ensures w in Names(ms) <==> w in MatchAgents(ms)
  {
    if w in Names(ms) {
      var m :| m in ms && m.agent == w;
      var k :| 0 <= k < |ms| && ms[k] == m;
      assert MatchAgents(ms)[k] == w;
    }
  }

  lemma NamesCons(ms: seq<Match>)
    requires |ms| > 0
    ensures Names(ms) == Names(ms[1..]) + {ms[0].agent}
  {
    assert ms == [ms[0]] + ms[1..];
  }

  /** Admissible matches all succeed; each matched household leaves the
      queue it waited in, in which every other household keeps its place. */
  lemma {:induction false} AdmitAllQueues(b: Book, agents: map<string, Agent>, ms: seq<Match>) returns (r: Book)
    requires Admissible(b, agents, ms)
    ensures AdmitAll(b, agents, ms) == Ok(r)
    ensures r.unassigned == DelAll(b.unassigned, Names(ms))
    ensures r.relocating == DelAll(b.relocating, Names(ms))
    ensures r.members.Keys == b.members.Keys
    decreases |ms|
  {
    if |ms| == 0 {
      r := b;
      assert Names(ms) == {};
      DelAllEmpty(b.unassigned);
      DelAllEmpty(b.relocating);
    } else {
      var b1 := AdmitNext(b, agents, ms);
      r := AdmitAllQueues(b1, agents, ms[1..]);
      NamesCons(ms);
      DelThenDelAll(b.unassigned, ms[0].agent, Names(ms[1..]));
      DelThenDelAll(b.relocating, ms[0].agent, Names(ms[1..]));
    }
  }

  /** How the first match relates to the rest: a household matched first
      is not matched again. */
  lemma MatchesCons(ms: seq<Match>, w: string, y: string)
    requires |ms| > 0 && Distinct(MatchAgents(ms))
    ensures Names(ms) == Names(ms[1..]) + {ms[0].agent}
    ensures Match(w, y) in ms <==> Match(w, y) == ms[0] || Match(w, y) in ms[1..]
    ensures w == ms[0].agent ==> w !in Names(ms[1..]) && Match(w, y) !in ms[1..]
  {
    NamesCons(ms);
    assert ms == [ms[0]] + ms[1..];
    if w == ms[0].agent {
      assert MatchAgents(ms) == [w] + MatchAgents(ms[1..]);
      DistinctTail(MatchAgents(ms));
      assert w !in MatchAgents(ms[1..]);
      NamesAgents(ms[1..], w);
    }
  }

  /** After admissible matches, `w` is a member of zone `y` exactly when it
      was one and did not move out of `y`, or it was matched to `y`. A
      household relocating within its own zone stays a member. */
  lemma {:induction false} AdmitAllMember(b: Book, agents: map<string, Agent>, ms: seq<Match>, w: string, y: string)
    requires Admissible(b, agents, ms) && y in b.members
    ensures AdmitAll(b, agents, ms).Ok?
    ensures w in AdmitAll(b, agents, ms).value.members[y] <==>
      (w in b.members[y] && !(w in Names(ms) && MovesOut(b, agents, w, y))) || Match(w, y) in ms
    decreases |ms|, 1
  {
    if |ms| == 0 {
      assert Names(ms) == {};
    } else {
      AdmitAllMemberCons(b, agents, ms, w, y);
    }
  }

  lemma {:induction false} AdmitAllMemberCons(b: Book, agents: map<string, Agent>, ms: seq<Match>, w: string, y: string)
    requires Admissible(b, agents, ms) && y in b.members && |ms| > 0
    ensures AdmitAll(b, agents, ms).Ok?
    ensures w in AdmitAll(b, agents, ms).value.members[y] <==>
      (w in b.members[y] && !(w in Names(ms) && MovesOut(b, agents, w, y))) || Match(w, y) in ms
    decreases |ms|, 0
  {
    var b1 := AdmitNext(b, agents, ms);
    assert ms[0] in ms;
    AdmitMember(b, agents, ms[0].agent, ms[0].zone, b1, w, y);
    AdmitAllMember(b1, agents, ms[1..], w, y);
    MatchesCons(ms, w, y);
  }
}
