/** What a `HousingMarket` round does when the queues are in order: every
    match is admitted, the matched households leave their queues, and the
    memberships change by exactly the moves the matches describe. */
module MarketFacts {
  import opened Dicts
  import opened Results
  import opened Records
  import opened Proposals
  import opened Acceptance
  import opened Admission
  import opened Market

  // ---------------------------------------------------------------------
  // Matches come from proposals
  // ---------------------------------------------------------------------

  /** Household `a` proposed zone `z`. */
  predicate ProposedBy(ps: seq<Proposal>, a: string, z: string) {
    exists i :: 0 <= i < |ps| && ps[i].agent == a && ps[i].zone == z
  }

  /** A household that proposes once proposes one zone. */
  lemma ProposedOnce(ps: seq<Proposal>, a: string, y: string, z: string)
    requires AgentsDistinct(ps) && ProposedBy(ps, a, y) && ProposedBy(ps, a, z)
    ensures y == z
  {
    var i :| 0 <= i < |ps| && ps[i].agent == a && ps[i].zone == y;
    var j :| 0 <= j < |ps| && ps[j].agent == a && ps[j].zone == z;
    assert AgentsOf(ps)[i] == AgentsOf(ps)[j];
    assert i == j;
  }

  /** Every match pairs a household with the zone it proposed, and that
      zone is one of the cleared ones. */
  lemma {:induction false} MatchesProposed(ps: seq<Proposal>, zones: map<string, Zone>, zs: seq<string>, m: Match)
    requires forall z :: z in zs ==> z in zones
    requires m in Matches(ps, zones, zs)
    ensures m.zone in zs && ProposedBy(ps, m.agent, m.zone)
    decreases |zs|
  {
    var head := ZoneMatches(ps, zones, zs[0]);
    if m in head {
      var i :| 0 <= i < |head| && head[i] == m;
      var acc := ZoneAccepted(ps, zones, zs[0]);
      assert MatchAgents(head)[i] == AgentsOf(acc)[i];
      assert acc[i] in acc;
      var k :| 0 <= k < |ps| && ps[k] == acc[i];
    } else {
      MatchesProposed(ps, zones, zs[1..], m);
    }
  }

  /** One zone admits each of its accepted proposers once. */
  lemma ZoneMatchesDistinct(ps: seq<Proposal>, zones: map<string, Zone>, z: string)
    requires AgentsDistinct(ps) && z in zones
    ensures Distinct(MatchAgents(ZoneMatches(ps, zones, z)))
  {
    var pz := ProposersFor(ps, z);
    ProposersForDistinct(ps, z);
    AgentsDistinctIsDistinct(pz);
    AcceptedDistinct(pz, zones[z].availableUnits);
    AgentsDistinctSub(ZoneAccepted(ps, zones, z), pz);
  }

  /** A household the first cleared zone accepts is matched by no later
      zone, since it proposed to one zone only. */
  lemma MatchesDisjoint(ps: seq<Proposal>, zones: map<string, Zone>, zs: seq<string>)
    requires AgentsDistinct(ps) && Distinct(zs) && |zs| > 0
    requires forall z :: z in zs ==> z in zones
    ensures forall x :: x in MatchAgents(ZoneMatches(ps, zones, zs[0])) ==>
      x !in MatchAgents(Matches(ps, zones, zs[1..]))
  {
    var head := ZoneMatches(ps, zones, zs[0]);
    var tail := Matches(ps, zones, zs[1..]);
    forall x | x in MatchAgents(head)
      ensures x !in MatchAgents(tail)
    {
      var i :| 0 <= i < |head| && MatchAgents(head)[i] == x;
      assert head[i] in head + tail;
      MatchesProposed(ps, zones, zs, head[i]);
      if x in MatchAgents(tail) {
        var j :| 0 <= j < |tail| && MatchAgents(tail)[j] == x;
        assert tail[j] in tail;
        MatchesProposed(ps, zones, zs[1..], tail[j]);
        ProposedOnce(ps, x, zs[0], tail[j].zone);
        assert false;
      }
    }
  }

  /** No household is matched twice in a round: within a zone it is one
      proposer, and it proposed to one zone only. */
  lemma {:induction false} MatchesDistinct(ps: seq<Proposal>, zones: map<string, Zone>, zs: seq<string>)
    requires AgentsDistinct(ps) && Distinct(zs)
    requires forall z :: z in zs ==> z in zones
    ensures Distinct(MatchAgents(Matches(ps, zones, zs)))
    decreases |zs|, 1
  {
    if |zs| > 0 {
      MatchesDistinctCons(ps, zones, zs);
    }
  }

  lemma {:induction false} MatchesDistinctCons(ps: seq<Proposal>, zones: map<string, Zone>, zs: seq<string>)
    requires AgentsDistinct(ps) && Distinct(zs) && |zs| > 0
    requires forall z :: z in zs ==> z in zones
    ensures Distinct(MatchAgents(Matches(ps, zones, zs)))
    decreases |zs|, 0
  {
    var head := ZoneMatches(ps, zones, zs[0]);
    var tail := Matches(ps, zones, zs[1..]);
    MatchAgentsAppend(head, tail);
    ZoneMatchesDistinct(ps, zones, zs[0]);
    DistinctTail(zs);
    MatchesDistinct(ps, zones, zs[1..]);
    MatchesDisjoint(ps, zones, zs);
    DistinctConcat(MatchAgents(head), MatchAgents(tail));
  }

  /** Household `w` is matched to zone `y` exactly when `y` is cleared and
      accepts `w`. */
  lemma {:induction false} MatchesMember(ps: seq<Proposal>, zones: map<string, Zone>, zs: seq<string>,
                                         w: string, y: string)
    requires forall z :: z in zs ==> z in zones
    ensures Match(w, y) in Matches(ps, zones, zs) <==> y in zs && w in AgentsOf(ZoneAccepted(ps, zones, y))
    decreases |zs|
  {
    if |zs| > 0 {
      var head := ZoneMatches(ps, zones, zs[0]);
      MatchesMember(ps, zones, zs[1..], w, y);
      var acc := ZoneAccepted(ps, zones, zs[0]);
      assert Match(w, y) in head <==> y == zs[0] && w in AgentsOf(acc) by {
        if Match(w, y) in head {
          var i :| 0 <= i < |head| && head[i] == Match(w, y);
          assert MatchAgents(head)[i] == AgentsOf(acc)[i];
        }
        if y == zs[0] && w in AgentsOf(acc) {
          var i :| 0 <= i < |acc| && AgentsOf(acc)[i] == w;
          assert MatchAgents(head)[i] == w && head[i].zone == y;
          assert head[i] == Match(w, y);
        }
      }
    }
  }

  // ---------------------------------------------------------------------
  // Queues in order
  // ---------------------------------------------------------------------

  /** Household `a` is registered and has at least `k` scores, all for
      zones of the landscape. */
  predicate Able(agents: map<string, Agent>, zones: map<string, Zone>, a: string, k: int) {
    a in agents && |agents[a].utilities| >= k
    && forall c :: c in agents[a].utilities ==> c.0 in zones
  }

  /** Queues that `k` rounds can serve: each queue names households once,
      no household waits in both, every relocating household lives where
      its location says, and every queued one has `k` scored zones. */
  predicate Marketable(agents: map<string, Agent>, zones: map<string, Zone>, b: Book, k: int) {
    && b.members.Keys == zones.Keys
    && Distinct(b.unassigned) && Distinct(b.relocating)
    && (forall a :: a in b.unassigned ==> a !in b.relocating && Able(agents, zones, a, k))
    && (forall a :: a in b.relocating ==> Located(b, agents, a) && Able(agents, zones, a, k))
  }

  /** The proposals of round `r` below `k` are for zones of the landscape,
      ones their proposers scored. */
  lemma ProposalZonesKnown(agents: map<string, Agent>, zones: map<string, Zone>, b: Book, r: nat, k: int,
                           ps: seq<Proposal>)
    requires ScoresDistinct(agents) && Marketable(agents, zones, b, k) && r < k
    requires RoundProposals(agents, b.unassigned, b.relocating, r) == Ok(ps)
    ensures forall p :: p in ps ==> p.zone in zones
  {
    var queue := Proposers(b.unassigned, b.relocating);
    forall p | p in ps
      ensures p.zone in zones
    {
      var i :| 0 <= i < |ps| && ps[i] == p;
      var a := queue[i];
      assert AgentsOf(ps)[i] == a;
      ProposeRank(agents, queue, r, i);
      assert a in b.unassigned || a in b.relocating;
      assert Able(agents, zones, a, k);
      assert (p.zone, p.utility) in agents[a].utilities;
    }
  }

  /** In round `r` below `k` every queued household proposes, and only
      for zones of the landscape. */
  lemma RoundProposes(agents: map<string, Agent>, zones: map<string, Zone>, b: Book, r: nat, k: int)
    returns (ps: seq<Proposal>)
    requires ScoresDistinct(agents) && Marketable(agents, zones, b, k) && r < k
    ensures RoundProposals(agents, b.unassigned, b.relocating, r) == Ok(ps)
    ensures AgentsOf(ps) == Proposers(b.unassigned, b.relocating)
    ensures AgentsDistinct(ps)
    ensures forall z :: z in DemandZones(ps) ==> z in zones
  {
    ps := RoundProposals(agents, b.unassigned, b.relocating, r).value;
    ProposalZonesKnown(agents, zones, b, r, k, ps);
  }

  /** Every household a round matches waits in exactly one queue, and a
      relocating one lives where its location says. */
  lemma MatchesReady(agents: map<string, Agent>, zones: map<string, Zone>, b: Book, k: int,
                     ps: seq<Proposal>, zs: seq<string>)
    requires Marketable(agents, zones, b, k)
    requires AgentsOf(ps) == Proposers(b.unassigned, b.relocating)
    requires forall z :: z in zs ==> z in zones
    ensures forall m :: m in Matches(ps, zones, zs) ==> m.zone in b.members && Ready(b, agents, m.agent)
  {
    forall m | m in Matches(ps, zones, zs)
      ensures m.zone in b.members && Ready(b, agents, m.agent)
    {
      MatchesProposed(ps, zones, zs, m);
      var i :| 0 <= i < |ps| && ps[i].agent == m.agent && ps[i].zone == m.zone;
      assert AgentsOf(ps)[i] == m.agent;
      assert m.agent in Proposers(b.unassigned, b.relocating);
      if m.agent in b.unassigned {
        assert Able(agents, zones, m.agent, k);
      } else {
        assert Located(b, agents, m.agent);
      }
    }
  }

  /** In round `r` below `k` every queued household proposes, every
      proposed zone is a zone, and the round's matches are admissible. */
  lemma RoundAdmissible(agents: map<string, Agent>, zones: map<string, Zone>, b: Book, r: nat, k: int)
    returns (ps: seq<Proposal>)
    requires ScoresDistinct(agents) && Marketable(agents, zones, b, k) && r < k
    ensures RoundProposals(agents, b.unassigned, b.relocating, r) == Ok(ps)
    ensures forall z :: z in DemandZones(ps) ==> z in zones
    ensures Admissible(b, agents, Matches(ps, zones, DemandZones(ps)))
  {
    ps := RoundProposes(agents, zones, b, r, k);
    MatchesDistinct(ps, zones, DemandZones(ps));
    MatchesReady(agents, zones, b, k, ps, DemandZones(ps));
  }

  /** A round below `k` succeeds; the matched households, and only they,
      leave the queues, each keeping the others' order. */
  lemma RoundQueues(agents: map<string, Agent>, zones: map<string, Zone>, b: Book, r: nat, k: int)
    returns (ps: seq<Proposal>, b1: Book)
    requires ScoresDistinct(agents) && Marketable(agents, zones, b, k) && r < k
    ensures RoundProposals(agents, b.unassigned, b.relocating, r) == Ok(ps)
    ensures forall z :: z in DemandZones(ps) ==> z in zones
    ensures Admissible(b, agents, Matches(ps, zones, DemandZones(ps)))
    ensures AdmitAll(b, agents, Matches(ps, zones, DemandZones(ps))) == Ok(b1)
    ensures Round(agents, zones, b, r) == Ok(b1)
    ensures b1.unassigned == DelAll(b.unassigned, Names(Matches(ps, zones, DemandZones(ps))))
    ensures b1.relocating == DelAll(b.relocating, Names(Matches(ps, zones, DemandZones(ps))))
  {
    ps := RoundAdmissible(agents, zones, b, r, k);
    ClearZonesFlat(b, agents, zones, ps, DemandZones(ps));
    b1 := AdmitAllQueues(b, agents, Matches(ps, zones, DemandZones(ps)));
  }

  /** After a round below `k`, `w` is a member of zone `y` exactly when it
      was one and did not move out of `y`, or `y` accepted it: a new
      household joins the zone that accepts it, a relocating one leaves the
      zone its location names for the zone that accepts it. */
  lemma RoundMember(agents: map<string, Agent>, zones: map<string, Zone>, b: Book, r: nat, k: int,
                    w: string, y: string) returns (ps: seq<Proposal>, b1: Book)
    requires ScoresDistinct(agents) && Marketable(agents, zones, b, k) && r < k && y in zones
    ensures RoundProposals(agents, b.unassigned, b.relocating, r) == Ok(ps)
    ensures forall z :: z in DemandZones(ps) ==> z in zones
    ensures Round(agents, zones, b, r) == Ok(b1) && y in b1.members
    ensures b1.relocating == DelAll(b.relocating, Names(Matches(ps, zones, DemandZones(ps))))
    ensures w in b1.members[y] <==>
      || (w in b.members[y] && !(w in Names(Matches(ps, zones, DemandZones(ps))) && MovesOut(b, agents, w, y)))
      || (y in DemandZones(ps) && w in AgentsOf(ZoneAccepted(ps, zones, y)))
  {
    ps, b1 := RoundQueues(agents, zones, b, r, k);
    var zs := DemandZones(ps);
    AdmitAllMember(b, agents, Matches(ps, zones, zs), w, y);
    MatchesMember(ps, zones, zs, w, y);
  }

  /** A relocating household that a round below `k` leaves queued is
      still a member of the zone its location names. */
  lemma StaysLocated(agents: map<string, Agent>, zones: map<string, Zone>, b: Book, r: nat, k: int, a: string)
    returns (b1: Book)
    requires ScoresDistinct(agents) && Marketable(agents, zones, b, k) && r < k
    requires a in b.relocating
    ensures Round(agents, zones, b, r) == Ok(b1)
    ensures a in b1.relocating ==> Located(b1, agents, a)
  {
    assert Located(b, agents, a);
    var y := agents[a].location.zone;
    var ps;
    ps, b1 := RoundMember(agents, zones, b, r, k, a, y);
  }

  /** A round below `k` keeps the queues fit for the remaining rounds. */
  lemma RoundKeeps(agents: map<string, Agent>, zones: map<string, Zone>, b: Book, r: nat, k: int)
    returns (b1: Book)
    requires ScoresDistinct(agents) && Marketable(agents, zones, b, k) && r < k
    ensures Round(agents, zones, b, r) == Ok(b1)
    ensures Marketable(agents, zones, b1, k)
  {
    var ps;
    ps, b1 := RoundQueues(agents, zones, b, r, k);
    forall a | a in b1.relocating
      ensures Located(b1, agents, a)
    {
      assert a in b.relocating;
      var _ := StaysLocated(agents, zones, b, r, k, a);
    }
  }

  /** From queues fit for `k` rounds, the rounds from `r` on all succeed
      and leave the queues fit. */
  lemma {:induction false} RoundsSucceed(agents: map<string, Agent>, zones: map<string, Zone>, b: Book,
                                         r: nat, k: int)
    requires ScoresDistinct(agents) && Marketable(agents, zones, b, k)
    ensures Rounds(agents, zones, b, r, k).Ok?
    ensures Marketable(agents, zones, Rounds(agents, zones, b, r, k).value, k)
    decreases k - r
  {
    if r < k && !(|b.unassigned| == 0 && |b.relocating| == 0) {
      var b1 := RoundKeeps(agents, zones, b, r, k);
      RoundsSucceed(agents, zones, b1, r + 1, k);
    }
  }

  /** The market runs to completion on a consistent landscape whose queues
      are well formed, whose relocating households are placed, and whose
      queued households have scored `bg_sample_size` zones of the landscape. */
  lemma HousingMarketSucceeds(s: Landscape, bgSampleSize: int)
    requires ScoresDistinct(s.agents) && QueuesWellFormed(s) && Consistent(s)
    requires forall a :: a in s.relocating ==> s.agents[a].location.At?
    requires forall a :: a in s.unassigned ==> Able(s.agents, s.zones, a, bgSampleSize)
    requires forall a :: a in s.relocating ==> Able(s.agents, s.zones, a, bgSampleSize)
    ensures HousingMarket(s, bgSampleSize).Ok?
  {
    var b := BookOf(s);
    forall a | a in b.relocating
      ensures Located(b, s.agents, a)
    {
      assert s.agents[a].location.zone in s.zones;
    }
    RoundsSucceed(s.agents, s.zones, b, 0, bgSampleSize);
  }
}
