/** The proposal half of a `HousingMarket` round: every queued household
    names the zone it ranks in the round's position, and the proposals are
    grouped by zone (`bg_demand`). */
module Proposals {
  import opened Dicts
  import opened Results
  import opened Ranking
  import opened Records

  /** `bg_demand[zone][agent] = utility`. */
  datatype Proposal = Proposal(agent: string, zone: string, utility: real)

  /** Every household has scored each zone at most once, as the keys of its
      `hh_utilities` dictionary are. */
  predicate ScoresDistinct(agents: map<string, Agent>) {
    forall a :: a in agents ==> DistinctZones(agents[a].utilities)
  }

  /** The proposing households, in proposal order. */
  function AgentsOf(ps: seq<Proposal>): (r: seq<string>)
    ensures |r| == |ps|
    ensures forall i :: 0 <= i < |ps| ==> r[i] == ps[i].agent
  {
    seq(|ps|, i requires 0 <= i < |ps| => ps[i].agent)
  }

  /** No household proposes twice. */
  predicate AgentsDistinct(ps: seq<Proposal>) {
    Distinct(AgentsOf(ps))
  }

  /** A household can propose in round `r` when it is registered and has
      scored more than `r` zones. */
  predicate CanPropose(agents: map<string, Agent>, a: string, r: nat) {
    a in agents && |agents[a].utilities| > r
  }

  /** The first household of `queue` that cannot propose in round `r`. */
  function FirstUnable(agents: map<string, Agent>, queue: seq<string>, r: nat): (res: Option<string>)
    ensures res.None? <==> forall a :: a in queue ==> CanPropose(agents, a, r)
    ensures res.Some? ==> res.value in queue && !CanPropose(agents, res.value, r)
    decreases |queue|
  {
    if |queue| == 0 then None
    else if !CanPropose(agents, queue[0], r) then Some(queue[0])
    else FirstUnable(agents, queue[1..], r)
  }

  /** The proposal of household `a` in round `r`: its `r`-th best zone
      and its own utility for it. */
  function ProposalOf(agents: map<string, Agent>, a: string, r: nat): (p: Proposal)
    requires ScoresDistinct(agents) && CanPropose(agents, a, r)
    ensures p.agent == a
  {
    var c := RankedChoice(agents[a].utilities, r).value;
    Proposal(a, c.0, c.1)
  }

  /** The proposals of households that can all propose, in queue order. */
  function ProposalsOf(agents: map<string, Agent>, queue: seq<string>, r: nat): (ps: seq<Proposal>)
    requires ScoresDistinct(agents) && forall a :: a in queue ==> CanPropose(agents, a, r)
    ensures |ps| == |queue|
    ensures forall i :: 0 <= i < |queue| ==> ps[i] == ProposalOf(agents, queue[i], r)
    decreases |queue|
  {
    if |queue| == 0 then []
    else
      var tail := queue[1..];
      assert forall a :: a in tail ==> a in queue;
      var rest := ProposalsOf(agents, tail, r);
      var ps := [ProposalOf(agents, queue[0], r)] + rest;
      assert forall i :: 1 <= i < |queue| ==> ps[i] == rest[i - 1] && queue[i] == tail[i - 1];
      ps
  }

  /** The households of `queue`, in order, each propose the candidate at
      position `r` of its best-first order, read from the household's
      record (the queue's `.values()`; `MarketAsWritten.ProposeValues`). The first household with `r`
      or fewer scored zones makes the run fail, as `sorted(...)[-1-r]`
      raises IndexError; a name the registry lacks fails too. */
  function Propose(agents: map<string, Agent>, queue: seq<string>, r: nat): (res: Result<seq<Proposal>>)
    requires ScoresDistinct(agents)
    ensures res.Ok? <==> forall a :: a in queue ==> CanPropose(agents, a, r)
    ensures res.Ok? ==> AgentsOf(res.value) == queue
    ensures res.Ok? ==> forall i :: 0 <= i < |queue| ==>
      CanPropose(agents, queue[i], r) && res.value[i] == ProposalOf(agents, queue[i], r)
  {
    match FirstUnable(agents, queue, r)
    case Some(a) => if a !in agents then Err(KeyError(a)) else Err(IndexError(a))
    case None => Ok(ProposalsOf(agents, queue, r))
  }

  /** Proposing for a queue is proposing for its first household and then
      for the rest, the first failure winning. */
  lemma ProposeCons(agents: map<string, Agent>, queue: seq<string>, r: nat)
    requires ScoresDistinct(agents) && |queue| > 0
    ensures !CanPropose(agents, queue[0], r) ==>
      Propose(agents, queue, r) == if queue[0] !in agents then Err(KeyError(queue[0])) else Err(IndexError(queue[0]))
    ensures CanPropose(agents, queue[0], r) && Propose(agents, queue[1..], r).Err? ==>
      Propose(agents, queue, r) == Propose(agents, queue[1..], r)
    ensures CanPropose(agents, queue[0], r) && Propose(agents, queue[1..], r).Ok? ==>
      Propose(agents, queue, r) == Ok([ProposalOf(agents, queue[0], r)] + Propose(agents, queue[1..], r).value)
  {
    assert FirstUnable(agents, queue, r) ==
      if !CanPropose(agents, queue[0], r) then Some(queue[0]) else FirstUnable(agents, queue[1..], r);
    assert forall b :: b in queue ==> b == queue[0] || b in queue[1..];
  }

  /** Every household proposes the zone it ranks `r`-th from the top, with
      its own utility for it: exactly `r` of its scored zones are
      preferred, by utility and then by the larger zone name. */
  lemma ProposeRank(agents: map<string, Agent>, queue: seq<string>, r: nat, i: nat)
    requires ScoresDistinct(agents)
    requires Propose(agents, queue, r).Ok? && i < |queue|
    ensures var p := Propose(agents, queue, r).value[i];
      var u := agents[queue[i]].utilities;
      && p.agent == queue[i]
      && (p.zone, p.utility) in u
      && |PreferredTo(u, (p.zone, p.utility))| == r
  {
    RankedChoiceIsRank(agents[queue[i]].utilities, r);
  }

  /** The round's proposers in the order `bg_demand` records them: the new
      households, then the relocating ones not already recorded. A
      household in both queues is one key of the zone's dictionary. */
  function Proposers(unassigned: seq<string>, relocating: seq<string>): (r: seq<string>)
    ensures forall a :: a in r <==> a in unassigned || a in relocating
    ensures Distinct(unassigned) ==> Distinct(r)
    ensures |unassigned| <= |r| && r[..|unassigned|] == unassigned
  {
    PutAll(unassigned, relocating)
  }

  /** The round's proposals. Both queues are read as they stand at the
      start of the round; the round fails on the first household, in that
      order, that cannot propose. */
  function RoundProposals(agents: map<string, Agent>, unassigned: seq<string>, relocating: seq<string>, r: nat)
    : (res: Result<seq<Proposal>>)
    requires ScoresDistinct(agents)
    ensures res.Ok? <==> forall a :: (a in unassigned || a in relocating) ==> CanPropose(agents, a, r)
    ensures res.Ok? ==> AgentsOf(res.value) == Proposers(unassigned, relocating)
    ensures res.Ok? && Distinct(unassigned) ==> AgentsDistinct(res.value)
    ensures res.Ok? ==> forall i :: 0 <= i < |res.value| ==>
      res.value[i] == ProposalOf(agents, res.value[i].agent, r)
  {
    Propose(agents, Proposers(unassigned, relocating), r)
  }

  /** The zones proposed for. */
  function ZonesOf(ps: seq<Proposal>): set<string> {
    set p | p in ps :: p.zone
  }

  /** The keys of `bg_demand`: the proposed zones, each once, in the order
      of their first proposal. */
  function DemandZones(ps: seq<Proposal>): (r: seq<string>)
    ensures Distinct(r)
    ensures forall z :: z in r <==> z in ZonesOf(ps)
  {
    if |ps| == 0 then []
    else
      var front := ps[..|ps| - 1];
      assert ps == front + [ps[|ps| - 1]];
      assert ZonesOf(ps) == ZonesOf(front) + {ps[|ps| - 1].zone};
      Put(DemandZones(front), ps[|ps| - 1].zone)
  }

  /** `bg_demand[zone]`: the proposals for `zone`, in proposal order. */
  function ProposersFor(ps: seq<Proposal>, zone: string): (r: seq<Proposal>)
    ensures forall p :: p in r <==> p in ps && p.zone == zone
  {
    if |ps| == 0 then []
    else
      var front := ps[..|ps| - 1];
      assert forall p :: p in ps <==> p in front || p == ps[|ps| - 1];
      ProposersFor(front, zone) + (if ps[|ps| - 1].zone == zone then [ps[|ps| - 1]] else [])
  }

  /** A household is a proposer for the zone it proposed, and for no other
      zone. */
  lemma ProposerOfOneZone(ps: seq<Proposal>, i: nat, zone: string)
    requires AgentsDistinct(ps) && i < |ps|
    ensures ps[i] in ProposersFor(ps, ps[i].zone)
    ensures zone != ps[i].zone ==> forall p :: p in ProposersFor(ps, zone) ==> p.agent != ps[i].agent
  {
    forall p | p in ProposersFor(ps, zone) && zone != ps[i].zone
      ensures p.agent != ps[i].agent
    {
      var k :| 0 <= k < |ps| && ps[k] == p;
      assert AgentsOf(ps)[k] == p.agent && AgentsOf(ps)[i] == ps[i].agent;
    }
  }

  /** A zone's proposers propose once each. */
  lemma {:induction false} ProposersForDistinct(ps: seq<Proposal>, zone: string)
    requires AgentsDistinct(ps)
    ensures AgentsDistinct(ProposersFor(ps, zone))
    decreases |ps|
  {
    if |ps| > 0 {
      var front := ps[..|ps| - 1];
      var last := ps[|ps| - 1];
      assert AgentsOf(front) == AgentsOf(ps)[..|ps| - 1];
      ProposersForDistinct(front, zone);
      var pre := ProposersFor(front, zone);
      if last.zone == zone {
        assert ProposersFor(ps, zone) == pre + [last];
        assert AgentsOf(pre + [last]) == AgentsOf(pre) + [last.agent];
        forall x | x in AgentsOf(pre)
          ensures x !in [last.agent]
        {
          var j :| 0 <= j < |pre| && AgentsOf(pre)[j] == x;
          var k :| 0 <= k < |front| && front[k] == pre[j];
          assert AgentsOf(ps)[k] == x && AgentsOf(ps)[|ps| - 1] == last.agent;
        }
        DistinctConcat(AgentsOf(pre), [last.agent]);
      }
    }
  }

  /** Proposers that propose once each are distinct proposals. */
  lemma AgentsDistinctIsDistinct(ps: seq<Proposal>)
    requires AgentsDistinct(ps)
    ensures Distinct(ps)
  {
    forall i, j | 0 <= i < j < |ps|
      ensures ps[i] != ps[j]
    {
      assert AgentsOf(ps)[i] != AgentsOf(ps)[j];
    }
  }

  /** Distinct proposals taken from proposers that propose once each
      propose once each too. */
  lemma AgentsDistinctSub(a: seq<Proposal>, b: seq<Proposal>)
    requires Distinct(a) && AgentsDistinct(b)
    requires forall p :: p in a ==> p in b
    ensures AgentsDistinct(a)
  {
    forall i, j | 0 <= i < j < |a|
      ensures AgentsOf(a)[i] != AgentsOf(a)[j]
    {
      assert a[i] in a && a[j] in a;
      var k :| 0 <= k < |b| && b[k] == a[i];
      var l :| 0 <= l < |b| && b[l] == a[j];
      assert k != l;
      assert AgentsOf(b)[k] != AgentsOf(b)[l] by {
        if k < l {
          assert AgentsOf(b)[k] != AgentsOf(b)[l];
        } else {
          assert AgentsOf(b)[l] != AgentsOf(b)[k];
        }
      }
    }
  }
}
