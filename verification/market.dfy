/** `HousingMarket.run`: up to `bg_sample_size` rounds in which every queued
    household proposes its next-best scored zone and every proposed zone
    admits the proposers it has room for.

    The model follows the code with five corrections, each also kept as
    written in `MarketAsWritten` so the difference can be stated:
    - the proposal loops read each queued household's record, iterating
      the queue's `.values()`, not its names (housing_market.py:32, 41);
    - a relocating household proposes with its own utility, not the one
      left over from the new households' loop (housing_market.py:45, 48);
    - a zone that admits every proposer admits them from a snapshot of its
      proposers instead of deleting from the dictionary it iterates over
      (housing_market.py:53-56);
    - a relocating household's old zone is read from its agent record, not
      from an attribute of its name (housing_market.py:59, 72);
    - whether a household is new or relocating is decided by the queue it
      waits in, not by its year of residence (housing_market.py:54, 67).

    As in the code, the market never writes an agent record or a unit
    count: capacity is not used up within a run, and a household that moves
    keeps the location of the zone it left. */
module Market {
  import opened Dicts
  import opened Results
  import opened Records
  import opened Proposals
  import opened Acceptance
  import opened Admission

  // ---------------------------------------------------------------------
  // One round
  // ---------------------------------------------------------------------

  /** The proposers zone `z` accepts in a round. Its capacity is its
      `available_units`, which no round changes. */
  function ZoneAccepted(ps: seq<Proposal>, zones: map<string, Zone>, z: string): (r: seq<Proposal>)
    requires z in zones
    ensures forall p :: p in r ==> p in ps && p.zone == z
  {
    var r := Accepted(ProposersFor(ps, z), zones[z].availableUnits);
    assert forall p :: p in r ==> p in ProposersFor(ps, z) by {
      forall p | p in r
        ensures p in ProposersFor(ps, z)
      {
        assert multiset(r)[p] > 0;
      }
    }
    r
  }

  /** The accepted proposers of zone `z`, matched to it. */
  function ZoneMatches(ps: seq<Proposal>, zones: map<string, Zone>, z: string): (r: seq<Match>)
    requires z in zones
    ensures MatchAgents(r) == AgentsOf(ZoneAccepted(ps, zones, z))
    ensures forall m :: m in r ==> m.zone == z
  {
    var acc := ZoneAccepted(ps, zones, z);
    seq(|acc|, i requires 0 <= i < |acc| => Match(acc[i].agent, z))
  }

  /** `for bg in bg_demand.keys()`: the zones of `zs` clear in order, each
      admitting its accepted proposers. A name that is not a zone fails
      when its capacity is read. */
  function ClearZones(b: Book, agents: map<string, Agent>, zones: map<string, Zone>, ps: seq<Proposal>,
                      zs: seq<string>): (r: Result<Book>)
    requires b.members.Keys == zones.Keys
    ensures r.Ok? ==> r.value.members.Keys == zones.Keys
    decreases |zs|
  {
    if |zs| == 0 then Ok(b)
    else if zs[0] !in zones then Err(UnknownZone(zs[0]))
    else
      match AdmitAll(b, agents, ZoneMatches(ps, zones, zs[0]))
      case Err(e) => Err(e)
      case Ok(b1) => ClearZones(b1, agents, zones, ps, zs[1..])
  }

  /** All matches of a round, zone after zone. */
  function Matches(ps: seq<Proposal>, zones: map<string, Zone>, zs: seq<string>): (r: seq<Match>)
    requires forall z :: z in zs ==> z in zones
    ensures forall m :: m in r ==> m.zone in zs
    decreases |zs|
  {
    if |zs| == 0 then []
    else ZoneMatches(ps, zones, zs[0]) + Matches(ps, zones, zs[1..])
  }

  /** Clearing the zones one by one admits all the round's matches in
      order. */
  lemma {:induction false} ClearZonesFlat(b: Book, agents: map<string, Agent>, zones: map<string, Zone>,
                                          ps: seq<Proposal>, zs: seq<string>)
    requires b.members.Keys == zones.Keys
    requires forall z :: z in zs ==> z in zones
    ensures ClearZones(b, agents, zones, ps, zs) == AdmitAll(b, agents, Matches(ps, zones, zs))
    decreases |zs|
  {
    if |zs| > 0 {
      var head := ZoneMatches(ps, zones, zs[0]);
      var tail := Matches(ps, zones, zs[1..]);
      AdmitAllAppend(b, agents, head, tail);
      match AdmitAll(b, agents, head)
      case Err(e) =>
      case Ok(b1) => ClearZonesFlat(b1, agents, zones, ps, zs[1..]);
    }
  }

  /** Round `r`: every queued household proposes its `r`-th best zone, and
      the proposed zones clear in the order they were first proposed. */
  function Round(agents: map<string, Agent>, zones: map<string, Zone>, b: Book, r: nat): (res: Result<Book>)
    requires ScoresDistinct(agents) && b.members.Keys == zones.Keys
    ensures res.Ok? ==> res.value.members.Keys == zones.Keys
  {
    match RoundProposals(agents, b.unassigned, b.relocating, r)
    case Err(e) => Err(e)
    case Ok(ps) => ClearZones(b, agents, zones, ps, DemandZones(ps))
  }

  // ---------------------------------------------------------------------
  // The rounds and the engine
  // ---------------------------------------------------------------------

  /** Rounds `r`, `r + 1`, ... below `k`, stopping before a round once both
      queues are empty. */
  function Rounds(agents: map<string, Agent>, zones: map<string, Zone>, b: Book, r: nat, k: int): (res: Result<Book>)
    requires ScoresDistinct(agents) && b.members.Keys == zones.Keys
    ensures res.Ok? ==> res.value.members.Keys == zones.Keys
    decreases k - r
  {
    if r >= k || (|b.unassigned| == 0 && |b.relocating| == 0) then Ok(b)
    else
      match Round(agents, zones, b, r)
      case Err(e) => Err(e)
      case Ok(b1) => Rounds(agents, zones, b1, r + 1, k)
  }

  /** What the market reads and writes of a landscape. */
  function BookOf(s: Landscape): (b: Book)
    ensures b.members.Keys == s.zones.Keys
  {
    Book(map z | z in s.zones :: s.zones[z].hhAgents, s.unassigned, s.relocating)
  }

  /** The zones with their memberships replaced. */
  function WriteBack(zones: map<string, Zone>, members: map<string, seq<string>>): (r: map<string, Zone>)
    ensures r.Keys == zones.Keys
    ensures forall z :: z in zones ==> r[z].(hhAgents := zones[z].hhAgents) == zones[z]
    ensures forall z :: z in zones && z in members ==> r[z].hhAgents == members[z]
  {
    map z | z in zones :: if z in members then zones[z].(hhAgents := members[z]) else zones[z]
  }

  /** `HousingMarket.run` with `bg_sample_size` rounds at most. Only the
      zone memberships and the two queues change. */
  function HousingMarket(s: Landscape, bgSampleSize: int := 10): (r: Result<Landscape>)
    requires ScoresDistinct(s.agents)
    ensures r.Ok? ==> r.value.(zones := s.zones, unassigned := s.unassigned, relocating := s.relocating) == s
    ensures r.Ok? ==> r.value.zones.Keys == s.zones.Keys
    ensures r.Ok? ==> forall z :: z in s.zones ==> r.value.zones[z].(hhAgents := s.zones[z].hhAgents) == s.zones[z]
  {
    match Rounds(s.agents, s.zones, BookOf(s), 0, bgSampleSize)
    case Err(e) => Err(e)
    case Ok(b) => Ok(s.(zones := WriteBack(s.zones, b.members), unassigned := b.unassigned, relocating := b.relocating))
  }

  /** With no round to run, or nobody queued, the market changes nothing. */
  lemma MarketIdle(s: Landscape, bgSampleSize: int)
    requires ScoresDistinct(s.agents)
    requires bgSampleSize <= 0 || (|s.unassigned| == 0 && |s.relocating| == 0)
    ensures HousingMarket(s, bgSampleSize) == Ok(s)
  {
    var r := HousingMarket(s, bgSampleSize).value;
    assert r.zones == s.zones;
  }

  /** What a round adds after the rounds before it: nothing once both
      queues are empty. */
  function NextRound(agents: map<string, Agent>, zones: map<string, Zone>, b: Result<Book>, r: nat): (res: Result<Book>)
    requires ScoresDistinct(agents)
    requires b.Ok? ==> b.value.members.Keys == zones.Keys
  {
    match b
    case Err(e) => Err(e)
    case Ok(b1) => if |b1.unassigned| == 0 && |b1.relocating| == 0 then Ok(b1) else Round(agents, zones, b1, r)
  }

  /** Allowing one more round runs rounds as before and then at most that
      one: the market runs at most `bg_sample_size` rounds, numbered from
      0, and none after the queues empty. */
  lemma {:induction false} RoundsSnoc(agents: map<string, Agent>, zones: map<string, Zone>, b: Book, r: nat, k: nat)
    requires ScoresDistinct(agents) && b.members.Keys == zones.Keys
    requires r <= k
    ensures Rounds(agents, zones, b, r, k + 1) == NextRound(agents, zones, Rounds(agents, zones, b, r, k), k)
    decreases k - r
  {
    if |b.unassigned| == 0 && |b.relocating| == 0 {
      assert Rounds(agents, zones, b, r, k + 1) == Ok(b) == Rounds(agents, zones, b, r, k);
    } else {
      var next := Round(agents, zones, b, r);
      if r == k {
        assert Rounds(agents, zones, b, r, k) == Ok(b);
        assert NextRound(agents, zones, Ok(b), k) == next;
        if next.Ok? {
          var b1 := next.value;
          assert Rounds(agents, zones, b, r, k + 1) == Rounds(agents, zones, b1, r + 1, k + 1);
          assert Rounds(agents, zones, b1, r + 1, k + 1) == Ok(b1);
        } else {
          assert Rounds(agents, zones, b, r, k + 1) == Err(next.failure);
        }
      } else if next.Err? {
        assert Rounds(agents, zones, b, r, k + 1) == Err(next.failure);
        assert Rounds(agents, zones, b, r, k) == Err(next.failure);
      } else {
        var b1 := next.value;
        assert Rounds(agents, zones, b, r, k + 1) == Rounds(agents, zones, b1, r + 1, k + 1);
        RoundsSnoc(agents, zones, b1, r + 1, k);
        assert Rounds(agents, zones, b, r, k) == Rounds(agents, zones, b1, r + 1, k);
      }
    }
  }
}
