/** `ExistingAgentReloSampler` and `ExistingAgentLocation`: choosing which
    residents want to move, and scoring a shared sample of free units for
    every household that wants to move. */
module Relocation {
  import opened PyOps
  import opened Dicts
  import opened Results
  import opened Ranking
  import opened Records
  import opened Sampling
  import opened Utilities

  // ---------------------------------------------------------------------
  // ExistingAgentReloSampler.run
  // ---------------------------------------------------------------------

  /** `round(perc_move * len(hh_agents))`, rounding halves to even. */
  function MoverCount(percMove: real, residents: nat): int {
    RoundHalfEven(percMove * residents as real)
  }

  /** A share between 0 and 1 selects between none and all residents, the
      nearest whole number to that share of them. */
  lemma MoverCountInRange(percMove: real, residents: nat)
    requires 0.0 <= percMove <= 1.0
    ensures 0 <= MoverCount(percMove, residents) <= residents
    ensures NearestHalfEven(percMove * residents as real, MoverCount(percMove, residents))
  {
    RoundShareWithin(percMove, residents);
  }

  /** `random.sample(list(bg.hh_agents), n)` for one zone, drawn under the
      zone's name. */
  function ZoneMovers(hh: seq<string>, zone: string, percMove: real, sample: Sampler)
    : (r: Result<seq<string>>)
    requires SamplerOk(sample)
    ensures r.Err? <==> MoverCount(percMove, |hh|) < 0 || MoverCount(percMove, |hh|) > |hh|
    ensures r.Ok? ==> |r.value| == MoverCount(percMove, |hh|)
    ensures r.Ok? ==> forall a :: a in r.value ==> a in hh
    ensures r.Ok? && Distinct(hh) ==> Distinct(r.value)
  {
    var k := MoverCount(percMove, |hh|);
    if k < 0 || k > |hh| then Err(SampleLargerThanPopulation)
    else
      var idx := sample(zone, |hh|, k);
      Ok(Select(hh, idx))
  }

  /** The first of `movers` the registry has no record for. */
  function FirstUnregistered(movers: seq<string>, agents: map<string, Agent>): (r: Option<string>)
    ensures r.None? <==> forall a :: a in movers ==> a in agents
    ensures r.Some? ==> r.value in movers && r.value !in agents
    decreases |movers|
  {
    if |movers| == 0 then None
    else if movers[0] !in agents then Some(movers[0])
    else FirstUnregistered(movers[1..], agents)
  }

  /** The movers of the listed zones, zone by zone. Each mover's record is
      read from the registry as it is queued, so a zone's first unregistered
      mover fails with `KeyError` before the next zone is sampled. */
  function AllMovers(zones: map<string, Zone>, nodes: seq<string>, agents: map<string, Agent>,
                     percMove: real, sample: Sampler)
    : (r: Result<seq<string>>)
    requires SamplerOk(sample)
    requires forall n :: n in nodes ==> n in zones
    ensures r.Ok? ==> forall a :: a in r.value ==> exists n :: n in nodes && a in zones[n].hhAgents
    ensures r.Ok? ==> forall a :: a in r.value ==> a in agents
    ensures r.Err? ==> r.failure == SampleLargerThanPopulation || (r.failure.KeyError? && r.failure.agent !in agents)
    decreases |nodes|
  {
    if |nodes| == 0 then Ok([])
    else
      match ZoneMovers(zones[nodes[0]].hhAgents, nodes[0], percMove, sample)
      case Err(e) => Err(e)
      case Ok(m) =>
        match FirstUnregistered(m, agents)
        case Some(a) => Err(KeyError(a))
        case None =>
        match AllMovers(zones, nodes[1..], agents, percMove, sample)
        case Err(e) => Err(e)
        case Ok(rest) =>
          assert forall a :: a in rest ==> exists n :: n in nodes && a in zones[n].hhAgents by {
            forall a | a in rest
              ensures exists n :: n in nodes && a in zones[n].hhAgents
            {
              var n :| n in nodes[1..] && a in zones[n].hhAgents;
              assert n in nodes;
            }
          }
          Ok(m + rest)
  }

  /** `ExistingAgentReloSampler.run`: the sampled residents of every zone,
      in node order, join the relocation queue, each with a record in the
      registry. Nothing else changes: the residents stay members of their
      zones and no unit is released. */
  function ExistingAgentReloSampler(s: Landscape, percMove: real, sample: Sampler): (r: Result<Landscape>)
    requires SamplerOk(sample) && NodesMatch(s)
    ensures r.Ok? ==> r.value.(relocating := s.relocating) == s
    ensures r.Ok? ==> forall a :: a in s.relocating ==> a in r.value.relocating
    ensures r.Ok? ==> forall a :: a in r.value.relocating && a !in s.relocating ==>
      exists z :: z in s.zones && a in s.zones[z].hhAgents
    ensures r.Ok? ==> forall a :: a in r.value.relocating && a !in s.relocating ==> a in s.agents
    ensures r.Ok? && Distinct(s.relocating) ==> Distinct(r.value.relocating)
  {
    match AllMovers(s.zones, s.nodes, s.agents, percMove, sample)
    case Err(e) => Err(e)
    case Ok(movers) => Ok(s.(relocating := PutAll(s.relocating, movers)))
  }

  /** Each listed zone's movers are exactly its share of residents, drawn
      without repeats, and they all join the queue. */
  lemma {:induction false} AllMoversFacts(zones: map<string, Zone>, nodes: seq<string>,
                                          agents: map<string, Agent>, percMove: real,
                                          sample: Sampler, i: nat)
    requires SamplerOk(sample)
    requires forall n :: n in nodes ==> n in zones
    requires AllMovers(zones, nodes, agents, percMove, sample).Ok?
    requires i < |nodes|
    ensures var m := ZoneMovers(zones[nodes[i]].hhAgents, nodes[i], percMove, sample);
      && m.Ok?
      && |m.value| == MoverCount(percMove, |zones[nodes[i]].hhAgents|)
      && (forall a :: a in m.value ==> a in zones[nodes[i]].hhAgents)
      && (forall a :: a in m.value ==> a in AllMovers(zones, nodes, agents, percMove, sample).value)
    decreases |nodes|
  {
    if i > 0 {
      AllMoversFacts(zones, nodes[1..], agents, percMove, sample, i - 1);
      assert nodes[1..][i - 1] == nodes[i];
    }
  }

  /** The movers of the listed zones are found exactly when every zone's
      sample can be drawn and names registered households only. */
  lemma {:induction false} AllMoversOk(zones: map<string, Zone>, nodes: seq<string>,
                                       agents: map<string, Agent>, percMove: real, sample: Sampler)
    requires SamplerOk(sample)
    requires forall n :: n in nodes ==> n in zones
    ensures AllMovers(zones, nodes, agents, percMove, sample).Ok? <==>
      forall n :: n in nodes ==>
        && ZoneMovers(zones[n].hhAgents, n, percMove, sample).Ok?
        && forall a :: a in ZoneMovers(zones[n].hhAgents, n, percMove, sample).value ==> a in agents
    decreases |nodes|
  {
    if |nodes| > 0 {
      assert forall n :: n in nodes <==> n == nodes[0] || n in nodes[1..];
      AllMoversOk(zones, nodes[1..], agents, percMove, sample);
    }
  }

  /** With a share between 0 and 1, and every resident registered, the
      sampler never fails. */
  lemma {:induction false} AllMoversSucceed(zones: map<string, Zone>, nodes: seq<string>,
                                            agents: map<string, Agent>, percMove: real,
                                            sample: Sampler)
    requires SamplerOk(sample) && 0.0 <= percMove <= 1.0
    requires forall n :: n in nodes ==> n in zones
    requires forall n, a :: n in nodes && a in zones[n].hhAgents ==> a in agents
    ensures AllMovers(zones, nodes, agents, percMove, sample).Ok?
    decreases |nodes|
  {
    if |nodes| > 0 {
      MoverCountInRange(percMove, |zones[nodes[0]].hhAgents|);
      AllMoversSucceed(zones, nodes[1..], agents, percMove, sample);
    }
  }

  /** Every zone contributes its share of distinct residents to the
      relocation queue, a household already queued is not queued twice,
      and no membership, agent or unit count changes. */
  lemma ReloSamplerFacts(s: Landscape, percMove: real, sample: Sampler, z: string)
    requires SamplerOk(sample) && NodesMatch(s) && 0.0 <= percMove <= 1.0
    requires MembersKnown(s) && Distinct(s.relocating) && z in s.zones
    ensures var r := ExistingAgentReloSampler(s, percMove, sample);
      var m := ZoneMovers(s.zones[z].hhAgents, z, percMove, sample);
      && r.Ok? && m.Ok?
      && |m.value| == MoverCount(percMove, |s.zones[z].hhAgents|)
      && Distinct(m.value)
      && (forall a :: a in m.value ==> a in s.zones[z].hhAgents && a in r.value.relocating)
      && Distinct(r.value.relocating)
      && r.value.zones == s.zones && r.value.agents == s.agents && r.value.unassigned == s.unassigned
  {
    AllMoversSucceed(s.zones, s.nodes, s.agents, percMove, sample);
    var i :| 0 <= i < |s.nodes| && s.nodes[i] == z;
    AllMoversFacts(s.zones, s.nodes, s.agents, percMove, sample, i);
  }

  // ---------------------------------------------------------------------
  // ExistingAgentLocation.run
  // ---------------------------------------------------------------------

  /** Every registered household named in `queue` evaluates the zones
      `sampled(name)`; every other household is unchanged. */
  function ScoreQueue(agents: map<string, Agent>, queue: seq<string>, sampled: string -> seq<string>,
                      score: Score): (r: map<string, Agent>)
    ensures r.Keys == agents.Keys
    ensures forall b :: b in agents && b !in queue ==> r[b] == agents[b]
    ensures forall b :: b in agents && b in queue ==>
      r[b] == agents[b].(utilities := Evaluate(agents[b].utilities, sampled(b), b, score))
  {
    map b | b in agents ::
      if b in queue then agents[b].(utilities := Evaluate(agents[b].utilities, sampled(b), b, score))
      else agents[b]
  }

  /** `ExistingAgentLocation.run`: one sample of `bg_sample_size` entries of
      the unit list, drawn before the queue is read, scored by every
      household waiting to relocate. `idx` are the sampled positions. */
  function ExistingAgentLocation(s: Landscape, bgSampleSize: int, idx: seq<nat>, score: Score)
    : (r: Result<Landscape>)
    requires 0 <= bgSampleSize <= |s.unitList| ==> ValidSample(idx, |s.unitList|, bgSampleSize)
    ensures r.Err? <==> bgSampleSize < 0 || bgSampleSize > |s.unitList|
    ensures r.Ok? ==> r.value.(agents := s.agents) == s
    ensures r.Ok? ==> r.value.agents.Keys == s.agents.Keys
  {
    if bgSampleSize < 0 || bgSampleSize > |s.unitList| then Err(SampleLargerThanPopulation)
    else
      var sampled := Select(s.unitList, idx);
      Ok(s.(agents := ScoreQueue(s.agents, s.relocating, _ => sampled, score)))
  }

  /** The shared sample holds `bg_sample_size` zones, none more often than
      it has free units in the list; every relocating household has a
      score for each of them and keeps its other scores; no other
      household, and nothing but the scores, changes. */
  lemma ExistingAgentLocationFacts(s: Landscape, bgSampleSize: int, idx: seq<nat>, score: Score, b: string)
    requires 0 <= bgSampleSize <= |s.unitList|
    requires ValidSample(idx, |s.unitList|, bgSampleSize)
    requires b in s.agents
    ensures var r := ExistingAgentLocation(s, bgSampleSize, idx, score).value;
      var sampled := Select(s.unitList, idx);
      && |sampled| == bgSampleSize
      && multiset(sampled) <= multiset(s.unitList)
      && (b !in s.relocating ==> r.agents[b] == s.agents[b])
      && (b in s.relocating ==>
            && r.agents[b].(utilities := s.agents[b].utilities) == s.agents[b]
            && (forall z :: z in sampled ==> (z, score(b, z)) in r.agents[b].utilities)
            && (forall c :: c in s.agents[b].utilities && c.0 !in sampled ==> c in r.agents[b].utilities))
  {
    SelectSubMultiset(s.unitList, idx);
    var sampled := Select(s.unitList, idx);
    var r := ExistingAgentLocation(s, bgSampleSize, idx, score).value;
    if b in s.relocating {
      var u := r.agents[b].utilities;
      assert u == Evaluate(s.agents[b].utilities, sampled, b, score);
      forall z | z in sampled
        ensures (z, score(b, z)) in u
      {
        var j :| 0 <= j < |sampled| && sampled[j] == z;
      }
    }
  }
}
