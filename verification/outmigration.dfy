/** `agent_out_migration.run`: in every zone a share of the residents leaves
    the study area for good, releasing the units they occupied. */
module OutMigration {
  import opened PyOps
  import opened Dicts
  import opened Results
  import opened Records
  import opened Sampling
  import opened Relocation

  /** `round(abs(perc_migrate) * len(hh_agents))`. */
  function MigrantCount(percMigrate: real, residents: nat): int {
    MoverCount(Abs(percMigrate), residents)
  }

  /** The count never is negative, a negative rate counts as its absolute
      value, and a rate of at most one in size selects at most every
      resident. */
  lemma MigrantCountFacts(percMigrate: real, residents: nat)
    ensures MigrantCount(percMigrate, residents) == MigrantCount(-percMigrate, residents)
    ensures MigrantCount(percMigrate, residents) >= 0
    ensures Abs(percMigrate) <= 1.0 ==> MigrantCount(percMigrate, residents) <= residents
  {
    var n := residents as real;
    MulNonneg(Abs(percMigrate), n);
    RoundWithin(Abs(percMigrate) * n, 0, residents + (Abs(percMigrate) * n).Floor + 1);
    if Abs(percMigrate) <= 1.0 {
      MoverCountInRange(Abs(percMigrate), residents);
    }
  }

  /** The residents of one zone that leave: `random.sample` of the
      membership, drawn under the zone's name; none when the draw fails. */
  function Migrants(hh: seq<string>, zone: string, percMigrate: real, sample: Sampler): seq<string>
    requires SamplerOk(sample)
  {
    var m := ZoneMovers(hh, zone, Abs(percMigrate), sample);
    if m.Ok? then m.value else []
  }

  /** A zone after the households `m` left it: each leaves the membership
      and frees the unit it occupied. */
  function Vacate(z: Zone, m: seq<string>): Zone {
    z.(hhAgents := DelAll(z.hhAgents, set a | a in m),
       occupiedUnits := z.occupiedUnits - |m|,
       availableUnits := z.availableUnits + |m|)
  }

  /** Zone `z` after household `hh` left it: `hh` leaves the membership
      and frees the unit it occupied. */
  function Depart(z: Zone, hh: string): Zone {
    z.(hhAgents := Del(z.hhAgents, hh), occupiedUnits := z.occupiedUnits - 1,
       availableUnits := z.availableUnits + 1)
  }

  /** One household leaves: it is deleted from the zone its location
      names, that zone has one occupied unit less and one available unit
      more, and the household is marked `'outmigrated'`. An unregistered
      household, a location that names no zone, or a household that is not
      a member there makes the run fail. */
  function Leave(s: Landscape, hh: string): (r: Result<Landscape>)
    ensures r.Ok? ==> r.value.zones.Keys == s.zones.Keys
  {
    if hh !in s.agents then Err(KeyError(hh))
    else if !s.agents[hh].location.At? || s.agents[hh].location.zone !in s.zones then Err(NoZoneLocation(hh))
    else
      var y := s.agents[hh].location.zone;
      if hh !in s.zones[y].hhAgents then Err(KeyError(hh))
      else
        Ok(s.(zones := s.zones[y := Depart(s.zones[y], hh)],
              agents := s.agents[hh := s.agents[hh].(location := Outmigrated)]))
  }

  function LeaveAll(s: Landscape, m: seq<string>): (r: Result<Landscape>)
    ensures r.Ok? ==> r.value.zones.Keys == s.zones.Keys
    decreases |m|
  {
    if |m| == 0 then Ok(s)
    else
      match Leave(s, m[0])
      case Err(e) => Err(e)
      case Ok(s1) => LeaveAll(s1, m[1..])
  }

  /** The zones of `nodes`, in order: each draws its migrants from its
      current membership and they leave. */
  function OutMigrateZones(s: Landscape, nodes: seq<string>, percMigrate: real, sample: Sampler)
    : (r: Result<Landscape>)
    requires SamplerOk(sample)
    requires forall n :: n in nodes ==> n in s.zones
    ensures r.Ok? ==> r.value.zones.Keys == s.zones.Keys
    decreases |nodes|
  {
    if |nodes| == 0 then Ok(s)
    else
      match ZoneMovers(s.zones[nodes[0]].hhAgents, nodes[0], Abs(percMigrate), sample)
      case Err(e) => Err(e)
      case Ok(m) =>
        match LeaveAll(s, m)
        case Err(e) => Err(e)
        case Ok(s1) => OutMigrateZones(s1, nodes[1..], percMigrate, sample)
  }

  /** `agent_out_migration.run`. */
  function AgentOutMigration(s: Landscape, percMigrate: real, sample: Sampler): (r: Result<Landscape>)
    requires SamplerOk(sample) && NodesMatch(s)
  {
    OutMigrateZones(s, s.nodes, percMigrate, sample)
  }

  // ---------------------------------------------------------------------
  // Every run that succeeds
  // ---------------------------------------------------------------------

  /** Each departure moves one unit of a zone from occupied to available,
      so no zone's occupied plus available units change. */
  lemma {:induction false} LeaveAllConserves(s: Landscape, m: seq<string>, z: string)
    requires LeaveAll(s, m).Ok? && z in s.zones
    ensures LeaveAll(s, m).value.zones[z].occupiedUnits + LeaveAll(s, m).value.zones[z].availableUnits ==
            s.zones[z].occupiedUnits + s.zones[z].availableUnits
    decreases |m|
  {
    if |m| > 0 {
      LeaveAllConserves(Leave(s, m[0]).value, m[1..], z);
    }
  }

  lemma {:induction false} OutMigrationConserves(s: Landscape, nodes: seq<string>, percMigrate: real,
                                                 sample: Sampler, z: string)
    requires SamplerOk(sample)
    requires forall n :: n in nodes ==> n in s.zones
    requires OutMigrateZones(s, nodes, percMigrate, sample).Ok? && z in s.zones
    ensures OutMigrateZones(s, nodes, percMigrate, sample).value.zones[z].occupiedUnits
          + OutMigrateZones(s, nodes, percMigrate, sample).value.zones[z].availableUnits
         == s.zones[z].occupiedUnits + s.zones[z].availableUnits
    decreases |nodes|
  {
    if |nodes| > 0 {
      var m := ZoneMovers(s.zones[nodes[0]].hhAgents, nodes[0], Abs(percMigrate), sample).value;
      var s1 := LeaveAll(s, m).value;
      LeaveAllConserves(s, m, z);
      OutMigrationConserves(s1, nodes[1..], percMigrate, sample, z);
    }
  }

  /** Departures change no queue, unit list, table or total, register no
      household and remove none. */
  lemma {:induction false} LeaveAllFrame(s: Landscape, m: seq<string>)
    requires LeaveAll(s, m).Ok?
    ensures LeaveAll(s, m).value.(zones := s.zones, agents := s.agents) == s
    ensures LeaveAll(s, m).value.agents.Keys == s.agents.Keys
    decreases |m|
  {
    if |m| > 0 {
      LeaveAllFrame(Leave(s, m[0]).value, m[1..]);
    }
  }

  lemma {:induction false} OutMigrationFrame(s: Landscape, nodes: seq<string>, percMigrate: real, sample: Sampler)
    requires SamplerOk(sample)
    requires forall n :: n in nodes ==> n in s.zones
    requires OutMigrateZones(s, nodes, percMigrate, sample).Ok?
    ensures OutMigrateZones(s, nodes, percMigrate, sample).value.(zones := s.zones, agents := s.agents) == s
    ensures OutMigrateZones(s, nodes, percMigrate, sample).value.agents.Keys == s.agents.Keys
    decreases |nodes|
  {
    if |nodes| > 0 {
      var m := ZoneMovers(s.zones[nodes[0]].hhAgents, nodes[0], Abs(percMigrate), sample).value;
      LeaveAllFrame(s, m);
      OutMigrationFrame(LeaveAll(s, m).value, nodes[1..], percMigrate, sample);
    }
  }

  // ---------------------------------------------------------------------
  // A consistent landscape
  // ---------------------------------------------------------------------

  /** The households of `m` live in zone `y`, as its members. */
  predicate LiveIn(s: Landscape, m: seq<string>, y: string) {
    y in s.zones &&
    forall a :: a in m ==> a in s.agents && s.agents[a].location == At(y) && a in s.zones[y].hhAgents
  }

  /** In a consistent landscape the members of a zone live in it. */
  lemma MembersLiveIn(s: Landscape, m: seq<string>, y: string)
    requires Consistent(s) && y in s.zones
    requires forall a :: a in m ==> a in s.zones[y].hhAgents
    ensures LiveIn(s, m, y)
  {
  }

  /** One departure of a resident of `y`: it leaves that zone's membership,
      frees a unit there and is marked out-migrated. */
  lemma LeaveStep(s: Landscape, hh: string, y: string) returns (s1: Landscape)
    requires LiveIn(s, [hh], y)
    ensures Leave(s, hh) == Ok(s1)
    ensures s1.zones == s.zones[y := Depart(s.zones[y], hh)]
    ensures s1.agents == s.agents[hh := s.agents[hh].(location := Outmigrated)]
  {
    assert hh in [hh];
    s1 := Leave(s, hh).value;
  }

  /** A departure keeps a consistent landscape consistent. */
  lemma LeaveConsistent(s: Landscape, hh: string, y: string)
    requires MembersKnown(s) && Consistent(s) && LiveIn(s, [hh], y)
    ensures Leave(s, hh).Ok?
    ensures MembersKnown(Leave(s, hh).value) && Consistent(Leave(s, hh).value)
  {
    var s1 := LeaveStep(s, hh, y);
    forall x, b | x in s1.zones && b in s1.zones[x].hhAgents
      ensures b in s1.agents && s1.agents[b].location == At(x)
    {
      assert b in s.zones[x].hhAgents;
    }
  }

  /** Departures run in order: the first, then the rest. */
  lemma LeaveAllCons(s: Landscape, m: seq<string>, s1: Landscape)
    requires |m| > 0 && Leave(s, m[0]) == Ok(s1)
    ensures LeaveAll(s, m) == LeaveAll(s1, m[1..])
  {
  }

  /** The others still live where they lived after one of them left. */
  lemma LiveInTail(s: Landscape, m: seq<string>, y: string) returns (s1: Landscape)
    requires LiveIn(s, m, y) && Distinct(m) && |m| > 0
    ensures Leave(s, m[0]) == Ok(s1)
    ensures s1.zones == s.zones[y := Depart(s.zones[y], m[0])]
    ensures s1.agents == s.agents[m[0] := s.agents[m[0]].(location := Outmigrated)]
    ensures LiveIn(s1, m[1..], y) && Distinct(m[1..])
  {
    assert m[0] in m;
    assert LiveIn(s, [m[0]], y);
    s1 := LeaveStep(s, m[0], y);
    DistinctTail(m);
    forall a | a in m[1..]
      ensures a in s1.agents && s1.agents[a].location == At(y) && a in s1.zones[y].hhAgents
    {
      assert a in m && a != m[0];
    }
  }

  /** The same step, as the fold sees it: the rest of the departures start
      from the landscape the first one left, with `y` one member short. */
  lemma LiveInNext(s: Landscape, m: seq<string>, y: string) returns (s1: Landscape)
    requires LiveIn(s, m, y) && Distinct(m) && |m| > 0
    ensures LeaveAll(s, m) == LeaveAll(s1, m[1..])
    ensures s1.zones == s.zones[y := Depart(s.zones[y], m[0])]
    ensures LiveIn(s1, m[1..], y) && Distinct(m[1..])
  {
    s1 := LiveInTail(s, m, y);
    LeaveAllCons(s, m, s1);
  }

  /** Distinct residents of `y` leaving vacate exactly them from `y` and
      change no other zone. */
  lemma {:induction false} LeaveAllZone(s: Landscape, m: seq<string>, y: string) returns (r: Landscape)
    requires LiveIn(s, m, y) && Distinct(m)
    ensures LeaveAll(s, m) == Ok(r)
    ensures r.zones == s.zones[y := Vacate(s.zones[y], m)]
    decreases |m|, 1
  {
    if |m| == 0 {
      r := s;
      VacateNone(s.zones, y);
    } else {
      r := LeaveAllZoneCons(s, m, y);
    }
  }

  lemma {:induction false} LeaveAllZoneCons(s: Landscape, m: seq<string>, y: string) returns (r: Landscape)
    requires LiveIn(s, m, y) && Distinct(m) && |m| > 0
    ensures LeaveAll(s, m) == Ok(r)
    ensures r.zones == s.zones[y := Vacate(s.zones[y], m)]
    decreases |m|, 0
  {
    var s1 := LiveInNext(s, m, y);
    r := LeaveAllZone(s1, m[1..], y);
    VacateCons(s.zones, s1.zones, r.zones, y, m);
  }

  lemma VacateNone(zones: map<string, Zone>, y: string)
    requires y in zones
    ensures zones[y := Vacate(zones[y], [])] == zones
  {
    assert (set a: string | a in []) == {};
    DelAllEmpty(zones[y].hhAgents);
  }

  lemma VacateCons(zones: map<string, Zone>, zones1: map<string, Zone>, zones2: map<string, Zone>,
                   y: string, m: seq<string>)
    requires y in zones && |m| > 0
    requires zones1 == zones[y := Depart(zones[y], m[0])]
    requires zones2 == zones1[y := Vacate(zones1[y], m[1..])]
    ensures zones2 == zones[y := Vacate(zones[y], m)]
  {
    VacateStep(zones[y], m);
  }

  /** ... and keep the landscape consistent. */
  lemma {:induction false} LeaveAllConsistent(s: Landscape, m: seq<string>, y: string)
    requires MembersKnown(s) && Consistent(s) && LiveIn(s, m, y) && Distinct(m)
    ensures LeaveAll(s, m).Ok?
    ensures MembersKnown(LeaveAll(s, m).value) && Consistent(LeaveAll(s, m).value)
    decreases |m|
  {
    if |m| > 0 {
      var s1 := LiveInTail(s, m, y);
      assert m[0] in m;
      LeaveConsistent(s, m[0], y);
      LeaveAllConsistent(s1, m[1..], y);
    }
  }

  /** Vacating the first household and then the rest vacates them all. */
  lemma VacateStep(z: Zone, m: seq<string>)
    requires |m| > 0
    ensures Vacate(Depart(z, m[0]), m[1..]) == Vacate(z, m)
  {
    DelThenDelAll(z.hhAgents, m[0], set a | a in m[1..]);
    assert (set a | a in m[1..]) + {m[0]} == set a | a in m;
  }

  /** ... and mark exactly them out-migrated. */
  lemma {:induction false} LeaveAllAgents(s: Landscape, m: seq<string>, y: string, b: string)
    requires LiveIn(s, m, y) && Distinct(m)
    requires b in s.agents
    ensures LeaveAll(s, m).Ok?
    ensures b in LeaveAll(s, m).value.agents
    ensures LeaveAll(s, m).value.agents[b] == if b in m then s.agents[b].(location := Outmigrated) else s.agents[b]
    decreases |m|
  {
    if |m| > 0 {
      var s1 := LiveInTail(s, m, y);
      LeaveAllAgents(s1, m[1..], y, b);
      assert b in m <==> b == m[0] || b in m[1..];
    }
  }

  /** With a rate of at most one in size, out-migration from a consistent
      landscape succeeds; every zone of `nodes` loses exactly the residents
      its own draw selected, and the landscape stays consistent. */
  lemma {:induction false} OutMigrateZonesVacate(s: Landscape, nodes: seq<string>, percMigrate: real,
                                                 sample: Sampler) returns (r: Landscape)
    requires SamplerOk(sample) && Abs(percMigrate) <= 1.0
    requires Distinct(nodes) && forall n :: n in nodes ==> n in s.zones
    requires MembersKnown(s) && Consistent(s)
    ensures OutMigrateZones(s, nodes, percMigrate, sample) == Ok(r)
    ensures r.zones.Keys == s.zones.Keys
    ensures forall z :: z in s.zones ==>
      r.zones[z] == if z in nodes then Vacate(s.zones[z], Migrants(s.zones[z].hhAgents, z, percMigrate, sample))
                    else s.zones[z]
    ensures MembersKnown(r) && Consistent(r)
    decreases |nodes|
  {
    if |nodes| == 0 {
      r := s;
    } else {
      var y := nodes[0];
      var hh := s.zones[y].hhAgents;
      MoverCountInRange(Abs(percMigrate), |hh|);
      var m := ZoneMovers(hh, y, Abs(percMigrate), sample).value;
      MembersLiveIn(s, m, y);
      var s1 := LeaveAllZone(s, m, y);
      LeaveAllConsistent(s, m, y);
      DistinctTail(nodes);
      r := OutMigrateZonesVacate(s1, nodes[1..], percMigrate, sample);
      forall z | z in s.zones
        ensures r.zones[z] == if z in nodes then Vacate(s.zones[z], Migrants(s.zones[z].hhAgents, z, percMigrate, sample))
                              else s.zones[z]
      {
        assert z in nodes <==> z == y || z in nodes[1..];
      }
    }
  }

  /** Each selected resident is one of the zone's members, drawn without
      repeats, `round(|perc_migrate| * n)` of them. */
  lemma MigrantsFacts(hh: seq<string>, zone: string, percMigrate: real, sample: Sampler)
    requires SamplerOk(sample) && Abs(percMigrate) <= 1.0
    ensures |Migrants(hh, zone, percMigrate, sample)| == MigrantCount(percMigrate, |hh|)
    ensures forall a :: a in Migrants(hh, zone, percMigrate, sample) ==> a in hh
    ensures Distinct(hh) ==> Distinct(Migrants(hh, zone, percMigrate, sample))
  {
    MoverCountInRange(Abs(percMigrate), |hh|);
  }

  /** The residents every zone of `nodes` draws, from the memberships of
      `zones`, zone after zone. */
  function AllMigrants(zones: map<string, Zone>, nodes: seq<string>, percMigrate: real, sample: Sampler)
    : seq<string>
    requires SamplerOk(sample)
    requires forall n :: n in nodes ==> n in zones
    decreases |nodes|
  {
    if |nodes| == 0 then []
    else Migrants(zones[nodes[0]].hhAgents, nodes[0], percMigrate, sample)
         + AllMigrants(zones, nodes[1..], percMigrate, sample)
  }

  lemma {:induction false} AllMigrantsFrame(zones: map<string, Zone>, zones': map<string, Zone>, nodes: seq<string>,
                                            percMigrate: real, sample: Sampler)
    requires SamplerOk(sample)
    requires forall n :: n in nodes ==> n in zones && n in zones' && zones'[n].hhAgents == zones[n].hhAgents
    ensures AllMigrants(zones', nodes, percMigrate, sample) == AllMigrants(zones, nodes, percMigrate, sample)
    decreases |nodes|
  {
    if |nodes| > 0 {
      AllMigrantsFrame(zones, zones', nodes[1..], percMigrate, sample);
    }
  }

  /** A drawn resident is marked out-migrated and keeps its other fields;
      every household no zone drew is unchanged. */
  lemma {:induction false} OutMigrateZonesAgents(s: Landscape, nodes: seq<string>, percMigrate: real,
                                                 sample: Sampler, b: string)
    requires SamplerOk(sample) && Abs(percMigrate) <= 1.0
    requires Distinct(nodes) && forall n :: n in nodes ==> n in s.zones
    requires MembersKnown(s) && Consistent(s) && b in s.agents
    ensures OutMigrateZones(s, nodes, percMigrate, sample).Ok?
    ensures b in OutMigrateZones(s, nodes, percMigrate, sample).value.agents
    ensures OutMigrateZones(s, nodes, percMigrate, sample).value.agents[b] ==
      if b in AllMigrants(s.zones, nodes, percMigrate, sample) then s.agents[b].(location := Outmigrated)
      else s.agents[b]
    decreases |nodes|
  {
    var r := OutMigrateZonesVacate(s, nodes, percMigrate, sample);
    if |nodes| > 0 {
      var y := nodes[0];
      var hh := s.zones[y].hhAgents;
      MoverCountInRange(Abs(percMigrate), |hh|);
      var m := ZoneMovers(hh, y, Abs(percMigrate), sample).value;
      MembersLiveIn(s, m, y);
      var s1 := LeaveAllZone(s, m, y);
      LeaveAllConsistent(s, m, y);
      LeaveAllAgents(s, m, y, b);
      DistinctTail(nodes);
      OutMigrateZonesAgents(s1, nodes[1..], percMigrate, sample, b);
      AllMigrantsFrame(s.zones, s1.zones, nodes[1..], percMigrate, sample);
    }
  }

  /** The engine on a consistent landscape with a rate of at most one in
      size: every zone has given up exactly its drawn residents, moving one
      unit from occupied to available per departure; the landscape stays
      consistent; queues, unit list and table are untouched. */
  lemma AgentOutMigrationFacts(s: Landscape, percMigrate: real, sample: Sampler, z: string)
    requires SamplerOk(sample) && Abs(percMigrate) <= 1.0
    requires NodesMatch(s) && MembersKnown(s) && Consistent(s) && z in s.zones
    ensures var r := AgentOutMigration(s, percMigrate, sample);
      var m := Migrants(s.zones[z].hhAgents, z, percMigrate, sample);
      && r.Ok?
      && |m| == MigrantCount(percMigrate, |s.zones[z].hhAgents|)
      && r.value.zones[z].hhAgents == DelAll(s.zones[z].hhAgents, set a | a in m)
      && r.value.zones[z].occupiedUnits == s.zones[z].occupiedUnits - |m|
      && r.value.zones[z].availableUnits == s.zones[z].availableUnits + |m|
      && MembersKnown(r.value) && Consistent(r.value)
      && r.value.unassigned == s.unassigned && r.value.relocating == s.relocating
      && r.value.unitList == s.unitList
  {
    var r := OutMigrateZonesVacate(s, s.nodes, percMigrate, sample);
    MigrantsFacts(s.zones[z].hhAgents, z, percMigrate, sample);
    OutMigrationFrame(s, s.nodes, percMigrate, sample);
  }

  /** ... and exactly the drawn residents are marked out-migrated. */
  lemma AgentOutMigrationAgents(s: Landscape, percMigrate: real, sample: Sampler, b: string)
    requires SamplerOk(sample) && Abs(percMigrate) <= 1.0
    requires NodesMatch(s) && MembersKnown(s) && Consistent(s) && b in s.agents
    ensures AgentOutMigration(s, percMigrate, sample).Ok?
    ensures b in AgentOutMigration(s, percMigrate, sample).value.agents
    ensures AgentOutMigration(s, percMigrate, sample).value.agents[b] ==
      if b in AllMigrants(s.zones, s.nodes, percMigrate, sample) then s.agents[b].(location := Outmigrated)
      else s.agents[b]
  {
    OutMigrateZonesAgents(s, s.nodes, percMigrate, sample, b);
  }
}
