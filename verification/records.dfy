/** The zone ledger and the agent registry: block-group zones, household
    agents, and the landscape (the simulation network) that holds both,
    together with the two wait queues and the unit list the engines share. */
module Records {
  import opened Dicts
  import opened Results
  import opened Ranking

  /** Where a household lives: nowhere yet (`None` in Python), a zone by
      name, or the terminal `'outmigrated'`. */
  datatype Location = Unplaced | At(zone: string) | Outmigrated

  datatype Zoning = Allowed | NotAllowed

  /** A block group. Its name is its key in the landscape's zone map. */
  datatype Zone = Zone(
    area: real,
    initPop: int,
    population: int,
    /** The names of the households living here, in insertion order. */
    hhAgents: seq<string>,
    avgHomePrice: int,
    distanceToCbd: int,
    floodHazardRisk: int,
    availableUnits: int,
    occupiedUnits: int,
    availableResidences: int,
    popDensity: real,
    zoning: Zoning,
    demandExceedsSupply: bool,
    /** The recorded past values of `demandExceedsSupply`. */
    demandHistory: seq<bool>,
    newPrice: real,
    newUnitsConstructed: int)

  /** A representative household agent. Its name is its key in the
      landscape's agent map. */
  datatype Agent = Agent(
    location: Location,
    noHhsPerAgent: int,
    hhSize: int,
    yearOfResidence: int,
    /** `hh_utilities`: a score per candidate zone, keyed by zone name. */
    utilities: seq<Candidate>)

  /** The row of the housing table for one zone, keyed by its GEOID. */
  datatype Row = Row(
    demandExceedsSupply: bool,
    occupiedUnits: int,
    newUnitsConstructed: int,
    newPrice: real)

  /** The simulation network. */
  datatype Landscape = Landscape(
    /** Node order: the order in which every engine visits the zones. */
    nodes: seq<string>,
    zones: map<string, Zone>,
    /** The `all_hh_agents` institution, by agent name. */
    agents: map<string, Agent>,
    /** The queue of new households awaiting first placement. */
    unassigned: seq<string>,
    /** The queue of existing households that want to move. */
    relocating: seq<string>,
    /** `available_units_list`: one zone name per free unit. */
    unitList: seq<string>,
    totalPopulation: int,
    /** The housing table, by GEOID. */
    table: map<string, Row>)

  /** A new block group (`BlockGroup.__init__` with the class's property
      defaults): populated from the census count, nobody living there yet,
      no units, no risk, development allowed. The two market fields no
      constructor sets start false and zero. */
  function NewBlockGroup(area: real, initPop: int): (z: Zone)
    ensures z.population == initPop && z.initPop == initPop && z.area == area
    ensures z.hhAgents == []
    ensures z.availableUnits == 0 && z.occupiedUnits == 0
    ensures z.floodHazardRisk == 0 && z.distanceToCbd == 0 && z.avgHomePrice == 0
    ensures z.zoning == Allowed
  {
    Zone(area, initPop, initPop, [], 0, 0, 0, 0, 0, 0, 0.0, Allowed, false, [], 0.0, 0)
  }

  /** `HHAgent(name, location=None, no_hhs_per_agent=100, hh_size=4,
      year_of_residence=2018)`. */
  function NewHHAgent(location: Location := Unplaced, noHhsPerAgent: int := 100, hhSize: int := 4,
                      yearOfResidence: int := 2018): (a: Agent)
    ensures a.location == location && a.noHhsPerAgent == noHhsPerAgent
    ensures a.hhSize == hhSize && a.yearOfResidence == yearOfResidence
    ensures a.utilities == []
  {
    Agent(location, noHhsPerAgent, hhSize, yearOfResidence, [])
  }

  /** The number of people an agent stands for. */
  function Weight(a: Agent): int {
    a.noHhsPerAgent * a.hhSize
  }

  /** A default household stands for 100 households of 4 people and has no
      home yet. */
  lemma DefaultAgent()
    ensures Weight(NewHHAgent()) == 400
    ensures NewHHAgent().location == Unplaced
    ensures NewHHAgent().yearOfResidence == 2018
  {
  }

  // ---------------------------------------------------------------------
  // Well-formedness
  // ---------------------------------------------------------------------

  /** The node list names every zone exactly once. */
  predicate NodesMatch(s: Landscape) {
    && Distinct(s.nodes)
    && (forall n :: n in s.nodes ==> n in s.zones)
    && (forall n :: n in s.zones ==> n in s.nodes)
  }

  /** Every membership list names registered agents, each once. */
  predicate MembersKnown(s: Landscape) {
    forall z :: z in s.zones ==>
      Distinct(s.zones[z].hhAgents) && forall a :: a in s.zones[z].hhAgents ==> a in s.agents
  }

  /** The two queues name registered agents, each once, and no agent waits
      in both. */
  predicate QueuesWellFormed(s: Landscape) {
    && Distinct(s.unassigned) && Distinct(s.relocating)
    && (forall a :: a in s.unassigned ==> a in s.agents && a !in s.relocating)
    && (forall a :: a in s.relocating ==> a in s.agents)
  }

  /** Each resident's location names the zone it lives in. */
  predicate ResidentsLocated(s: Landscape) {
    forall z, a :: z in s.zones && a in s.zones[z].hhAgents ==>
      a in s.agents && s.agents[a].location == At(z)
  }

  /** Locations and memberships agree both ways. */
  predicate Consistent(s: Landscape) {
    && ResidentsLocated(s)
    && forall a :: a in s.agents && s.agents[a].location.At? ==>
         s.agents[a].location.zone in s.zones && a in s.zones[s.agents[a].location.zone].hhAgents
  }

  // ---------------------------------------------------------------------
  // Registering and moving households
  // ---------------------------------------------------------------------

  /** Registers `name` as `a` in the agent institution and adds it to the
      membership of zone `z`. */
  function AddResident(s: Landscape, z: string, name: string, a: Agent): (r: Landscape)
    requires z in s.zones
    ensures r.agents == s.agents[name := a]
    ensures r.zones == s.zones[z := s.zones[z].(hhAgents := Put(s.zones[z].hhAgents, name))]
    ensures r.(agents := s.agents, zones := s.zones) == s
  {
    s.(agents := s.agents[name := a],
       zones := s.zones[z := s.zones[z].(hhAgents := Put(s.zones[z].hhAgents, name))])
  }

  /** Registering a new household in the zone its location names keeps
      locations and memberships in agreement, and adds exactly one resident
      to that zone. */
  lemma AddResidentConsistent(s: Landscape, z: string, name: string, a: Agent)
    requires MembersKnown(s) && Consistent(s)
    requires z in s.zones && name !in s.agents && a.location == At(z)
    ensures MembersKnown(AddResident(s, z, name, a))
    ensures Consistent(AddResident(s, z, name, a))
    ensures |AddResident(s, z, name, a).zones[z].hhAgents| == |s.zones[z].hhAgents| + 1
  {
    var r := AddResident(s, z, name, a);
    assert name !in s.zones[z].hhAgents;
    forall y, b | y in r.zones && b in r.zones[y].hhAgents
      ensures b in r.agents && r.agents[b].location == At(y)
    {
      if b != name {
        assert b in s.zones[y].hhAgents;
      }
    }
  }

  /** Moves a located household from the zone its location names to zone
      `z`, updating both memberships and its location. */
  function MoveResident(s: Landscape, name: string, z: string): (r: Landscape)
    requires name in s.agents && s.agents[name].location.At?
    requires s.agents[name].location.zone in s.zones && z in s.zones
  {
    var from := s.agents[name].location.zone;
    var zones1 := s.zones[from := s.zones[from].(hhAgents := Del(s.zones[from].hhAgents, name))];
    s.(zones := zones1[z := zones1[z].(hhAgents := Put(zones1[z].hhAgents, name))],
       agents := s.agents[name := s.agents[name].(location := At(z))])
  }

  /** A move keeps locations and memberships in agreement. */
  lemma MoveResidentConsistent(s: Landscape, name: string, z: string)
    requires MembersKnown(s) && Consistent(s)
    requires name in s.agents && s.agents[name].location.At? && z in s.zones
    ensures s.agents[name].location.zone in s.zones
    ensures MembersKnown(MoveResident(s, name, z)) && Consistent(MoveResident(s, name, z))
  {
    MoveResidentKnown(s, name, z);
    MoveResidentLocated(s, name, z);
  }

  lemma MoveResidentKnown(s: Landscape, name: string, z: string)
    requires MembersKnown(s) && Consistent(s)
    requires name in s.agents && s.agents[name].location.At? && z in s.zones
    ensures s.agents[name].location.zone in s.zones
    ensures MembersKnown(MoveResident(s, name, z))
  {
  }

  lemma MoveResidentLocated(s: Landscape, name: string, z: string)
    requires MembersKnown(s) && Consistent(s)
    requires name in s.agents && s.agents[name].location.At? && z in s.zones
    ensures s.agents[name].location.zone in s.zones
    ensures ResidentsLocated(MoveResident(s, name, z))
  {
    var r := MoveResident(s, name, z);
    forall y, b | y in r.zones && b in r.zones[y].hhAgents
      ensures b in r.agents && r.agents[b].location == At(y)
    {
      if b != name {
        assert b in s.zones[y].hhAgents;
      }
    }
  }

  /** A move leaves the mover living in `z` only and changes no other
      agent. */
  lemma MoveResidentPlaces(s: Landscape, name: string, z: string)
    requires MembersKnown(s) && Consistent(s)
    requires name in s.agents && s.agents[name].location.At? && z in s.zones
    ensures s.agents[name].location.zone in s.zones
    ensures MoveResident(s, name, z).agents[name].location == At(z)
    ensures name in MoveResident(s, name, z).zones[z].hhAgents
    ensures forall y :: y in s.zones && y != z ==> name !in MoveResident(s, name, z).zones[y].hhAgents
    ensures forall b :: b in s.agents && b != name ==> MoveResident(s, name, z).agents[b] == s.agents[b]
    ensures MoveResident(s, name, z).agents.Keys == s.agents.Keys
    ensures MoveResident(s, name, z).zones.Keys == s.zones.Keys
  {
    MoveResidentLeaves(s, name, z);
  }

  lemma MoveResidentLeaves(s: Landscape, name: string, z: string)
    requires MembersKnown(s) && Consistent(s)
    requires name in s.agents && s.agents[name].location.At? && z in s.zones
    ensures s.agents[name].location.zone in s.zones
    ensures forall y :: y in s.zones && y != z ==> name !in MoveResident(s, name, z).zones[y].hhAgents
  {
    var from := s.agents[name].location.zone;
    var r := MoveResident(s, name, z);
    forall y | y in s.zones && y != z
      ensures name !in r.zones[y].hhAgents
    {
      if y != from {
        assert name !in s.zones[y].hhAgents;
      }
    }
  }

  /** The number of residents over the zones in node order. */
  function Residents(z: Zone): int {
    |z.hhAgents|
  }

  // ---------------------------------------------------------------------
  // ABMLandscape.setup and BlockGroup.setup
  // ---------------------------------------------------------------------

  /** The number of people the listed agents stand for. */
  function MembersWeight(agents: map<string, Agent>, members: seq<string>): int
    requires forall a :: a in members ==> a in agents
  {
    if |members| == 0 then 0
    else MembersWeight(agents, members[..|members| - 1]) + Weight(agents[members[|members| - 1]])
  }

  /** The sum of a field over the zones in node order. */
  function SumOver(nodes: seq<string>, zones: map<string, Zone>, f: Zone -> int): int
    requires forall n :: n in nodes ==> n in zones
  {
    if |nodes| == 0 then 0
    else SumOver(nodes[..|nodes| - 1], zones, f) + f(zones[nodes[|nodes| - 1]])
  }

  function Population(z: Zone): int {
    z.population
  }

  /** Replacing one zone changes a sum over distinct nodes by that zone's
      difference when it is listed, and not at all otherwise. */
  lemma {:induction false} SumOverUpdate(nodes: seq<string>, zones: map<string, Zone>, f: Zone -> int,
                                         z: string, nz: Zone)
    requires Distinct(nodes) && z in zones
    requires forall n :: n in nodes ==> n in zones
    ensures SumOver(nodes, zones[z := nz], f) ==
      SumOver(nodes, zones, f) + (if z in nodes then f(nz) - f(zones[z]) else 0)
    decreases |nodes|
  {
    if |nodes| > 0 {
      var front := nodes[..|nodes| - 1];
      var last := nodes[|nodes| - 1];
      assert nodes == front + [last];
      assert Distinct(front);
      assert z in nodes <==> z in front || z == last;
      assert z == last ==> z !in front;
      SumOverUpdate(front, zones, f, z, nz);
    }
  }

  /** The number of memberships over all zones. */
  function TotalResidents(s: Landscape): int
    requires NodesMatch(s)
  {
    SumOver(s.nodes, s.zones, Residents)
  }

  /** Registering a new household in a zone adds one membership in all. */
  lemma AddResidentTotal(s: Landscape, z: string, name: string, a: Agent)
    requires NodesMatch(s) && MembersKnown(s)
    requires z in s.zones && name !in s.agents
    ensures NodesMatch(AddResident(s, z, name, a))
    ensures TotalResidents(AddResident(s, z, name, a)) == TotalResidents(s) + 1
  {
    assert name !in s.zones[z].hhAgents;
    SumOverUpdate(s.nodes, s.zones, Residents, z, s.zones[z].(hhAgents := Put(s.zones[z].hhAgents, name)));
  }

  /** A move takes one membership away and adds one, so the total stays. */
  lemma MoveResidentTotal(s: Landscape, name: string, z: string)
    requires NodesMatch(s) && MembersKnown(s) && Consistent(s)
    requires name in s.agents && s.agents[name].location.At? && z in s.zones
    ensures s.agents[name].location.zone in s.zones
    ensures NodesMatch(MoveResident(s, name, z))
    ensures TotalResidents(MoveResident(s, name, z)) == TotalResidents(s)
  {
    var from := s.agents[name].location.zone;
    var hf := s.zones[from].hhAgents;
    var zones1 := s.zones[from := s.zones[from].(hhAgents := Del(hf, name))];
    assert name in hf;
    SumOverUpdate(s.nodes, s.zones, Residents, from, zones1[from]);
    if z != from {
      assert name !in s.zones[z].hhAgents;
    }
    SumOverUpdate(s.nodes, zones1, Residents, z, zones1[z].(hhAgents := Put(zones1[z].hhAgents, name)));
  }

  /** `ABMLandscape.setup`: each zone's population becomes the people its
      residents stand for, and the total population their sum over the
      nodes. */
  function LandscapeSetup(s: Landscape): (r: Landscape)
    requires NodesMatch(s) && MembersKnown(s)
    ensures r.zones.Keys == s.zones.Keys
    ensures forall z :: z in r.zones ==>
      r.zones[z] == s.zones[z].(population := MembersWeight(s.agents, s.zones[z].hhAgents))
    ensures r.totalPopulation == SumOver(s.nodes, r.zones, Population)
    ensures r.(zones := s.zones, totalPopulation := s.totalPopulation) == s
    ensures NodesMatch(r) && MembersKnown(r)
  {
    var zones := map z | z in s.zones :: s.zones[z].(population := MembersWeight(s.agents, s.zones[z].hhAgents));
    var total := TotalOver(s, s.nodes);
    SetupTotal(s, zones, s.nodes);
    s.(zones := zones, totalPopulation := total)
  }

  /** The loop of `setup` over a prefix of the nodes. */
  function TotalOver(s: Landscape, nodes: seq<string>): int
    requires MembersKnown(s)
    requires forall n :: n in nodes ==> n in s.zones
  {
    if |nodes| == 0 then 0
    else
      var n := nodes[|nodes| - 1];
      TotalOver(s, nodes[..|nodes| - 1]) + MembersWeight(s.agents, s.zones[n].hhAgents)
  }

  lemma {:induction false} SetupTotal(s: Landscape, zones: map<string, Zone>, nodes: seq<string>)
    requires MembersKnown(s)
    requires forall n :: n in nodes ==> n in s.zones && n in zones
    requires forall z :: z in zones && z in s.zones ==>
      zones[z].population == MembersWeight(s.agents, s.zones[z].hhAgents)
    ensures TotalOver(s, nodes) == SumOver(nodes, zones, Population)
  {
    if |nodes| > 0 {
      SetupTotal(s, zones, nodes[..|nodes| - 1]);
    }
  }

  /** After `setup`, a zone nobody lives in has population 0, whatever its
      census count was. */
  lemma EmptyZoneHasNoPopulation(s: Landscape, z: string)
    requires NodesMatch(s) && MembersKnown(s)
    requires z in s.zones && s.zones[z].hhAgents == []
    ensures LandscapeSetup(s).zones[z].population == 0
  {
  }

  /** Setup is idempotent: a second run finds the same populations. */
  lemma SetupIdempotent(s: Landscape)
    requires NodesMatch(s) && MembersKnown(s)
    ensures LandscapeSetup(LandscapeSetup(s)) == LandscapeSetup(s)
  {
    var r := LandscapeSetup(s);
    assert LandscapeSetup(r).zones == r.zones;
  }

  /** `BlockGroup.setup`: population density, people per unit of land area;
      Python raises ZeroDivisionError for a zone without area. */
  function BlockGroupSetup(z: Zone): (r: Result<Zone>)
    ensures r.Err? <==> z.area == 0.0
    ensures r.Ok? ==> r.value.popDensity * z.area == z.population as real
    ensures r.Ok? ==> r.value.(popDensity := z.popDensity) == z
  {
    if z.area == 0.0 then Err(ZeroDivisionError)
    else Ok(z.(popDensity := z.population as real / z.area))
  }
}
