/** The two legacy placement engines, `AgentLocation.run` and
    `NewAgentLocation.run_old_version`. Both place the year's new households
    directly in randomly chosen zones and then move a tenth of all
    registered households to randomly chosen zones; they differ only in the
    zones they choose from: every node, or only the nodes that admit
    development. */
module Legacy {
  import opened PyOps
  import opened Dicts
  import opened Results
  import opened Records
  import opened Sampling
  import opened Creation

  /** The listed zones whose zoning is `'allowed'`, in list order. */
  function AllowedAmong(nodes: seq<string>, zones: map<string, Zone>): (r: seq<string>)
    requires forall n :: n in nodes ==> n in zones
    ensures forall z :: z in r <==> z in nodes && zones[z].zoning == Allowed
    decreases |nodes|
  {
    if |nodes| == 0 then []
    else
      var rest := AllowedAmong(nodes[1..], zones);
      assert forall z :: z in nodes <==> z == nodes[0] || z in nodes[1..];
      if zones[nodes[0]].zoning == Allowed then [nodes[0]] + rest else rest
  }

  /** `bg_dev_allowed`: the nodes that admit development. */
  function AllowedZones(s: Landscape): (r: seq<string>)
    requires NodesMatch(s)
    ensures forall z :: z in r <==> z in s.zones && s.zones[z].zoning == Allowed
  {
    AllowedAmong(s.nodes, s.zones)
  }

  // ---------------------------------------------------------------------
  // Placing the new households
  // ---------------------------------------------------------------------

  /** Registers each name as `proto` living in a zone chosen from `pool`
      (`random.choice`, drawn under the name), in order. Choosing from an
      empty pool fails. */
  function Place(s: Landscape, pool: seq<string>, names: seq<string>, proto: Agent, place: Chooser)
    : (r: Result<Landscape>)
    requires ChooserOk(place)
    requires forall z :: z in pool ==> z in s.zones
    ensures r.Err? <==> |pool| == 0 && |names| > 0
    ensures r.Ok? ==> r.value.zones.Keys == s.zones.Keys
    decreases |names|
  {
    if |names| == 0 then Ok(s)
    else if |pool| == 0 then Err(ChoiceFromEmpty)
    else
      var z := pool[place(names[0], |pool|)];
      Place(AddResident(s, z, names[0], proto.(location := At(z))), pool, names[1..], proto, place)
  }

  /** One placement: the first name is registered in a zone of the pool. */
  lemma PlaceStep(s: Landscape, pool: seq<string>, names: seq<string>, proto: Agent, place: Chooser)
    returns (z: string, s1: Landscape)
    requires ChooserOk(place) && |pool| > 0 && |names| > 0
    requires forall z :: z in pool ==> z in s.zones
    ensures z in pool && z in s.zones
    ensures s1 == AddResident(s, z, names[0], proto.(location := At(z)))
    ensures Place(s, pool, names, proto, place) == Place(s1, pool, names[1..], proto, place)
  {
    z := pool[place(names[0], |pool|)];
    s1 := AddResident(s, z, names[0], proto.(location := At(z)));
  }

  /** Placing new, distinct households keeps the landscape consistent and
      adds one membership per household. */
  lemma {:induction false} PlaceWellFormed(s: Landscape, pool: seq<string>, names: seq<string>, proto: Agent,
                                           place: Chooser)
    requires ChooserOk(place) && |pool| > 0
    requires forall z :: z in pool ==> z in s.zones
    requires NodesMatch(s) && MembersKnown(s) && Consistent(s)
    requires Distinct(names) && forall b :: b in names ==> b !in s.agents
    ensures var r := Place(s, pool, names, proto, place).value;
      && NodesMatch(r) && MembersKnown(r) && Consistent(r)
      && TotalResidents(r) == TotalResidents(s) + |names|
    decreases |names|
  {
    if |names| > 0 {
      var z, s1 := PlaceStep(s, pool, names, proto, place);
      AddResidentConsistent(s, z, names[0], proto.(location := At(z)));
      AddResidentTotal(s, z, names[0], proto.(location := At(z)));
      DistinctTail(names);
      PlaceWellFormed(s1, pool, names[1..], proto, place);
    }
  }

  /** The placed households are registered as `proto` living in a zone of
      the pool; every household registered before, the queues and all but
      the memberships are unchanged. */
  lemma {:induction false} PlaceAgents(s: Landscape, pool: seq<string>, names: seq<string>, proto: Agent,
                                       place: Chooser, b: string)
    requires ChooserOk(place) && |pool| > 0
    requires forall z :: z in pool ==> z in s.zones
    requires Distinct(names) && forall c :: c in names ==> c !in s.agents
    ensures var r := Place(s, pool, names, proto, place).value;
      && (b in r.agents <==> b in s.agents || b in names)
      && (b in s.agents ==> r.agents[b] == s.agents[b])
      && (b in names ==> r.agents[b].location.At? && r.agents[b].location.zone in pool
                         && r.agents[b].(location := proto.location) == proto)
      && r.(zones := s.zones, agents := s.agents) == s
    decreases |names|
  {
    if |names| > 0 {
      var z, s1 := PlaceStep(s, pool, names, proto, place);
      DistinctTail(names);
      PlaceAgents(s1, pool, names[1..], proto, place, b);
      assert b in names <==> b == names[0] || b in names[1..];
    }
  }

  // ---------------------------------------------------------------------
  // Moving a tenth of the households
  // ---------------------------------------------------------------------

  /** Moves each listed household, in order, from the zone its location
      names to a zone chosen from `pool` (drawn under its name). A household
      whose location names no zone, or that is not a member of that zone,
      makes the run fail, as `get_node` and `del` do. */
  function MoveAll(s: Landscape, pool: seq<string>, movers: seq<string>, move: Chooser): (r: Result<Landscape>)
    requires ChooserOk(move)
    requires forall z :: z in pool ==> z in s.zones
    ensures r.Ok? ==> r.value.zones.Keys == s.zones.Keys
    decreases |movers|
  {
    if |movers| == 0 then Ok(s)
    else
      var a := movers[0];
      if a !in s.agents then Err(KeyError(a))
      else if !s.agents[a].location.At? || s.agents[a].location.zone !in s.zones then Err(NoZoneLocation(a))
      else if |pool| == 0 then Err(ChoiceFromEmpty)
      else if a !in s.zones[s.agents[a].location.zone].hhAgents then Err(KeyError(a))
      else MoveAll(MoveResident(s, a, pool[move(a, |pool|)]), pool, movers[1..], move)
  }

  /** One move: under a consistent landscape the first mover, if it lives
      in a zone, moves to a zone of the pool. */
  lemma MoveStep(s: Landscape, pool: seq<string>, movers: seq<string>, move: Chooser)
    returns (z: string, s1: Landscape)
    requires ChooserOk(move) && |pool| > 0 && |movers| > 0
    requires forall z :: z in pool ==> z in s.zones
    requires MembersKnown(s) && Consistent(s)
    requires movers[0] in s.agents && s.agents[movers[0]].location.At?
    ensures z in pool && z in s.zones
    ensures s1 == MoveResident(s, movers[0], z)
    ensures MoveAll(s, pool, movers, move) == MoveAll(s1, pool, movers[1..], move)
  {
    z := pool[move(movers[0], |pool|)];
    s1 := MoveResident(s, movers[0], z);
  }

  /** Moves keep the landscape consistent and the number of memberships. */
  lemma {:induction false} MoveAllWellFormed(s: Landscape, pool: seq<string>, movers: seq<string>, move: Chooser)
    requires ChooserOk(move)
    requires forall z :: z in pool ==> z in s.zones
    requires NodesMatch(s) && MembersKnown(s) && Consistent(s)
    requires MoveAll(s, pool, movers, move).Ok?
    ensures var r := MoveAll(s, pool, movers, move).value;
      && NodesMatch(r) && MembersKnown(r) && Consistent(r)
      && TotalResidents(r) == TotalResidents(s)
    decreases |movers|
  {
    if |movers| > 0 {
      var z, s1 := MoveStep(s, pool, movers, move);
      MoveResidentConsistent(s, movers[0], z);
      MoveResidentPlaces(s, movers[0], z);
      MoveResidentTotal(s, movers[0], z);
      MoveAllWellFormed(s1, pool, movers[1..], move);
    }
  }

  /** Each of the distinct movers ends up living in a zone of the pool with
      its other fields unchanged; no other household changes, and neither do
      the queues, the unit list or anything but memberships and locations. */
  lemma {:induction false} MoveAllAgents(s: Landscape, pool: seq<string>, movers: seq<string>, move: Chooser,
                                         b: string)
    requires ChooserOk(move)
    requires forall z :: z in pool ==> z in s.zones
    requires MembersKnown(s) && Consistent(s) && Distinct(movers)
    requires MoveAll(s, pool, movers, move).Ok?
    ensures var r := MoveAll(s, pool, movers, move).value;
      && r.agents.Keys == s.agents.Keys
      && (b in s.agents && b !in movers ==> r.agents[b] == s.agents[b])
      && (b in movers ==> b in s.agents && r.agents[b].location.At? && r.agents[b].location.zone in pool
                          && r.agents[b].(location := s.agents[b].location) == s.agents[b])
      && r.(zones := s.zones, agents := s.agents) == s
    decreases |movers|
  {
    if |movers| > 0 {
      var z, s1 := MoveStep(s, pool, movers, move);
      MoveResidentConsistent(s, movers[0], z);
      MoveResidentPlaces(s, movers[0], z);
      DistinctTail(movers);
      MoveAllAgents(s1, pool, movers[1..], move, b);
      assert b in movers <==> b == movers[0] || b in movers[1..];
    }
  }

  /** Every household that lives in a zone of a consistent landscape can be
      moved: the moves fail only on a household without a home. */
  lemma {:induction false} MoveAllSucceeds(s: Landscape, pool: seq<string>, movers: seq<string>, move: Chooser)
    requires ChooserOk(move) && |pool| > 0
    requires forall z :: z in pool ==> z in s.zones
    requires MembersKnown(s) && Consistent(s) && Distinct(movers)
    requires forall a :: a in movers ==> a in s.agents && s.agents[a].location.At?
    ensures MoveAll(s, pool, movers, move).Ok?
    decreases |movers|
  {
    if |movers| > 0 {
      var z, s1 := MoveStep(s, pool, movers, move);
      MoveResidentConsistent(s, movers[0], z);
      MoveResidentPlaces(s, movers[0], z);
      DistinctTail(movers);
      MoveAllSucceeds(s1, pool, movers[1..], move);
    }
  }

  // ---------------------------------------------------------------------
  // The engines
  // ---------------------------------------------------------------------

  /** `int(n * .10)`: the product of a count with the float 0.1 never falls
      below the next lower multiple of a tenth, so its truncation is the
      count divided by ten, rounded down. */
  function MoverShare(registered: nat): nat {
    registered / 10
  }

  /** The placement-and-move step both legacy engines run, with the zones
      to choose from as `pool`. A zero aggregation size divides by zero. */
  function LegacyLocation(s: Landscape, pool: seq<string>, popGrowth: real, year: int, k: int, hhSize: int,
                          place: Chooser, pick: Picker, move: Chooser): (r: Result<Landscape>)
    requires ChooserOk(place) && ChooserOk(move) && PickerOk(pick)
    requires forall z :: z in pool ==> z in s.zones
    ensures k == 0 ==> r == Err(ZeroDivisionError)
  {
    if k == 0 then Err(ZeroDivisionError)
    else
      var names := CreatedNames(year, NewAgentCount(s.totalPopulation, popGrowth, k));
      match Place(s, pool, names, NewHHAgent(Unplaced, k, hhSize, year), place)
      case Err(e) => Err(e)
      case Ok(s1) => MoveAll(s1, pool, pick(s1.agents.Keys, MoverShare(|s1.agents|)), move)
  }

  /** `AgentLocation.run`: chooses among all nodes. */
  function AgentLocation(s: Landscape, popGrowth: real, year: int, place: Chooser, pick: Picker, move: Chooser,
                         k: int := 100, hhSize: int := 4): (r: Result<Landscape>)
    requires ChooserOk(place) && ChooserOk(move) && PickerOk(pick) && NodesMatch(s)
    ensures k == 0 ==> r == Err(ZeroDivisionError)
  {
    LegacyLocation(s, s.nodes, popGrowth, year, k, hhSize, place, pick, move)
  }

  /** `NewAgentLocation.run_old_version`: chooses among the nodes that admit
      development. The growth rate, aggregation size and household size it
      reads are parameters here. */
  function NewAgentLocationOld(s: Landscape, popGrowth: real, year: int, k: int, hhSize: int,
                               place: Chooser, pick: Picker, move: Chooser): (r: Result<Landscape>)
    requires ChooserOk(place) && ChooserOk(move) && PickerOk(pick) && NodesMatch(s)
    ensures k == 0 ==> r == Err(ZeroDivisionError)
  {
    LegacyLocation(s, AllowedZones(s), popGrowth, year, k, hhSize, place, pick, move)
  }

  /** Placing new, distinct households grows the registry by their number. */
  lemma PlaceCount(s: Landscape, pool: seq<string>, names: seq<string>, proto: Agent, place: Chooser)
    requires ChooserOk(place) && |pool| > 0
    requires forall z :: z in pool ==> z in s.zones
    requires Distinct(names) && forall b :: b in names ==> b !in s.agents
    ensures |Place(s, pool, names, proto, place).value.agents| == |s.agents| + |names|
  {
    PlaceKeys(s, pool, names, proto, place);
    DistinctCard(names);
  }

  lemma PlaceKeys(s: Landscape, pool: seq<string>, names: seq<string>, proto: Agent, place: Chooser)
    requires ChooserOk(place) && |pool| > 0
    requires forall z :: z in pool ==> z in s.zones
    requires Distinct(names) && forall b :: b in names ==> b !in s.agents
    ensures Place(s, pool, names, proto, place).value.agents.Keys == s.agents.Keys + set b | b in names
  {
    var s1 := Place(s, pool, names, proto, place).value;
    forall b
      ensures b in s1.agents <==> b in s.agents || b in names
    {
      PlaceAgents(s, pool, names, proto, place, b);
    }
  }

  /** The states between the two phases: the landscape after placement and
      the households picked to move, a tenth of all registered households,
      the new ones included. */
  lemma LegacyStep(s: Landscape, pool: seq<string>, popGrowth: real, year: int, k: int, hhSize: int,
                   place: Chooser, pick: Picker, move: Chooser) returns (names: seq<string>, s1: Landscape, movers: seq<string>)
    requires ChooserOk(place) && ChooserOk(move) && PickerOk(pick)
    requires forall z :: z in pool ==> z in s.zones
    requires k != 0 && |pool| > 0
    requires forall c: nat :: CreatedName(year, c) !in s.agents
    ensures names == CreatedNames(year, NewAgentCount(s.totalPopulation, popGrowth, k))
    ensures Distinct(names) && forall b :: b in names ==> b !in s.agents
    ensures s1 == Place(s, pool, names, NewHHAgent(Unplaced, k, hhSize, year), place).value
    ensures movers == pick(s1.agents.Keys, MoverShare(|s1.agents|))
    ensures |movers| == MoverShare(|s.agents| + |names|) && Distinct(movers)
    ensures forall a :: a in movers ==> a in s1.agents
    ensures LegacyLocation(s, pool, popGrowth, year, k, hhSize, place, pick, move) == MoveAll(s1, pool, movers, move)
  {
    names := CreatedNames(year, NewAgentCount(s.totalPopulation, popGrowth, k));
    CreatedNamesDistinct(year, |names|);
    s1 := Place(s, pool, names, NewHHAgent(Unplaced, k, hhSize, year), place).value;
    movers := pick(s1.agents.Keys, MoverShare(|s1.agents|));
    PlaceCount(s, pool, names, NewHHAgent(Unplaced, k, hhSize, year), place);
    assert |s1.agents.Keys| == |s1.agents|;
  }

  /** When every registered household lives in a zone and none of the
      year's names is taken, the legacy step succeeds on a non-empty pool,
      keeps the landscape consistent and adds exactly one membership per
      new household. */
  lemma LegacyLocationWellFormed(s: Landscape, pool: seq<string>, popGrowth: real, year: int, k: int, hhSize: int,
                                 place: Chooser, pick: Picker, move: Chooser)
    requires ChooserOk(place) && ChooserOk(move) && PickerOk(pick)
    requires forall z :: z in pool ==> z in s.zones
    requires k != 0 && |pool| > 0
    requires forall c: nat :: CreatedName(year, c) !in s.agents
    requires NodesMatch(s) && MembersKnown(s) && Consistent(s)
    requires forall a :: a in s.agents ==> s.agents[a].location.At?
    ensures var r := LegacyLocation(s, pool, popGrowth, year, k, hhSize, place, pick, move);
      && r.Ok?
      && NodesMatch(r.value) && MembersKnown(r.value) && Consistent(r.value)
      && TotalResidents(r.value) == TotalResidents(s) + NewAgentCount(s.totalPopulation, popGrowth, k)
  {
    var names, s1, movers := LegacyStep(s, pool, popGrowth, year, k, hhSize, place, pick, move);
    var proto := NewHHAgent(Unplaced, k, hhSize, year);
    PlaceWellFormed(s, pool, names, proto, place);
    forall a | a in movers
      ensures a in s1.agents && s1.agents[a].location.At?
    {
      PlaceAgents(s, pool, names, proto, place, a);
    }
    MoveAllSucceeds(s1, pool, movers, move);
    MoveAllWellFormed(s1, pool, movers, move);
  }

  /** Every household the step creates or changes lives in a zone of the
      pool afterwards; the others, and the queues, are untouched. */
  lemma LegacyLocationDestinations(s: Landscape, pool: seq<string>, popGrowth: real, year: int, k: int,
                                   hhSize: int, place: Chooser, pick: Picker, move: Chooser, b: string)
    requires ChooserOk(place) && ChooserOk(move) && PickerOk(pick)
    requires forall z :: z in pool ==> z in s.zones
    requires k != 0 && |pool| > 0
    requires forall c: nat :: CreatedName(year, c) !in s.agents
    requires MembersKnown(s) && Consistent(s)
    requires LegacyLocation(s, pool, popGrowth, year, k, hhSize, place, pick, move).Ok?
    ensures var r := LegacyLocation(s, pool, popGrowth, year, k, hhSize, place, pick, move).value;
      && (b in r.agents && (b !in s.agents || r.agents[b] != s.agents[b]) ==>
            r.agents[b].location.At? && r.agents[b].location.zone in pool)
      && r.unassigned == s.unassigned && r.relocating == s.relocating && r.unitList == s.unitList
  {
    var names, s1, movers := LegacyStep(s, pool, popGrowth, year, k, hhSize, place, pick, move);
    var proto := NewHHAgent(Unplaced, k, hhSize, year);
    PlaceAgents(s, pool, names, proto, place, b);
    PlaceConsistent(s, pool, names, proto, place);
    MoveAllAgents(s1, pool, movers, move, b);
  }

  /** Placement alone keeps memberships known and consistent; the node
      list plays no part. */
  lemma {:induction false} PlaceConsistent(s: Landscape, pool: seq<string>, names: seq<string>, proto: Agent,
                                           place: Chooser)
    requires ChooserOk(place) && |pool| > 0
    requires forall z :: z in pool ==> z in s.zones
    requires MembersKnown(s) && Consistent(s)
    requires Distinct(names) && forall b :: b in names ==> b !in s.agents
    ensures var r := Place(s, pool, names, proto, place).value;
      MembersKnown(r) && Consistent(r)
    decreases |names|
  {
    if |names| > 0 {
      var z, s1 := PlaceStep(s, pool, names, proto, place);
      AddResidentConsistent(s, z, names[0], proto.(location := At(z)));
      DistinctTail(names);
      PlaceConsistent(s1, pool, names[1..], proto, place);
    }
  }

  /** `run_old_version` only ever places or moves households into zones
      that admit development. */
  lemma NewAgentLocationOldAllowed(s: Landscape, popGrowth: real, year: int, k: int, hhSize: int,
                                   place: Chooser, pick: Picker, move: Chooser, b: string)
    requires ChooserOk(place) && ChooserOk(move) && PickerOk(pick) && NodesMatch(s)
    requires k != 0 && |AllowedZones(s)| > 0
    requires forall c: nat :: CreatedName(year, c) !in s.agents
    requires MembersKnown(s) && Consistent(s)
    requires NewAgentLocationOld(s, popGrowth, year, k, hhSize, place, pick, move).Ok?
    ensures var r := NewAgentLocationOld(s, popGrowth, year, k, hhSize, place, pick, move).value;
      b in r.agents && (b !in s.agents || r.agents[b] != s.agents[b]) ==>
        r.agents[b].location.At? && r.agents[b].location.zone in s.zones
        && s.zones[r.agents[b].location.zone].zoning == Allowed
  {
    LegacyLocationDestinations(s, AllowedZones(s), popGrowth, year, k, hhSize, place, pick, move, b);
  }
}
