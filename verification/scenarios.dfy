/** The year-triggered scenario rules: the county zoning manager closes
    dense zones to development, `Zoning.run` triggers it, and
    `FloodHazard.run` raises every zone's flood risk. Both engines act in
    the year 2020 only. */
module Scenarios {
  import opened Dicts
  import opened Records
  import opened Sweep

  /** The year both scenario engines act in. */
  const ScenarioYear := 2020

  /** The density above which the zoning manager forbids development. */
  const DensityLimit := 0.03

  /** One zone under the zoning rule: above the density limit it becomes
      `'not_allowed'`; otherwise its zoning stays what it was. */
  function CloseIfDense(z: Zone): Zone {
    if z.popDensity > DensityLimit then z.(zoning := NotAllowed) else z
  }

  /** `CountyZoningManager.determine_zoning`, over the zones the institution
      holds (`members`, a subset of the network's zones). */
  function DetermineZoning(s: Landscape, members: seq<string>): (r: Landscape)
    requires forall n :: n in members ==> n in s.zones
    ensures r.(zones := s.zones) == s
    ensures r.zones.Keys == s.zones.Keys
  {
    s.(zones := ForEachNode(s.zones, members, (_, z) => CloseIfDense(z)))
  }

  /** A member zone above the limit is closed; a member at or below it, and
      every zone outside the institution, keeps its zoning, so no zone is
      ever reopened. Only the zoning field changes. */
  lemma DetermineZoningFacts(s: Landscape, members: seq<string>, z: string)
    requires Distinct(members) && forall n :: n in members ==> n in s.zones
    requires z in s.zones
    ensures var r := DetermineZoning(s, members).zones[z];
      && r.(zoning := s.zones[z].zoning) == s.zones[z]
      && (z in members && s.zones[z].popDensity > 0.03 ==> r.zoning == NotAllowed)
      && (z !in members || s.zones[z].popDensity <= 0.03 ==> r.zoning == s.zones[z].zoning)
      && (r.zoning == Allowed ==> s.zones[z].zoning == Allowed)
  {
    ForEachNodeAt(s.zones, members, (_, y) => CloseIfDense(y), z);
  }

  /** Determining the zoning a second time changes nothing. */
  lemma DetermineZoningIdempotent(s: Landscape, members: seq<string>)
    requires Distinct(members) && forall n :: n in members ==> n in s.zones
    ensures DetermineZoning(DetermineZoning(s, members), members) == DetermineZoning(s, members)
  {
    ForEachNodeIdempotent(s.zones, members, (_, z) => CloseIfDense(z));
  }

  /** `Zoning.run` in the year `year`, with the zoning manager holding
      `members`. */
  function ZoningRun(s: Landscape, year: int, members: seq<string>): (r: Landscape)
    requires forall n :: n in members ==> n in s.zones
    ensures r.(zones := s.zones) == s
  {
    if year == ScenarioYear then DetermineZoning(s, members) else s
  }

  /** Outside 2020 the step changes nothing; in 2020 it is the zoning
      decision, and a second run in the same year changes nothing more. */
  lemma ZoningRunFacts(s: Landscape, year: int, members: seq<string>)
    requires Distinct(members) && forall n :: n in members ==> n in s.zones
    ensures year != 2020 ==> ZoningRun(s, year, members) == s
    ensures year == 2020 ==> ZoningRun(s, year, members) == DetermineZoning(s, members)
    ensures ZoningRun(ZoningRun(s, year, members), year, members) == ZoningRun(s, year, members)
  {
    if year == ScenarioYear {
      DetermineZoningIdempotent(s, members);
    }
  }

  /** The flood risk every zone gets in the scenario year. */
  const ScenarioFloodRisk := 100

  /** One zone in the flood scenario. */
  function Flood(z: Zone): Zone {
    z.(floodHazardRisk := ScenarioFloodRisk)
  }

  /** `FloodHazard.run` in the year `year`. */
  function FloodHazard(s: Landscape, year: int): (r: Landscape)
    requires forall n :: n in s.nodes ==> n in s.zones
    ensures r.(zones := s.zones) == s
  {
    if year == ScenarioYear then s.(zones := ForEachNode(s.zones, s.nodes, (_, z) => Flood(z)))
    else s
  }

  /** In 2020 every zone's flood risk becomes 100 and nothing else about it
      changes; in any other year nothing changes. */
  lemma FloodHazardFacts(s: Landscape, year: int, z: string)
    requires NodesMatch(s) && z in s.zones
    ensures year != 2020 ==> FloodHazard(s, year) == s
    ensures FloodHazard(s, year).zones[z].(floodHazardRisk := s.zones[z].floodHazardRisk) == s.zones[z]
    ensures year == 2020 ==> FloodHazard(s, year).zones[z].floodHazardRisk == 100
  {
    ForEachNodeAt(s.zones, s.nodes, (_, y) => Flood(y), z);
  }

  /** Running the flood step twice in a year is running it once. */
  lemma FloodHazardIdempotent(s: Landscape, year: int)
    requires NodesMatch(s)
    ensures FloodHazard(FloodHazard(s, year), year) == FloodHazard(s, year)
  {
    if year == ScenarioYear {
      ForEachNodeIdempotent(s.zones, s.nodes, (_, z) => Flood(z));
    }
  }
}
