/** The construction and price feedback: `BuildingDevelopment.run` adds
    units where demand exceeded supply, and `HousingPricing.run` raises or
    lowers each zone's price. The `demand_exceeds_supply` flags are inputs:
    no engine modelled here sets them. Decimal constants are exact reals. */
module Feedback {
  import opened PyOps
  import opened Dicts
  import opened Results
  import opened Records
  import opened Sweep

  // ---------------------------------------------------------------------
  // BuildingDevelopment.run
  // ---------------------------------------------------------------------

  /** The table's `new_units_constructed` for one row: none unless demand
      exceeded supply, else 5% of the occupied units, rounded half to even.
      The engine's `stock_increase_perc` argument plays no part. */
  function NewUnits(row: Row): int {
    if !row.demandExceedsSupply then 0 else RoundHalfEven(row.occupiedUnits as real * 0.05)
  }

  /** Rows without excess demand get no units; the others get the nearest
      whole number to 5% of their occupied units, which for a non-negative
      count lies between none and all of them. */
  lemma NewUnitsFacts(row: Row)
    ensures !row.demandExceedsSupply ==> NewUnits(row) == 0
    ensures row.demandExceedsSupply ==> NearestHalfEven(row.occupiedUnits as real * 0.05, NewUnits(row))
    ensures row.occupiedUnits >= 0 ==> 0 <= NewUnits(row) <= row.occupiedUnits
  {
    if row.demandExceedsSupply && row.occupiedUnits >= 0 {
      ShareWithin(0.05, row.occupiedUnits as real);
      RoundWithin(row.occupiedUnits as real * 0.05, 0, row.occupiedUnits);
    }
  }

  /** The column assignment: every row of the table, listed zone or not,
      gets its new unit count. */
  function ConstructionTable(table: map<string, Row>): (r: map<string, Row>)
    ensures r.Keys == table.Keys
    ensures forall g :: g in table ==> r[g] == table[g].(newUnitsConstructed := NewUnits(table[g]))
  {
    map g | g in table :: table[g].(newUnitsConstructed := NewUnits(table[g]))
  }

  /** One zone takes its row's new units and adds them to its free units. */
  function Develop(table: map<string, Row>): (string, Zone) -> Zone {
    (n: string, z: Zone) =>
      var u := if n in table then table[n].newUnitsConstructed else 0;
      z.(newUnitsConstructed := u, availableUnits := z.availableUnits + u)
  }

  /** The first node, in node order, that has no row in the table. */
  function FirstMissing(nodes: seq<string>, table: map<string, Row>): (r: Option<string>)
    ensures r.None? <==> forall n :: n in nodes ==> n in table
    ensures r.Some? ==> r.value in nodes && r.value !in table
    decreases |nodes|
  {
    if |nodes| == 0 then None
    else if nodes[0] !in table then Some(nodes[0])
    else FirstMissing(nodes[1..], table)
  }

  /** `BuildingDevelopment.run`. Reading a zone's row with `.values[0]`
      fails at the first zone the table has no row for. */
  function BuildingDevelopment(s: Landscape): (r: Result<Landscape>)
    requires forall n :: n in s.nodes ==> n in s.zones
    ensures r.Err? <==> exists n :: n in s.nodes && n !in s.table
    ensures r.Ok? ==> r.value.(zones := s.zones, table := s.table) == s
  {
    match FirstMissing(s.nodes, s.table)
    case Some(n) => Err(MissingRow(n))
    case None =>
      var table := ConstructionTable(s.table);
      Ok(s.(table := table, zones := ForEachNode(s.zones, s.nodes, Develop(table))))
  }

  /** A listed zone records its row's new units and gains exactly that many
      free units; its occupied units and every other field stay, so
      occupied plus free units grow by the new units. Free units never
      fall when the occupied count is not negative. Unlisted zones are
      unchanged. */
  lemma BuildingDevelopmentFacts(s: Landscape, z: string)
    requires NodesMatch(s) && z in s.zones
    requires forall n :: n in s.nodes ==> n in s.table
    ensures var r := BuildingDevelopment(s);
      var u := NewUnits(s.table[z]);
      && r.Ok?
      && r.value.zones[z].newUnitsConstructed == u
      && r.value.zones[z].availableUnits == s.zones[z].availableUnits + u
      && r.value.zones[z].occupiedUnits + r.value.zones[z].availableUnits
         == s.zones[z].occupiedUnits + s.zones[z].availableUnits + u
      && r.value.zones[z].(newUnitsConstructed := s.zones[z].newUnitsConstructed,
                           availableUnits := s.zones[z].availableUnits) == s.zones[z]
      && (s.table[z].occupiedUnits >= 0 ==> r.value.zones[z].availableUnits >= s.zones[z].availableUnits)
      && (!s.table[z].demandExceedsSupply ==> r.value.zones[z].availableUnits == s.zones[z].availableUnits)
  {
    var table := ConstructionTable(s.table);
    ForEachNodeAt(s.zones, s.nodes, Develop(table), z);
    NewUnitsFacts(s.table[z]);
  }

  /** Every row of the table, listed or not, holds its new unit count and
      is otherwise unchanged. */
  lemma BuildingDevelopmentTable(s: Landscape, g: string)
    requires forall n :: n in s.nodes ==> n in s.zones
    requires forall n :: n in s.nodes ==> n in s.table
    requires g in s.table
    ensures var r := BuildingDevelopment(s);
      && r.Ok?
      && r.value.table.Keys == s.table.Keys
      && r.value.table[g].newUnitsConstructed == NewUnits(s.table[g])
      && r.value.table[g].(newUnitsConstructed := s.table[g].newUnitsConstructed) == s.table[g]
  {
  }

  // ---------------------------------------------------------------------
  // HousingPricing.run
  // ---------------------------------------------------------------------

  /** Whether the falling-price rule applies to a zone: from timestep index
      5 on, for a zone none of whose recorded flags is true (`any` of an
      empty history is false). */
  predicate PriceFalls(z: Zone, timestepIdx: int) {
    timestepIdx >= 5 && true !in z.demandHistory
  }

  /** The zone's price after the two rules, applied in order: up by the
      rate if demand exceeds supply now, then down by it if it never did.
      Both can apply. */
  function Reprice(z: Zone, pricePerc: real, timestepIdx: int): (r: Zone)
    ensures r.(newPrice := z.newPrice) == z
  {
    var up := if z.demandExceedsSupply then z.newPrice * (1.0 + pricePerc) else z.newPrice;
    z.(newPrice := if PriceFalls(z, timestepIdx) then up * (1.0 - pricePerc) else up)
  }

  /** The sweep's update: every zone is repriced the same way. */
  function RepriceAll(pricePerc: real, timestepIdx: int): (string, Zone) -> Zone {
    (_, z) => Reprice(z, pricePerc, timestepIdx)
  }

  /** The table mirrors a zone's price after each rule that fired for it;
      a zone with no row leaves the table as it is (`.loc` selects nothing). */
  function MirrorPrices(table: map<string, Row>, zones: map<string, Zone>, nodes: seq<string>,
                        pricePerc: real, timestepIdx: int): (r: map<string, Row>)
    requires forall n :: n in nodes ==> n in zones
    ensures r.Keys == table.Keys
  {
    map g | g in table ::
      if g in nodes && (zones[g].demandExceedsSupply || PriceFalls(zones[g], timestepIdx))
      then table[g].(newPrice := Reprice(zones[g], pricePerc, timestepIdx).newPrice)
      else table[g]
  }

  /** `HousingPricing.run` at timestep index `timestepIdx` with rate
      `price_increase_perc`; `housing_pricing_mode` plays no part. Each node
      is visited once (the nodes are distinct), so the table's mirror of a
      zone is the zone's final price. */
  function HousingPricing(s: Landscape, pricePerc: real, timestepIdx: int): (r: Landscape)
    requires NodesMatch(s)
    ensures r.(zones := s.zones, table := s.table) == s
    ensures r.zones.Keys == s.zones.Keys && r.table.Keys == s.table.Keys
  {
    s.(zones := ForEachNode(s.zones, s.nodes, RepriceAll(pricePerc, timestepIdx)),
       table := MirrorPrices(s.table, s.zones, s.nodes, pricePerc, timestepIdx))
  }

  /** Each zone is repriced exactly once: the nodes are the zones, each
      listed once. Only the price changes. */
  lemma HousingPricingZone(s: Landscape, pricePerc: real, timestepIdx: int, z: string)
    requires NodesMatch(s) && z in s.zones
    ensures HousingPricing(s, pricePerc, timestepIdx).zones[z] == Reprice(s.zones[z], pricePerc, timestepIdx)
    ensures HousingPricing(s, pricePerc, timestepIdx).zones[z].(newPrice := s.zones[z].newPrice) == s.zones[z]
  {
    ForEachNodeAt(s.zones, s.nodes, RepriceAll(pricePerc, timestepIdx), z);
  }

  /** The rules as the source states them: an oversubscribed zone's price
      is multiplied by `1 + p`; from index 5 on, a zone that was never
      oversubscribed is then multiplied by `1 - p`; before index 5 a zone
      that is not oversubscribed keeps its price. */
  lemma RepriceRules(z: Zone, pricePerc: real, timestepIdx: int)
    ensures var r := Reprice(z, pricePerc, timestepIdx);
      && (z.demandExceedsSupply && !PriceFalls(z, timestepIdx) ==> r.newPrice == z.newPrice * (1.0 + pricePerc))
      && (!z.demandExceedsSupply && PriceFalls(z, timestepIdx) ==> r.newPrice == z.newPrice * (1.0 - pricePerc))
      && (z.demandExceedsSupply && PriceFalls(z, timestepIdx) ==>
            r.newPrice == z.newPrice * (1.0 + pricePerc) * (1.0 - pricePerc))
      && (!z.demandExceedsSupply && timestepIdx < 5 ==> r.newPrice == z.newPrice)
  {
  }

  /** After the run a zone's row carries the zone's new price whenever a
      rule fired for the zone; otherwise, and for rows of no zone, the row
      is unchanged. Only the price column changes. */
  lemma HousingPricingTable(s: Landscape, pricePerc: real, timestepIdx: int, g: string)
    requires NodesMatch(s) && g in s.table
    ensures var r := HousingPricing(s, pricePerc, timestepIdx);
      && r.table[g].(newPrice := s.table[g].newPrice) == s.table[g]
      && (g in s.zones && (s.zones[g].demandExceedsSupply || PriceFalls(s.zones[g], timestepIdx)) ==>
            r.table[g].newPrice == r.zones[g].newPrice)
      && (g !in s.zones || !(s.zones[g].demandExceedsSupply || PriceFalls(s.zones[g], timestepIdx)) ==>
            r.table[g] == s.table[g])
  {
    if g in s.zones {
      ForEachNodeAt(s.zones, s.nodes, RepriceAll(pricePerc, timestepIdx), g);
    }
  }

  /** With a rate between 0 and 1, a zone's price keeps its sign. */
  lemma RepriceKeepsSign(z: Zone, pricePerc: real, timestepIdx: int)
    requires 0.0 <= pricePerc <= 1.0 && z.newPrice >= 0.0
    ensures Reprice(z, pricePerc, timestepIdx).newPrice >= 0.0
  {
    var up := if z.demandExceedsSupply then z.newPrice * (1.0 + pricePerc) else z.newPrice;
    MulNonneg(z.newPrice, 1.0 + pricePerc);
    MulNonneg(up, 1.0 - pricePerc);
  }
}
