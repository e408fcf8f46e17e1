/** `HousingInventory.run` and `run_old`: the unit list, one entry per free
    unit, holding the zone's name. Sampling from it weights each zone by its
    free units. */
module Inventory {
  import opened PyOps
  import opened Dicts
  import opened Results
  import opened Records

  /** How many entries `range(available_units)` appends: none for a count
      below one. */
  function FreeUnits(z: Zone): int {
    if z.availableUnits < 0 then 0 else z.availableUnits
  }

  /** The entries the zones of `nodes` contribute, in node order: each
      zone's name once per free unit. */
  function UnitsOf(zones: map<string, Zone>, nodes: seq<string>): seq<string>
    requires forall n :: n in nodes ==> n in zones
  {
    if |nodes| == 0 then []
    else
      var n := nodes[|nodes| - 1];
      UnitsOf(zones, nodes[..|nodes| - 1]) + Repeat(n, zones[n].availableUnits)
  }

  /** `HousingInventory.run`: appends, zone by zone in node order and one
      unit at a time, the name of every free unit. Only the list changes. */
  method HousingInventory(s: Landscape) returns (r: Landscape)
    requires forall n :: n in s.nodes ==> n in s.zones
    ensures r.(unitList := s.unitList) == s
    ensures r.unitList == s.unitList + UnitsOf(s.zones, s.nodes)
  {
    var list := s.unitList;
    var i := 0;
    while i < |s.nodes|
      invariant 0 <= i <= |s.nodes|
      invariant list == s.unitList + UnitsOf(s.zones, s.nodes[..i])
    {
      var bg := s.nodes[i];
      var before := list;
      var unit := 0;
      while unit < s.zones[bg].availableUnits
        invariant 0 <= unit <= FreeUnits(s.zones[bg])
        invariant list == before + Repeat(bg, unit)
      {
        list := list + [bg];
        RepeatSnoc(bg, unit);
        unit := unit + 1;
      }
      assert unit == FreeUnits(s.zones[bg]);
      assert s.nodes[..i + 1][..i] == s.nodes[..i];
      i := i + 1;
    }
    assert s.nodes[..i] == s.nodes;
    r := s.(unitList := list);
  }

  /** One more copy goes at the end. */
  lemma RepeatSnoc<T>(k: T, n: nat)
    ensures Repeat(k, n) + [k] == Repeat(k, n + 1)
  {
    assert forall i :: 0 <= i < n + 1 ==> (Repeat(k, n) + [k])[i] == Repeat(k, n + 1)[i];
  }

  /** `n` copies of `k` hold `k` `n` times and nothing else. */
  lemma {:induction false} RepeatCount<T>(k: T, n: int, x: T)
    ensures multiset(Repeat(k, n))[x] == if x == k && n > 0 then n else 0
    decreases if n < 0 then 0 else n
  {
    if n > 0 {
      RepeatCount(k, n - 1, x);
      assert Repeat(k, n) == [k] + Repeat(k, n - 1);
    }
  }

  /** Over distinct nodes, a listed zone appears exactly once per free unit
      and an unlisted zone never. */
  lemma {:induction false} UnitsOfCount(zones: map<string, Zone>, nodes: seq<string>, z: string)
    requires Distinct(nodes) && forall n :: n in nodes ==> n in zones
    ensures multiset(UnitsOf(zones, nodes))[z] == if z in nodes then FreeUnits(zones[z]) else 0
    decreases |nodes|
  {
    if |nodes| > 0 {
      var n := nodes[|nodes| - 1];
      var front := nodes[..|nodes| - 1];
      assert Distinct(front);
      UnitsOfCount(zones, front, z);
      RepeatCount(n, zones[n].availableUnits, z);
      assert nodes == front + [n];
      assert z in nodes <==> z in front || z == n;
      if z == n {
        assert z !in front;
      }
    }
  }

  /** The list grows by the free units summed over the nodes. */
  lemma {:induction false} UnitsOfLength(zones: map<string, Zone>, nodes: seq<string>)
    requires forall n :: n in nodes ==> n in zones
    ensures |UnitsOf(zones, nodes)| == SumOver(nodes, zones, FreeUnits)
    decreases |nodes|
  {
    if |nodes| > 0 {
      UnitsOfLength(zones, nodes[..|nodes| - 1]);
    }
  }

  /** Every entry names one of the nodes. */
  lemma {:induction false} UnitsOfNodes(zones: map<string, Zone>, nodes: seq<string>)
    requires forall n :: n in nodes ==> n in zones
    ensures forall x :: x in UnitsOf(zones, nodes) ==> x in nodes
    decreases |nodes|
  {
    if |nodes| > 0 {
      var front := nodes[..|nodes| - 1];
      UnitsOfNodes(zones, front);
      forall x | x in UnitsOf(zones, nodes)
        ensures x in nodes
      {
        if x in UnitsOf(zones, front) {
          assert x in front;
        }
      }
    }
  }

  /** The index of the first occurrence of `x` in `ns`. */
  function Position(ns: seq<string>, x: string): (p: nat)
    requires x in ns
    ensures p < |ns| && ns[p] == x
    ensures forall i :: 0 <= i < p ==> ns[i] != x
  {
    if ns[0] == x then 0 else 1 + Position(ns[1..], x)
  }

  /** Among distinct names, the position in a prefix is the position in
      the whole list. */
  lemma PositionPrefix(ns: seq<string>, k: nat, x: string)
    requires k <= |ns| && x in ns[..k]
    ensures Position(ns, x) == Position(ns[..k], x)
  {
    var p := Position(ns, x);
    var q := Position(ns[..k], x);
    assert ns[q] == x;
    assert ns[..k][p] == x;
  }

  /** Every entry names a node, and no entry names a node listed before the
      node of an earlier entry. Over distinct nodes the entries for each
      node therefore sit together. */
  predicate InNodeOrder(u: seq<string>, nodes: seq<string>) {
    forall i, j :: 0 <= i < j < |u| ==>
      u[i] in nodes && u[j] in nodes && Position(nodes, u[i]) <= Position(nodes, u[j])
  }

  /** Entries follow node order, each zone's copies together. */
  lemma {:induction false} UnitsOfOrder(zones: map<string, Zone>, nodes: seq<string>)
    requires Distinct(nodes) && forall n :: n in nodes ==> n in zones
    ensures InNodeOrder(UnitsOf(zones, nodes), nodes)
    decreases |nodes|
  {
    var u := UnitsOf(zones, nodes);
    UnitsOfNodes(zones, nodes);
    if |nodes| > 0 {
      var last := |nodes| - 1;
      var n := nodes[last];
      var front := nodes[..last];
      assert Distinct(front);
      var pre := UnitsOf(zones, front);
      UnitsOfOrder(zones, front);
      UnitsOfNodes(zones, front);
      assert u == pre + Repeat(n, zones[n].availableUnits);
      assert Position(nodes, n) == last;
      forall i, j | 0 <= i < j < |u|
        ensures Position(nodes, u[i]) <= Position(nodes, u[j])
      {
        if j < |pre| {
          assert u[i] == pre[i] && u[j] == pre[j];
          assert pre[i] in pre && pre[j] in pre;
          PositionPrefix(nodes, last, u[i]);
          PositionPrefix(nodes, last, u[j]);
          assert InNodeOrder(pre, front);
          assert Position(front, pre[i]) <= Position(front, pre[j]);
        } else if i >= |pre| {
          assert u[i] == n && u[j] == n;
        } else {
          assert u[i] == pre[i] && pre[i] in pre && u[j] == n;
          PositionPrefix(nodes, last, u[i]);
          assert Position(front, u[i]) < last;
        }
      }
    }
  }

  /** In a list in node order, whatever lies between two entries for the
      same zone is for that zone too. */
  lemma InNodeOrderContiguous(u: seq<string>, nodes: seq<string>, i: nat, j: nat, k: nat)
    requires InNodeOrder(u, nodes)
    requires i < j < k < |u| && u[i] == u[k]
    ensures u[j] == u[i]
  {
    assert Position(nodes, u[i]) <= Position(nodes, u[j]) <= Position(nodes, u[k]);
  }

  // ---------------------------------------------------------------------
  // run_old
  // ---------------------------------------------------------------------

  /** `(10000 + r // 2) // r`: 10,000 residences in units of `r`, rounded
      to the nearest whole unit. */
  function OldUnits(residencesPerUnit: int): int
    requires residencesPerUnit != 0
  {
    FloorDiv(10000 + FloorDiv(residencesPerUnit, 2), residencesPerUnit)
  }

  /** Every zone of `nodes` gets 10,000 residences and `units` units. */
  function ResetUnits(zones: map<string, Zone>, nodes: seq<string>, units: int): (r: map<string, Zone>)
    ensures r.Keys == zones.Keys
  {
    map z | z in zones ::
      if z in nodes then zones[z].(availableResidences := 10000, availableUnits := units) else zones[z]
  }

  /** `HousingInventory.run_old`: each zone, in node order, is reset to
      10,000 residences and the matching number of units, and its units are
      listed. The division fails only when some zone reaches it. */
  function InventoryOld(s: Landscape, residencesPerUnit: int := 100): (r: Result<Landscape>)
    requires forall n :: n in s.nodes ==> n in s.zones
    ensures r.Err? <==> residencesPerUnit == 0 && |s.nodes| > 0
  {
    if |s.nodes| == 0 then Ok(s)
    else if residencesPerUnit == 0 then Err(ZeroDivisionError)
    else
      var zones := ResetUnits(s.zones, s.nodes, OldUnits(residencesPerUnit));
      Ok(s.(zones := zones, unitList := s.unitList + UnitsOf(zones, s.nodes)))
  }

  /** With a positive unit size every listed zone gets 10,000 residences
      and the rounded unit count, never negative; other zones and everything
      but zones and list are unchanged. The default size of 100 gives 100
      units per zone. */
  lemma InventoryOldZones(s: Landscape, residencesPerUnit: int, z: string)
    requires NodesMatch(s) && residencesPerUnit > 0 && z in s.zones
    ensures var r := InventoryOld(s, residencesPerUnit);
      && r.Ok?
      && r.value.(zones := s.zones, unitList := s.unitList) == s
      && r.value.zones[z] == s.zones[z].(availableResidences := 10000,
                                         availableUnits := (10000 + residencesPerUnit / 2) / residencesPerUnit)
      && r.value.zones[z].availableUnits >= 0
    ensures residencesPerUnit == 100 ==> InventoryOld(s, residencesPerUnit).value.zones[z].availableUnits == 100
  {
  }

  /** ... and the old list stays a prefix, followed by the units of the
      reset zones in node order ... */
  lemma InventoryOldPrefix(s: Landscape, residencesPerUnit: int)
    requires NodesMatch(s) && residencesPerUnit > 0
    ensures var r := InventoryOld(s, residencesPerUnit).value;
      && r.unitList[..|s.unitList|] == s.unitList
      && r.unitList[|s.unitList|..] == UnitsOf(r.zones, s.nodes)
  {
    var r := InventoryOld(s, residencesPerUnit).value;
    assert r.unitList == s.unitList + UnitsOf(r.zones, s.nodes);
  }

  /** ... in which each listed zone appears once per unit it now has. */
  lemma InventoryOldList(s: Landscape, residencesPerUnit: int, z: string)
    requires NodesMatch(s) && residencesPerUnit > 0 && z in s.zones
    ensures var r := InventoryOld(s, residencesPerUnit).value;
      multiset(r.unitList[|s.unitList|..])[z] == r.zones[z].availableUnits
  {
    InventoryOldPrefix(s, residencesPerUnit);
    UnitsOfCount(InventoryOld(s, residencesPerUnit).value.zones, s.nodes, z);
  }
}
