/** Engines that visit every zone of a node list once and rewrite it from
    its own fields: a fold over the list, and what it does to each zone. */
module Sweep {
  import opened Dicts
  import opened Records

  /** `for bg in nodes: <update bg>`, where the update of a zone reads only
      its name and its own record. */
  function ForEachNode(zones: map<string, Zone>, nodes: seq<string>, f: (string, Zone) -> Zone)
    : (r: map<string, Zone>)
    requires forall n :: n in nodes ==> n in zones
    ensures r.Keys == zones.Keys
    decreases |nodes|
  {
    if |nodes| == 0 then zones
    else ForEachNode(zones[nodes[0] := f(nodes[0], zones[nodes[0]])], nodes[1..], f)
  }

  /** Over distinct nodes each listed zone is updated exactly once and every
      other zone is left alone. */
  lemma {:induction false} ForEachNodeAt(zones: map<string, Zone>, nodes: seq<string>,
                                         f: (string, Zone) -> Zone, z: string)
    requires Distinct(nodes) && forall n :: n in nodes ==> n in zones
    requires z in zones
    ensures ForEachNode(zones, nodes, f)[z] == if z in nodes then f(z, zones[z]) else zones[z]
    decreases |nodes|
  {
    if |nodes| > 0 {
      var n := nodes[0];
      DistinctTail(nodes);
      ForEachNodeAt(zones[n := f(n, zones[n])], nodes[1..], f, z);
      assert z in nodes <==> z == n || z in nodes[1..];
      if z == n {
        assert nodes[0] !in nodes[1..];
      }
    }
  }

  /** An update that settles after one application settles the sweep too:
      sweeping twice is sweeping once. */
  lemma ForEachNodeIdempotent(zones: map<string, Zone>, nodes: seq<string>, f: (string, Zone) -> Zone)
    requires Distinct(nodes) && forall n :: n in nodes ==> n in zones
    requires forall n, y :: f(n, f(n, y)) == f(n, y)
    ensures ForEachNode(ForEachNode(zones, nodes, f), nodes, f) == ForEachNode(zones, nodes, f)
  {
    var once := ForEachNode(zones, nodes, f);
    var twice := ForEachNode(once, nodes, f);
    forall z | z in zones
      ensures twice[z] == once[z]
    {
      ForEachNodeAt(zones, nodes, f, z);
      ForEachNodeAt(once, nodes, f, z);
    }
  }
}
