/** The simulator's set-up steps: the list of simulated years, and the
    conversion of each zone's census population into representative
    household agents. */
module Simulator {
  import opened PyOps
  import opened Results
  import opened Dicts
  import opened Records

  /** `datetime.strptime(str(year), '%Y')` accepts the year: `%Y` reads
      exactly four decimal digits. */
  predicate StrptimeYear(year: int) {
    var t := IntToString(year);
    |t| == 4 && forall i :: 0 <= i < |t| ==> '0' <= t[i] <= '9'
  }

  /** The years `strptime` accepts are 1000 to 9999: a smaller natural
      number has fewer digits, a larger one more, and a negative one starts
      with a minus sign. */
  lemma StrptimeYearRange(year: int)
    ensures StrptimeYear(year) <==> 1000 <= year <= 9999
  {
    if year >= 0 {
      NatToStringFour(year);
    } else {
      assert IntToString(year)[0] == '-';
    }
  }

  /** `set_timestep_information`: the start year and then one year more per
      simulated year; a negative number of years simulates none. Each year
      goes through `strptime`, so the run fails at the first year that is
      not four digits long: the start year itself, or 10000. */
  method TimestepYears(startYear: int, noOfYears: int) returns (r: Result<seq<int>>)
    ensures r.Err? <==> !(1000 <= startYear && startYear + (if noOfYears < 0 then 0 else noOfYears) <= 9999)
    ensures r.Err? ==> r.failure == YearFormat(if 1000 <= startYear <= 9999 then 10000 else startYear)
    ensures r.Ok? ==> |r.value| == (if noOfYears < 0 then 0 else noOfYears) + 1
    ensures r.Ok? ==> forall i :: 0 <= i < |r.value| ==> r.value[i] == startYear + i
  {
    StrptimeYearRange(startYear);
    if !StrptimeYear(startYear) {
      return Err(YearFormat(startYear));
    }
    var years := [startYear];
    var y := 0;
    while y < noOfYears
      invariant 0 <= y <= (if noOfYears < 0 then 0 else noOfYears)
      invariant |years| == y + 1
      invariant forall i :: 0 <= i < |years| ==> years[i] == startYear + i
      invariant startYear + y <= 9999
    {
      var newYear := years[|years| - 1] + 1;
      StrptimeYearRange(newYear);
      if !StrptimeYear(newYear) {
        return Err(YearFormat(newYear));
      }
      years := years + [newYear];
      y := y + 1;
    }
    return Ok(years);
  }

  /** `'hh_agent_initial_' + str(count)`. */
  function InitialName(count: nat): string {
    "hh_agent_initial_" + NatToString(count)
  }

  lemma InitialNameInjective(a: nat, b: nat)
    requires InitialName(a) == InitialName(b)
    ensures a == b
  {
    var p := "hh_agent_initial_";
    assert InitialName(a)[|p|..] == NatToString(a);
    assert InitialName(b)[|p|..] == NatToString(b);
    NatToStringInjective(a, b);
  }

  /** The number of agents a zone's census population converts to:
      `(init_pop + k // 2) // k`, the population in agents rounded half up. */
  function InitialAgents(initPop: int, k: int): int
    requires k != 0
  {
    FloorDiv(initPop + FloorDiv(k, 2), k)
  }

  /** For the default aggregation of 100 households per agent, the count is
      the census population divided by 100 and rounded half up. */
  lemma InitialAgentsRoundsHalfUp(initPop: int)
    ensures var n := InitialAgents(initPop, 100);
      n as real - 0.5 <= initPop as real / 100.0 < n as real + 0.5
  {
    FloorDivIsFloor(initPop + 50, 100);
  }

  /** Agents per zone, never negative (`range` of a negative count is
      empty). */
  function ZoneQuota(z: Zone, k: int): nat
    requires k != 0
  {
    var n := InitialAgents(z.initPop, k);
    if n < 0 then 0 else n
  }

  /** The `n` households of one zone, named on from `count`. */
  function Block(count: nat, n: nat, z: string): (b: seq<(string, string)>)
    ensures |b| == n
    ensures forall i :: 0 <= i < n ==> b[i] == (InitialName(count + i), z)
  {
    seq(n, i requires 0 <= i < n => (InitialName(count + i), z))
  }

  /** Every zone's quota, keyed by zone name. */
  function Quotas(zones: map<string, Zone>, k: int): (q: map<string, nat>)
    requires k != 0
    ensures q.Keys == zones.Keys
  {
    map z | z in zones :: ZoneQuota(zones[z], k)
  }

  /** The nested loop of `convert_initial_population_to_agents` as the list
      of households it makes, in order: for each node, its quota of
      `(name, zone)` pairs, the names counted on from `count`. */
  function Plan(nodes: seq<string>, quota: map<string, nat>, count: nat)
    : (p: seq<(string, string)>)
    requires forall n :: n in nodes ==> n in quota
    ensures |p| == QuotaSum(nodes, quota)
    ensures forall i :: 0 <= i < |p| ==> p[i].0 == InitialName(count + i) && p[i].1 in nodes
    decreases |nodes|
  {
    if |nodes| == 0 then []
    else
      var z := nodes[0];
      var n := quota[z];
      var rest := Plan(nodes[1..], quota, count + n);
      Block(count, n, z) + rest
  }

  /** The number of agents the listed zones convert to. */
  function QuotaSum(nodes: seq<string>, quota: map<string, nat>): nat
    requires forall n :: n in nodes ==> n in quota
  {
    if |nodes| == 0 then 0 else quota[nodes[0]] + QuotaSum(nodes[1..], quota)
  }

  /** How many of the planned households live in zone `z`. */
  function ZoneCount(p: seq<(string, string)>, z: string): nat {
    if |p| == 0 then 0 else (if p[0].1 == z then 1 else 0) + ZoneCount(p[1..], z)
  }

  lemma {:induction false} ZoneCountAppend(a: seq<(string, string)>, b: seq<(string, string)>, z: string)
    ensures ZoneCount(a + b, z) == ZoneCount(a, z) + ZoneCount(b, z)
    decreases |a|
  {
    if |a| == 0 {
      assert a + b == b;
    } else {
      assert (a + b)[1..] == a[1..] + b;
      ZoneCountAppend(a[1..], b, z);
    }
  }

  lemma {:induction false} ZoneCountNone(p: seq<(string, string)>, z: string)
    requires forall i :: 0 <= i < |p| ==> p[i].1 != z
    ensures ZoneCount(p, z) == 0
    decreases |p|
  {
    if |p| > 0 {
      ZoneCountNone(p[1..], z);
    }
  }

  lemma {:induction false} ZoneCountAll(p: seq<(string, string)>, z: string)
    requires forall i :: 0 <= i < |p| ==> p[i].1 == z
    ensures ZoneCount(p, z) == |p|
    decreases |p|
  {
    if |p| > 0 {
      ZoneCountAll(p[1..], z);
    }
  }

  /** Each node of a list without repeats is planned exactly its quota of
      households, and a zone outside the list none. */
  lemma {:induction false} PlanZoneCount(nodes: seq<string>, quota: map<string, nat>, count: nat, z: string)
    requires Distinct(nodes)
    requires forall n :: n in nodes ==> n in quota
    ensures ZoneCount(Plan(nodes, quota, count), z) == if z in nodes then quota[z] else 0
    decreases |nodes|
  {
    if |nodes| > 0 {
      var y := nodes[0];
      var head, rest := PlanCons(nodes, quota, count);
      DistinctTail(nodes);
      PlanZoneCount(nodes[1..], quota, count + quota[y], z);
      ZoneCountCons(head, rest, y, z);
      if z != y {
        assert z in nodes <==> z in nodes[1..];
      }
    }
  }

  /** The first node's households come first, all in that node. */
  lemma PlanCons(nodes: seq<string>, quota: map<string, nat>, count: nat)
    returns (head: seq<(string, string)>, rest: seq<(string, string)>)
    requires |nodes| > 0 && forall n :: n in nodes ==> n in quota
    ensures Plan(nodes, quota, count) == head + rest
    ensures |head| == quota[nodes[0]]
    ensures forall i :: 0 <= i < |head| ==> head[i].1 == nodes[0]
    ensures rest == Plan(nodes[1..], quota, count + quota[nodes[0]])
  {
    head := Block(count, quota[nodes[0]], nodes[0]);
    rest := Plan(nodes[1..], quota, count + quota[nodes[0]]);
  }

  /** A block of households all in zone `y`, followed by others. */
  lemma ZoneCountCons(head: seq<(string, string)>, rest: seq<(string, string)>, y: string, z: string)
    requires forall i :: 0 <= i < |head| ==> head[i].1 == y
    ensures ZoneCount(head + rest, z) == (if z == y then |head| else 0) + ZoneCount(rest, z)
  {
    ZoneCountAppend(head, rest, z);
    if z == y {
      ZoneCountAll(head, z);
    } else {
      ZoneCountNone(head, z);
    }
  }

  /** The planned names are pairwise distinct. */
  lemma PlanNamesDistinct(p: seq<(string, string)>, count: nat)
    requires forall i :: 0 <= i < |p| ==> p[i].0 == InitialName(count + i)
    ensures forall i, j :: 0 <= i < j < |p| ==> p[i].0 != p[j].0
  {
    forall i, j | 0 <= i < j < |p|
      ensures p[i].0 != p[j].0
    {
      if p[i].0 == p[j].0 { InitialNameInjective(count + i, count + j); }
    }
  }

  /** Registers each planned household as a default household of `k`
      households of `hhSize` people, arrived in `year`, living in its zone. */
  function Register(s: Landscape, p: seq<(string, string)>, k: int, hhSize: int, year: int)
    : (r: Landscape)
    requires forall i :: 0 <= i < |p| ==> p[i].1 in s.zones
    ensures r.zones.Keys == s.zones.Keys
    ensures r.(zones := s.zones, agents := s.agents) == s
    ensures forall b :: b in r.agents <==> b in s.agents || exists i :: 0 <= i < |p| && p[i].0 == b
    decreases |p|
  {
    if |p| == 0 then s
    else
      var a := NewHHAgent(At(p[0].1), k, hhSize, year);
      Register(AddResident(s, p[0].1, p[0].0, a), p[1..], k, hhSize, year)
  }

  /** The step shared by the lemmas about `Register`: the rest of the plan
      is still fresh and in range after registering its first household. */
  lemma RegisterStep(s: Landscape, p: seq<(string, string)>, k: int, hhSize: int, year: int)
    returns (s1: Landscape)
    requires |p| > 0
    requires forall i :: 0 <= i < |p| ==> p[i].1 in s.zones && p[i].0 !in s.agents
    requires forall i, j :: 0 <= i < j < |p| ==> p[i].0 != p[j].0
    ensures s1 == AddResident(s, p[0].1, p[0].0, NewHHAgent(At(p[0].1), k, hhSize, year))
    ensures Register(s, p, k, hhSize, year) == Register(s1, p[1..], k, hhSize, year)
    ensures forall i :: 0 <= i < |p[1..]| ==> p[1..][i].1 in s1.zones && p[1..][i].0 !in s1.agents
    ensures forall i, j :: 0 <= i < j < |p[1..]| ==> p[1..][i].0 != p[1..][j].0
  {
    s1 := AddResident(s, p[0].1, p[0].0, NewHHAgent(At(p[0].1), k, hhSize, year));
    forall i | 0 <= i < |p[1..]|
      ensures p[1..][i].1 in s1.zones && p[1..][i].0 !in s1.agents
    {
      assert p[1..][i] == p[i + 1];
    }
  }

  /** Registering households under new, distinct names keeps locations and
      memberships in agreement. */
  lemma {:induction false} RegisterConsistent(s: Landscape, p: seq<(string, string)>, k: int,
                                              hhSize: int, year: int)
    requires MembersKnown(s) && Consistent(s)
    requires forall i :: 0 <= i < |p| ==> p[i].1 in s.zones && p[i].0 !in s.agents
    requires forall i, j :: 0 <= i < j < |p| ==> p[i].0 != p[j].0
    ensures MembersKnown(Register(s, p, k, hhSize, year)) && Consistent(Register(s, p, k, hhSize, year))
    decreases |p|
  {
    if |p| > 0 {
      var s1 := RegisterStep(s, p, k, hhSize, year);
      AddResidentConsistent(s, p[0].1, p[0].0, NewHHAgent(At(p[0].1), k, hhSize, year));
      RegisterConsistent(s1, p[1..], k, hhSize, year);
    }
  }

  /** Each zone gains as many residents as are planned for it. */
  lemma {:induction false} RegisterMembers(s: Landscape, p: seq<(string, string)>, k: int, hhSize: int,
                                           year: int, z: string)
    requires MembersKnown(s)
    requires forall i :: 0 <= i < |p| ==> p[i].1 in s.zones && p[i].0 !in s.agents
    requires forall i, j :: 0 <= i < j < |p| ==> p[i].0 != p[j].0
    requires z in s.zones
    ensures |Register(s, p, k, hhSize, year).zones[z].hhAgents| == |s.zones[z].hhAgents| + ZoneCount(p, z)
    decreases |p|
  {
    if |p| > 0 {
      var s1 := RegisterStep(s, p, k, hhSize, year);
      AddResidentMembers(s, p[0].1, p[0].0, NewHHAgent(At(p[0].1), k, hhSize, year), z);
      RegisterMembers(s1, p[1..], k, hhSize, year, z);
    }
  }

  /** A new household joins one zone's membership and no other's. */
  lemma AddResidentMembers(s: Landscape, y: string, name: string, a: Agent, z: string)
    requires MembersKnown(s) && y in s.zones && z in s.zones && name !in s.agents
    ensures MembersKnown(AddResident(s, y, name, a))
    ensures |AddResident(s, y, name, a).zones[z].hhAgents| == |s.zones[z].hhAgents| + if y == z then 1 else 0
  {
    assert name !in s.zones[y].hhAgents;
    var s1 := AddResident(s, y, name, a);
    forall x | x in s1.zones
      ensures Distinct(s1.zones[x].hhAgents) && forall b :: b in s1.zones[x].hhAgents ==> b in s1.agents
    {
    }
  }

  /** Registering keeps every agent already registered and makes each new
      one a located household of the given size and year. */
  lemma {:induction false} RegisterAgents(s: Landscape, p: seq<(string, string)>, k: int, hhSize: int,
                                          year: int)
    requires forall i :: 0 <= i < |p| ==> p[i].1 in s.zones && p[i].0 !in s.agents
    requires forall i, j :: 0 <= i < j < |p| ==> p[i].0 != p[j].0
    ensures var r := Register(s, p, k, hhSize, year);
      && (forall b :: b in s.agents ==> r.agents[b] == s.agents[b])
      && (forall b :: b in r.agents && b !in s.agents ==>
            && r.agents[b].location.At? && r.agents[b].yearOfResidence == year
            && r.agents[b].noHhsPerAgent == k && r.agents[b].hhSize == hhSize)
    decreases |p|
  {
    if |p| > 0 {
      var s1 := RegisterStep(s, p, k, hhSize, year);
      RegisterAgents(s1, p[1..], k, hhSize, year);
      var r := Register(s1, p[1..], k, hhSize, year);
      forall b | b in s.agents
        ensures r.agents[b] == s.agents[b]
      {
        assert b != p[0].0;
        assert r.agents[b] == s1.agents[b];
      }
      forall b | b in r.agents && b !in s.agents
        ensures r.agents[b].location.At? && r.agents[b].yearOfResidence == year
          && r.agents[b].noHhsPerAgent == k && r.agents[b].hhSize == hhSize
      {
        if b in s1.agents {
          assert r.agents[b] == s1.agents[b];
        }
      }
    }
  }

  /** `convert_initial_population_to_agents`: the converted landscape and
      the count it logs. A zero agent size fails at the first zone. */
  function ConvertInitialPopulation(s: Landscape, startYear: int, k: int := 100, hhSize: int := 4)
    : (r: Result<(Landscape, nat)>)
    requires NodesMatch(s)
    ensures r.Err? <==> k == 0 && |s.nodes| > 0
    ensures r.Err? ==> r.failure == ZeroDivisionError
    ensures r.Ok? ==> r.value.0.zones.Keys == s.zones.Keys
    ensures r.Ok? ==> r.value.0.(zones := s.zones, agents := s.agents) == s
  {
    if k == 0 then
      if |s.nodes| == 0 then Ok((s, 1)) else Err(ZeroDivisionError)
    else
      var p := Plan(s.nodes, Quotas(s.zones, k), 1);
      Ok((Register(s, p, k, hhSize, startYear), 1 + |p|))
  }

  /** The names the conversion counts through from `lo` up to `hi`. */
  ghost function NameRange(lo: nat, hi: nat): set<string> {
    set c: nat | lo <= c < hi :: InitialName(c)
  }

  /** `hh_agent_initial_lo` ... `hh_agent_initial_{hi-1}` are `hi - lo`
      distinct names. */
  lemma {:induction false} NameRangeCard(lo: nat, hi: nat)
    requires lo <= hi
    ensures |NameRange(lo, hi)| == hi - lo
    decreases hi - lo
  {
    if lo < hi {
      NameRangeCard(lo + 1, hi);
      assert NameRange(lo, hi) == NameRange(lo + 1, hi) + {InitialName(lo)};
      assert InitialName(lo) !in NameRange(lo + 1, hi) by {
        if InitialName(lo) in NameRange(lo + 1, hi) {
          var c: nat :| lo + 1 <= c < hi && InitialName(c) == InitialName(lo);
          InitialNameInjective(c, lo);
        }
      }
    }
  }

  /** The households the conversion of a landscape without agents plans
      have fresh, distinct names in existing zones. */
  lemma PlanFresh(s: Landscape, k: int) returns (p: seq<(string, string)>)
    requires k != 0 && NodesMatch(s) && s.agents == map[]
    ensures p == Plan(s.nodes, Quotas(s.zones, k), 1)
    ensures forall i :: 0 <= i < |p| ==> p[i].1 in s.zones && p[i].0 !in s.agents
    ensures forall i, j :: 0 <= i < j < |p| ==> p[i].0 != p[j].0
  {
    p := Plan(s.nodes, Quotas(s.zones, k), 1);
    PlanNamesDistinct(p, 1);
  }

  /** Converting a landscape with no agents yet makes exactly the agents
      `hh_agent_initial_1` ... up to the count logged ... */
  lemma ConvertInitialPopulationNames(s: Landscape, startYear: int, k: int, hhSize: int)
    requires k != 0 && NodesMatch(s) && s.agents == map[]
    ensures var (r, logged) := ConvertInitialPopulation(s, startYear, k, hhSize).value;
      r.agents.Keys == NameRange(1, logged)
  {
    var p := Plan(s.nodes, Quotas(s.zones, k), 1);
    PlanNameRange(p, 1);
    RegisterKeys(s, p, k, hhSize, startYear);
  }

  /** ... one fewer than that count, and as many as the zones' quotas add
      up to. */
  lemma ConvertInitialPopulationCount(s: Landscape, startYear: int, k: int, hhSize: int)
    requires k != 0 && NodesMatch(s) && s.agents == map[]
    ensures var (r, logged) := ConvertInitialPopulation(s, startYear, k, hhSize).value;
      && logged == QuotaSum(s.nodes, Quotas(s.zones, k)) + 1
      && |r.agents| == logged - 1
  {
    var (r, logged) := ConvertInitialPopulation(s, startYear, k, hhSize).value;
    ConvertInitialPopulationNames(s, startYear, k, hhSize);
    NameRangeCard(1, logged);
  }

  /** The names a plan gives its households. */
  ghost function PlanNames(p: seq<(string, string)>): set<string> {
    set i | 0 <= i < |p| :: p[i].0
  }

  /** Registering into an empty registry registers exactly the planned
      names. */
  lemma RegisterKeys(s: Landscape, p: seq<(string, string)>, k: int, hhSize: int, year: int)
    requires forall i :: 0 <= i < |p| ==> p[i].1 in s.zones
    requires s.agents == map[]
    ensures Register(s, p, k, hhSize, year).agents.Keys == PlanNames(p)
  {
  }

  /** Names counted on from `count` are exactly the range of names from
      `count` on. */
  lemma PlanNameRange(p: seq<(string, string)>, count: nat)
    requires forall i :: 0 <= i < |p| ==> p[i].0 == InitialName(count + i)
    ensures PlanNames(p) == NameRange(count, count + |p|)
  {
    forall b | b in NameRange(count, count + |p|)
      ensures b in PlanNames(p)
    {
      var c: nat :| count <= c < count + |p| && b == InitialName(c);
      assert p[c - count].0 == b;
    }
  }

  /** The converted landscape is consistent, every agent it holds lives in
      a zone and arrived in the start year, and neither queue changes. */
  lemma ConvertInitialPopulationConsistent(s: Landscape, startYear: int, k: int, hhSize: int)
    requires k != 0 && NodesMatch(s) && s.agents == map[]
    requires MembersKnown(s)
    ensures var r := ConvertInitialPopulation(s, startYear, k, hhSize).value.0;
      && Consistent(r)
      && (forall b :: b in r.agents ==> r.agents[b].location.At? && r.agents[b].yearOfResidence == startYear)
      && r.unassigned == s.unassigned && r.relocating == s.relocating
  {
    var p := PlanFresh(s, k);
    RegisterConsistent(s, p, k, hhSize, startYear);
    RegisterAgents(s, p, k, hhSize, startYear);
  }

  /** Each zone of a landscape with nobody living anywhere yet ends with its
      quota of residents. */
  lemma ConvertInitialPopulationMembers(s: Landscape, startYear: int, k: int, hhSize: int, z: string)
    requires k != 0 && NodesMatch(s) && s.agents == map[]
    requires forall y :: y in s.zones ==> s.zones[y].hhAgents == []
    requires z in s.zones
    ensures |ConvertInitialPopulation(s, startYear, k, hhSize).value.0.zones[z].hhAgents| == ZoneQuota(s.zones[z], k)
  {
    var p := PlanFresh(s, k);
    RegisterMembers(s, p, k, hhSize, startYear, z);
    PlanZoneCount(s.nodes, Quotas(s.zones, k), 1, z);
  }
}
