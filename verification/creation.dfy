/** `NewAgentCreation`: population growth as new household agents that join
    the registry and the queue of households awaiting a first home. */
module Creation {
  import opened PyOps
  import opened Results
  import opened Dicts
  import opened Records
  import opened Simulator

  /** `(total_population * growth_rate + k // 2) // k`, truncated by `int`
      and read by `range`, so a negative count makes no agent. The product
      is a float, so the floor division is the floor of the exact
      quotient. */
  function NewAgentCount(totalPopulation: int, growthRate: real, k: int): (n: nat)
    requires k != 0
  {
    var q := RealFloorDiv(totalPopulation as real * growthRate + FloorDiv(k, 2) as real, k);
    if q < 0 then 0 else q
  }

  /** With an even, positive aggregation size the count is the new
      population in agents rounded to the nearest integer, halves up; a
      decline makes none. */
  lemma NewAgentCountRounds(totalPopulation: int, growthRate: real, k: int)
    requires k > 0 && IsEven(k)
    ensures var x := totalPopulation as real * growthRate / k as real;
      var n := NewAgentCount(totalPopulation, growthRate, k);
      && (x >= 0.0 ==> n as real - 0.5 <= x < n as real + 0.5)
      && (x < 0.0 ==> n == 0)
  {
    var p := totalPopulation as real * growthRate;
    var h := FloorDiv(k, 2);
    FloorDivIsFloor(k, 2);
    var kr := k as real;
    assert h as real * 2.0 == kr;
    assert (h as real) / kr == 0.5;
    assert (p + h as real) / kr == p / kr + (h as real) / kr;
  }

  /** `'hh_agent_' + str(year) + '_' + str(count)`. */
  function CreatedName(year: int, count: nat): string {
    "hh_agent_" + IntToString(year) + "_" + NatToString(count)
  }

  /** The names for the first `n` counts of `year`, `1` to `n`. */
  function CreatedNames(year: int, n: nat): (r: seq<string>)
    ensures |r| == n
    ensures forall i :: 0 <= i < n ==> r[i] == CreatedName(year, i + 1)
  {
    seq(n, i requires 0 <= i < n => CreatedName(year, i + 1))
  }

  lemma YearTextHasNoUnderscore(year: int)
    ensures '_' !in IntToString(year)
  {
    if year < 0 {
      assert IntToString(year) == "-" + NatToString(-year);
      assert forall i :: 0 <= i < |IntToString(year)| ==> IntToString(year)[i] != '_' by {
        forall i | 0 <= i < |IntToString(year)|
          ensures IntToString(year)[i] != '_'
        {
          if i > 0 { assert IntToString(year)[i] == NatToString(-year)[i - 1]; }
        }
      }
    }
  }

  /** `str(i)` starts with a minus sign exactly for a negative number. */
  lemma IntToStringSign(i: int)
    ensures (IntToString(i)[0] == '-') == (i < 0)
  {
    if i >= 0 {
      assert '0' <= NatToString(i)[0] <= '9';
    }
  }

  lemma IntToStringInjective(a: int, b: int)
    requires IntToString(a) == IntToString(b)
    ensures a == b
  {
    IntToStringSign(a);
    IntToStringSign(b);
    if a < 0 {
      assert NatToString(-a) == IntToString(a)[1..];
      assert NatToString(-b) == IntToString(b)[1..];
      NatToStringInjective(-a, -b);
    } else {
      NatToStringInjective(a, b);
    }
  }

  /** A created name determines its year and its count: households created
      in different years, or with different counts, never share a name. */
  lemma {:induction false} CreatedNameInjective(y1: int, c1: nat, y2: int, c2: nat)
    requires CreatedName(y1, c1) == CreatedName(y2, c2)
    ensures y1 == y2 && c1 == c2
  {
    var t1, t2 := IntToString(y1), IntToString(y2);
    var n := CreatedName(y1, c1);
    var p := "hh_agent_";
    YearTextHasNoUnderscore(y1);
    YearTextHasNoUnderscore(y2);
    assert n == p + t1 + "_" + NatToString(c1);
    assert n == p + t2 + "_" + NatToString(c2);
    assert n[|p| + |t1|] == '_' && n[|p| + |t2|] == '_';
    assert |t1| == |t2|;
    assert t1 == n[|p|..|p| + |t1|] == t2;
    IntToStringInjective(y1, y2);
    assert NatToString(c1) == n[|p| + |t1| + 1..] == NatToString(c2);
    NatToStringInjective(c1, c2);
  }

  /** A created name is never the name of an initial agent. */
  lemma CreatedNotInitial(year: int, count: nat, c: nat)
    ensures CreatedName(year, count) != InitialName(c)
  {
    var t := IntToString(year);
    assert CreatedName(year, count)[9] == if |t| > 0 then t[0] else '_';
    assert InitialName(c)[9] == 'i';
    if |t| > 0 {
      assert t[0] == '-' || '0' <= t[0] <= '9';
    }
  }

  lemma CreatedNamesApart(year: int, c1: nat, c2: nat)
    requires c1 != c2
    ensures CreatedName(year, c1) != CreatedName(year, c2)
  {
    if CreatedName(year, c1) == CreatedName(year, c2) {
      CreatedNameInjective(year, c1, year, c2);
    }
  }

  lemma CreatedNamesDistinct(year: int, n: nat)
    ensures Distinct(CreatedNames(year, n))
  {
    var r := CreatedNames(year, n);
    forall i, j | 0 <= i < j < n
      ensures r[i] != r[j]
    {
      CreatedNamesApart(year, i + 1, j + 1);
    }
  }

  /** Registers each name as a new household with no home and appends it
      to the unassigned queue. */
  function AddUnassigned(s: Landscape, names: seq<string>, a: Agent): (r: Landscape)
    ensures forall b :: b in r.agents <==> b in s.agents || b in names
    ensures forall b :: b in r.agents ==> r.agents[b] == if b in names then a else s.agents[b]
    ensures forall b :: b in r.unassigned <==> b in s.unassigned || b in names
    ensures r.(agents := s.agents, unassigned := s.unassigned) == s
  {
    s.(agents := s.agents + map b | b in names :: a, unassigned := PutAll(s.unassigned, names))
  }

  /** New, distinct names join the end of the queue and grow the registry
      by their number. */
  lemma AddUnassignedFresh(s: Landscape, names: seq<string>, a: Agent)
    requires Distinct(names)
    requires forall b :: b in names ==> b !in s.agents && b !in s.unassigned
    ensures AddUnassigned(s, names, a).unassigned == s.unassigned + names
    ensures |AddUnassigned(s, names, a).agents| == |s.agents| + |names|
  {
    PutAllFresh(s.unassigned, names);
    var r := AddUnassigned(s, names, a);
    assert r.agents.Keys == s.agents.Keys + (set b | b in names);
    DistinctCard(names);
  }

  /** `NewAgentCreation.run`: in growth mode `'perc'`, the households of
      the year's new population, which fails on a zero agent size; in any
      other mode (`'exog'` is not written) nothing. */
  function NewAgentCreation(s: Landscape, growthMode: string, growthRate: real, year: int,
                            k: int := 100, hhSize: int := 4): (r: Result<Landscape>)
    ensures r.Err? <==> growthMode == "perc" && k == 0
    ensures r.Err? ==> r.failure == ZeroDivisionError
    ensures growthMode != "perc" ==> r == Ok(s)
    ensures r.Ok? ==> r.value.(agents := s.agents, unassigned := s.unassigned) == s
  {
    if growthMode == "perc" then
      if k == 0 then Err(ZeroDivisionError)
      else
        var n := NewAgentCount(s.totalPopulation, growthRate, k);
        Ok(AddUnassigned(s, CreatedNames(year, n), NewHHAgent(Unplaced, k, hhSize, year)))
    else Ok(s)
  }

  /** The names a `'perc'` run of `year` creates are new when none of the
      year's names is taken yet, and pairwise distinct. */
  lemma FreshCreatedNames(s: Landscape, growthRate: real, year: int, k: int) returns (names: seq<string>)
    requires k != 0
    requires forall c: nat :: CreatedName(year, c) !in s.agents
    requires QueuesWellFormed(s)
    ensures names == CreatedNames(year, NewAgentCount(s.totalPopulation, growthRate, k))
    ensures Distinct(names)
    ensures forall b :: b in names ==> b !in s.agents && b !in s.unassigned && b !in s.relocating
  {
    names := CreatedNames(year, NewAgentCount(s.totalPopulation, growthRate, k));
    CreatedNamesDistinct(year, |names|);
  }

  /** When none of the year's names is taken yet, the created households
      are appended to the unassigned queue in count order and the registry
      grows by their number. */
  lemma NewAgentCreationAppends(s: Landscape, growthRate: real, year: int, k: int, hhSize: int)
    requires k != 0
    requires forall c: nat :: CreatedName(year, c) !in s.agents
    requires QueuesWellFormed(s)
    ensures var r := NewAgentCreation(s, "perc", growthRate, year, k, hhSize).value;
      var names := CreatedNames(year, NewAgentCount(s.totalPopulation, growthRate, k));
      && r.unassigned == s.unassigned + names
      && |r.agents| == |s.agents| + |names|
  {
    var names := FreshCreatedNames(s, growthRate, year, k);
    AddUnassignedFresh(s, names, NewHHAgent(Unplaced, k, hhSize, year));
  }

  /** Each created household is registered with no home, as `k`
      households of `hhSize` people arrived this year, and every agent
      registered before is unchanged. */
  lemma NewAgentCreationRegisters(s: Landscape, growthRate: real, year: int, k: int, hhSize: int)
    requires k != 0
    requires forall c: nat :: CreatedName(year, c) !in s.agents
    requires QueuesWellFormed(s)
    ensures var r := NewAgentCreation(s, "perc", growthRate, year, k, hhSize).value;
      var names := CreatedNames(year, NewAgentCount(s.totalPopulation, growthRate, k));
      && (forall b :: b in s.agents ==> r.agents[b] == s.agents[b])
      && (forall i :: 0 <= i < |names| ==> r.agents[names[i]] == NewHHAgent(Unplaced, k, hhSize, year))
  {
    var names := FreshCreatedNames(s, growthRate, year, k);
  }

  /** Creation keeps the landscape well formed: new households have no
      home, so no membership changes, and they wait in the unassigned queue
      only. */
  lemma NewAgentCreationWellFormed(s: Landscape, growthRate: real, year: int, k: int, hhSize: int)
    requires k != 0
    requires forall c: nat :: CreatedName(year, c) !in s.agents
    requires MembersKnown(s) && Consistent(s) && QueuesWellFormed(s)
    ensures var r := NewAgentCreation(s, "perc", growthRate, year, k, hhSize).value;
      MembersKnown(r) && Consistent(r) && QueuesWellFormed(r)
  {
    var names := FreshCreatedNames(s, growthRate, year, k);
    var r := NewAgentCreation(s, "perc", growthRate, year, k, hhSize).value;
    assert forall b :: b in s.agents ==> r.agents[b] == s.agents[b];
  }
}
