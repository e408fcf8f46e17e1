/** `HousingMarket.run` as written, where it departs from the corrected
    market in `Market`: the proposal loops binding each household's name
    where they read its record, the utility relocating households propose
    with, the deletion from the dictionary being iterated, the attribute
    read on a household's name, and the year test that picks the queue.
    Each departure comes with an input that shows it, and with the
    property the corrected market has instead. The later four are stated
    of the code once its proposal loops read the records, since as written
    no round gets past its first proposal. */
module MarketAsWritten {
  import opened Dicts
  import opened Results
  import opened Ranking
  import opened Records
  import opened Proposals
  import opened Acceptance
  import opened Admission
  import opened Market

  // ---------------------------------------------------------------------
  // The loop variable of the proposal loops
  // ---------------------------------------------------------------------

  /** What `for hh in queue` binds. Iterating a queue, a dictionary from
      names to records, binds the names (`NameKey`); iterating its
      `.values()` binds the records (`Record`). */
  datatype LoopItem = NameKey(name: string) | Record(name: string, agent: Agent)

  /** `hh.hh_utilities`: a name has no such attribute. */
  function HhUtilities(item: LoopItem): (r: Result<seq<Candidate>>)
    ensures r.Err? <==> item.NameKey?
    ensures r.Err? ==> r.failure == AttributeError(item.name)
    ensures r.Ok? ==> r.value == item.agent.utilities
  {
    match item
    case NameKey(name) => Err(AttributeError(name))
    case Record(_, a) => Ok(a.utilities)
  }

  /** The items `for hh in queue` binds, as written: the names. */
  function Keys(queue: seq<string>): (r: seq<LoopItem>)
    ensures |r| == |queue|
    ensures forall i :: 0 <= i < |queue| ==> r[i] == NameKey(queue[i])
  {
    seq(|queue|, i requires 0 <= i < |queue| => NameKey(queue[i]))
  }

  /** The items `for hh in queue.values()` binds: each queued household's
      record. */
  function Values(agents: map<string, Agent>, queue: seq<string>): (r: seq<LoopItem>)
    requires forall a :: a in queue ==> a in agents
    ensures |r| == |queue|
    ensures forall i :: 0 <= i < |queue| ==> r[i] == Record(queue[i], agents[queue[i]])
  {
    seq(|queue|, i requires 0 <= i < |queue| => Record(queue[i], agents[queue[i]]))
  }

  /** A record whose scores name each zone once. */
  predicate ScoredApart(item: LoopItem) {
    item.Record? ==> DistinctZones(item.agent.utilities)
  }

  /** One proposal loop over the items it binds: each item's scores are
      read, sorted, and the candidate at position `r` from the top is
      proposed. The first item that is a name fails on the attribute
      read; the first record with `r` or fewer scores fails on the
      index. */
  function ProposeItems(items: seq<LoopItem>, r: nat): (res: Result<seq<Proposal>>)
    requires forall it :: it in items ==> ScoredApart(it)
    ensures |items| == 0 ==> res == Ok([])
    ensures |items| > 0 && items[0].NameKey? ==> res == Err(AttributeError(items[0].name))
    ensures res.Ok? ==> |res.value| == |items|
    ensures res.Ok? ==> forall i :: 0 <= i < |items| ==> items[i].Record? && res.value[i].agent == items[i].name
    decreases |items|
  {
    if |items| == 0 then Ok([])
    else
      assert items[0] in items && ScoredApart(items[0]);
      match HhUtilities(items[0])
      case Err(e) => Err(e)
      case Ok(u) =>
        match RankedChoice(u, r)
        case None => Err(IndexError(items[0].name))
        case Some(c) =>
          match ProposeItems(items[1..], r)
          case Err(e) => Err(e)
          case Ok(rest) => Ok([Proposal(items[0].name, c.0, c.1)] + rest)
  }

  /** A round's proposals as written: both loops bind names, so the round
      succeeds only when both queues are empty, and otherwise fails on the
      first queued household, new ones first. */
  function RoundProposalsByKey(unassigned: seq<string>, relocating: seq<string>, r: nat)
    : (res: Result<seq<Proposal>>)
    ensures res.Ok? <==> |unassigned| == 0 && |relocating| == 0
    ensures res.Ok? ==> res.value == []
    ensures |unassigned| > 0 ==> res == Err(AttributeError(unassigned[0]))
    ensures |unassigned| == 0 && |relocating| > 0 ==> res == Err(AttributeError(relocating[0]))
  {
    match ProposeItems(Keys(unassigned), r)
    case Err(e) => Err(e)
    case Ok(a) =>
      match ProposeItems(Keys(relocating), r)
      case Err(e) => Err(e)
      case Ok(rel) => Ok(a + rel)
  }

  /** The records of households whose scores name each zone once do so
      too. */
  lemma ValuesScoredApart(agents: map<string, Agent>, queue: seq<string>)
    requires ScoresDistinct(agents) && forall a :: a in queue ==> a in agents
    ensures forall it :: it in Values(agents, queue) ==> ScoredApart(it)
  {
    var items := Values(agents, queue);
    forall it | it in items
      ensures ScoredApart(it)
    {
      var i :| 0 <= i < |items| && items[i] == it;
    }
  }

  /** The first record proposes as its household does in `Propose`. */
  lemma ProposeItemsCons(agents: map<string, Agent>, queue: seq<string>, r: nat)
    requires ScoresDistinct(agents) && |queue| > 0 && forall a :: a in queue ==> a in agents
    ensures forall it :: it in Values(agents, queue) ==> ScoredApart(it)
    ensures forall it :: it in Values(agents, queue[1..]) ==> ScoredApart(it)
    ensures !CanPropose(agents, queue[0], r) ==>
      ProposeItems(Values(agents, queue), r) == Err(IndexError(queue[0]))
    ensures CanPropose(agents, queue[0], r) && ProposeItems(Values(agents, queue[1..]), r).Err? ==>
      ProposeItems(Values(agents, queue), r) == ProposeItems(Values(agents, queue[1..]), r)
    ensures CanPropose(agents, queue[0], r) && ProposeItems(Values(agents, queue[1..]), r).Ok? ==>
      ProposeItems(Values(agents, queue), r)
        == Ok([ProposalOf(agents, queue[0], r)] + ProposeItems(Values(agents, queue[1..]), r).value)
  {
    ValuesScoredApart(agents, queue);
    assert forall b :: b in queue[1..] ==> b in queue;
    ValuesScoredApart(agents, queue[1..]);
    assert forall i :: 0 <= i < |queue| - 1 ==> Values(agents, queue)[1..][i] == Values(agents, queue[1..])[i];
    assert Values(agents, queue)[1..] == Values(agents, queue[1..]);
  }

  /** Corrected: a loop over the queued households' records proposes as
      `Propose` does, failing on the same household with the same
      error. */
  lemma {:induction false} ProposeValues(agents: map<string, Agent>, queue: seq<string>, r: nat)
    requires ScoresDistinct(agents) && forall a :: a in queue ==> a in agents
    ensures forall it :: it in Values(agents, queue) ==> ScoredApart(it)
    ensures ProposeItems(Values(agents, queue), r) == Propose(agents, queue, r)
    decreases |queue|
  {
    ValuesScoredApart(agents, queue);
    if |queue| > 0 {
      ProposeItemsCons(agents, queue, r);
      ProposeCons(agents, queue, r);
      assert forall b :: b in queue[1..] ==> b in queue;
      ProposeValues(agents, queue[1..], r);
    }
  }

  /** Household `A` waits for a first home and scores only `z1`, at 1. As
      written its round fails reading the scores of its name; corrected,
      it proposes for `z1`. */
  lemma KeyIterationExample()
    ensures RoundProposalsByKey(["A"], [], 0) == Err(AttributeError("A"))
    ensures ScoresDistinct(NewcomerAgents())
    ensures RoundProposals(NewcomerAgents(), ["A"], [], 0) == Ok([Proposal("A", "z1", 1.0)])
  {
    assert Proposers(["A"], []) == ["A"];
    ProposeSingles(NewcomerAgents(), ["A"], [Proposal("A", "z1", 1.0)]);
  }

  // ---------------------------------------------------------------------
  // The utility of a relocating proposer
  // ---------------------------------------------------------------------

  /** The proposals `ps` with the utility `v`. */
  function WithUtility(ps: seq<Proposal>, v: real): (r: seq<Proposal>)
    ensures |r| == |ps|
    ensures forall i :: 0 <= i < |ps| ==> r[i] == ps[i].(utility := v)
  {
    seq(|ps|, i requires 0 <= i < |ps| => ps[i].(utility := v))
  }

  /** One round's proposals as written, once both loops read the queued
      households' records (`.values()`): the new households propose with
      their own utility; every relocating household proposes for its own
      zone but with `top_candidate_utility` as the new households' loop
      left it, or as an earlier round left it when no household is new.
      `carried` is that earlier value; `None` means no value was ever
      assigned. The result also returns the value the next round
      inherits. */
  function ProposalsAsWritten(agents: map<string, Agent>, unassigned: seq<string>, relocating: seq<string>,
                              r: nat, carried: Option<real>): (res: Result<(seq<Proposal>, Option<real>)>)
    requires ScoresDistinct(agents)
    ensures res.Ok? ==> forall a :: a in unassigned || a in relocating ==> CanPropose(agents, a, r)
    ensures res.Ok? ==> |res.value.0| == |unassigned| + |relocating|
    ensures res.Ok? && |relocating| > 0 ==> res.value.1.Some?
  {
    match Propose(agents, unassigned, r)
    case Err(e) => Err(e)
    case Ok(a) =>
      var last := if |a| > 0 then Some(a[|a| - 1].utility) else carried;
      if |relocating| > 0 && last.None? then
        match Propose(agents, relocating[..1], r)
        case Err(e) => Err(e)
        case Ok(_) => Err(UnboundLocal)
      else
        match Propose(agents, relocating, r)
        case Err(e) => Err(e)
        case Ok(rel) =>
          if |relocating| == 0 then Ok((a, last))
          else Ok((a + WithUtility(rel, last.value), last))
  }

  /** A successful round as written: both queues propose, and the
      relocating proposals take the value passed on. */
  lemma AsWrittenParts(agents: map<string, Agent>, unassigned: seq<string>, relocating: seq<string>,
                       r: nat, carried: Option<real>)
    returns (a: seq<Proposal>, rel: seq<Proposal>)
    requires ScoresDistinct(agents)
    requires ProposalsAsWritten(agents, unassigned, relocating, r, carried).Ok?
    ensures Propose(agents, unassigned, r) == Ok(a)
    ensures Propose(agents, relocating, r) == Ok(rel)
    ensures var last := ProposalsAsWritten(agents, unassigned, relocating, r, carried).value.1;
      && last == (if |a| > 0 then Some(a[|a| - 1].utility) else carried)
      && (|relocating| > 0 ==> last.Some?)
    ensures var res := ProposalsAsWritten(agents, unassigned, relocating, r, carried).value;
      res.0 == if |relocating| == 0 then a else a + WithUtility(rel, res.1.value)
  {
    a := Propose(agents, unassigned, r).value;
    rel := Propose(agents, relocating, r).value;
  }

  /** As written, the new households propose with their own utilities, and
      the value passed on is the last one's, or the carried one when no
      household is new. */
  lemma NewProposalsAsWritten(agents: map<string, Agent>, unassigned: seq<string>, relocating: seq<string>,
                              r: nat, carried: Option<real>)
    requires ScoresDistinct(agents)
    requires ProposalsAsWritten(agents, unassigned, relocating, r, carried).Ok?
    ensures var res := ProposalsAsWritten(agents, unassigned, relocating, r, carried).value;
      && (forall i :: 0 <= i < |unassigned| ==> res.0[i] == ProposalOf(agents, unassigned[i], r))
      && res.1 == if |unassigned| > 0 then Some(ProposalOf(agents, unassigned[|unassigned| - 1], r).utility)
                  else carried
  {
    var a, rel := AsWrittenParts(agents, unassigned, relocating, r, carried);
    var res := ProposalsAsWritten(agents, unassigned, relocating, r, carried).value;
    forall i | 0 <= i < |unassigned|
      ensures res.0[i] == ProposalOf(agents, unassigned[i], r)
    {
      assert res.0[i] == a[i];
    }
  }

  /** As written, every relocating household proposes the zone it ranks
      `r`-th, but with the utility the round passes on, which is the last
      new household's, or the one carried in from an earlier round. */
  lemma StaleUtility(agents: map<string, Agent>, unassigned: seq<string>, relocating: seq<string>,
                     r: nat, carried: Option<real>, i: nat)
    requires ScoresDistinct(agents)
    requires ProposalsAsWritten(agents, unassigned, relocating, r, carried).Ok? && i < |relocating|
    ensures var res := ProposalsAsWritten(agents, unassigned, relocating, r, carried).value;
      && CanPropose(agents, relocating[i], r)
      && res.0[|unassigned| + i] == ProposalOf(agents, relocating[i], r).(utility := res.1.value)
  {
    var a, rel := AsWrittenParts(agents, unassigned, relocating, r, carried);
    var res := ProposalsAsWritten(agents, unassigned, relocating, r, carried).value;
    assert |a| == |unassigned| by {
      assert AgentsOf(a) == unassigned;
    }
    assert i < |rel| by {
      assert AgentsOf(rel) == relocating;
    }
    WithUtilityAfter(a, rel, res.1.value, i);
  }

  /** The `i`-th relocating proposal follows the new households' ones. */
  lemma WithUtilityAfter(a: seq<Proposal>, rel: seq<Proposal>, v: real, i: nat)
    requires i < |rel|
    ensures (a + WithUtility(rel, v))[|a| + i] == rel[i].(utility := v)
  {
  }

  /** A household that scored one zone proposes it in the first round. */
  lemma ProposalOfSingle(agents: map<string, Agent>, a: string)
    requires ScoresDistinct(agents) && a in agents && |agents[a].utilities| == 1
    ensures CanPropose(agents, a, 0)
    ensures ProposalOf(agents, a, 0) == Proposal(a, agents[a].utilities[0].0, agents[a].utilities[0].1)
  {
    var u := agents[a].utilities;
    var t := SortBest(u);
    assert |multiset(t)| == |multiset(u)|;
    assert t[0] in multiset(u);
  }

  /** Household `A` waits for a first home and scores only `z1`, at 1;
      household `B` wants to move and scores only `z2`, at 5. */
  function StaleAgents(): map<string, Agent> {
    map["A" := Agent(Unplaced, 100, 4, 2019, [("z1", 1.0)]),
        "B" := Agent(At("z1"), 100, 4, 2018, [("z2", 5.0)])]
  }

  /** The first-round proposals of households that scored one zone each:
      `ps[i]` is the one zone and utility of `q[i]`. */
  lemma ProposeSingles(agents: map<string, Agent>, q: seq<string>, ps: seq<Proposal>)
    requires ScoresDistinct(agents) && |ps| == |q|
    requires forall i :: 0 <= i < |q| ==>
      q[i] in agents && ps[i].agent == q[i] && agents[q[i]].utilities == [(ps[i].zone, ps[i].utility)]
    ensures Propose(agents, q, 0) == Ok(ps)
  {
    forall a | a in q
      ensures CanPropose(agents, a, 0)
    {
      ProposalOfSingle(agents, a);
    }
    var res := Propose(agents, q, 0).value;
    forall i | 0 <= i < |q|
      ensures res[i] == ps[i]
    {
      ProposalOfSingle(agents, q[i]);
    }
    assert |AgentsOf(res)| == |res|;
    assert res == ps;
  }

  /** `StaleAgents` scores each household's zones apart. */
  lemma StaleAgentsDistinct()
    ensures ScoresDistinct(StaleAgents())
  {
  }

  /** As written, `B` proposes for `z2` with `A`'s utility 1. With nobody
      new in the first round, the relocating loop reads a variable never
      assigned. */
  lemma StaleUtilityExample()
    ensures ScoresDistinct(StaleAgents())
    ensures ProposalsAsWritten(StaleAgents(), ["A"], ["B"], 0, None)
      == Ok(([Proposal("A", "z1", 1.0), Proposal("B", "z2", 1.0)], Some(1.0)))
    ensures ProposalsAsWritten(StaleAgents(), [], ["B"], 0, None) == Err(UnboundLocal)
  {
    var agents := StaleAgents();
    StaleAgentsDistinct();
    ProposeSingles(agents, ["A"], [Proposal("A", "z1", 1.0)]);
    ProposeSingles(agents, ["B"], [Proposal("B", "z2", 5.0)]);
    ProposeSingles(agents, [], []);
    assert WithUtility([Proposal("B", "z2", 5.0)], 1.0) == [Proposal("B", "z2", 1.0)];
    assert [Proposal("A", "z1", 1.0)] + [Proposal("B", "z2", 1.0)]
      == [Proposal("A", "z1", 1.0), Proposal("B", "z2", 1.0)];
    assert ["B"][..1] == ["B"];
  }

  /** The corrected round on the same households: `B` proposes with its own
      utility 5. */
  lemma OwnUtilityExample()
    ensures ScoresDistinct(StaleAgents())
    ensures RoundProposals(StaleAgents(), ["A"], ["B"], 0)
      == Ok([Proposal("A", "z1", 1.0), Proposal("B", "z2", 5.0)])
  {
    StaleAgentsDistinct();
    assert Proposers(["A"], ["B"]) == ["A", "B"];
    ProposeSingles(StaleAgents(), ["A", "B"], [Proposal("A", "z1", 1.0), Proposal("B", "z2", 5.0)]);
  }

  /** Corrected, a first round with nobody new proposes as well. */
  lemma OwnUtilityFirstExample()
    ensures ScoresDistinct(StaleAgents())
    ensures RoundProposals(StaleAgents(), [], ["B"], 0) == Ok([Proposal("B", "z2", 5.0)])
  {
    StaleAgentsDistinct();
    assert Proposers([], ["B"]) == ["B"];
    ProposeSingles(StaleAgents(), ["B"], [Proposal("B", "z2", 5.0)]);
  }

  /** Corrected: every proposal of a round carries its proposer's own
      utility for the zone, the one it ranks `r`-th from the top. */
  lemma ProposalsOwnUtility(agents: map<string, Agent>, unassigned: seq<string>, relocating: seq<string>,
                            r: nat, i: nat)
    requires ScoresDistinct(agents)
    requires RoundProposals(agents, unassigned, relocating, r).Ok?
    requires i < |RoundProposals(agents, unassigned, relocating, r).value|
    ensures var p := RoundProposals(agents, unassigned, relocating, r).value[i];
      && p.agent in agents
      && (p.zone, p.utility) in agents[p.agent].utilities
      && |PreferredTo(agents[p.agent].utilities, (p.zone, p.utility))| == r
  {
    var queue := Proposers(unassigned, relocating);
    ProposeRank(agents, queue, r, i);
    assert AgentsOf(RoundProposals(agents, unassigned, relocating, r).value)[i] == queue[i];
  }

  // ---------------------------------------------------------------------
  // Admitting one household
  // ---------------------------------------------------------------------

  /** One admission as written. A household whose year of residence is the
      market's `year` joins `bg` and must then leave the unassigned queue;
      any other household fails on `hh_match.location`, an attribute its
      name does not have. */
  function AdmitAsWritten(b: Book, agents: map<string, Agent>, hh: string, bg: string, year: int): (r: Result<Book>)
    requires bg in b.members
    ensures r.Ok? ==> hh in agents && agents[hh].yearOfResidence == year && hh in b.unassigned
    ensures hh in agents && agents[hh].yearOfResidence != year ==> r == Err(AttributeError(hh))
    ensures hh in agents && agents[hh].yearOfResidence == year && hh !in b.unassigned ==> r == Err(KeyError(hh))
  {
    if hh !in agents then Err(KeyError(hh))
    else if agents[hh].yearOfResidence == year then
      var m := b.members[bg := Put(b.members[bg], hh)];
      if hh !in b.unassigned then Err(KeyError(hh))
      else Ok(b.(members := m, unassigned := Del(b.unassigned, hh)))
    else Err(AttributeError(hh))
  }

  /** Household `B` lives in `z1`, has lived in the landscape since 2018 and
      wants to move; `C` lives in `z1` too, but settled there this year, as
      every initial household has in the first simulated year. */
  function MoverAgents(): map<string, Agent> {
    map["B" := Agent(At("z1"), 100, 4, 2018, [("z2", 5.0)]),
        "C" := Agent(At("z1"), 100, 4, 2019, [("z2", 5.0)])]
  }

  function MoverBook(mover: string): Book {
    Book(map["z1" := [mover], "z2" := []], [], [mover])
  }

  /** As written, the move of `B` to `z2` fails on the attribute read; the
      corrected admission moves it. */
  lemma RelocationAttributeExample()
    ensures AdmitAsWritten(MoverBook("B"), MoverAgents(), "B", "z2", 2019) == Err(AttributeError("B"))
    ensures Admit(MoverBook("B"), MoverAgents(), "B", "z2") == Ok(Book(map["z1" := [], "z2" := ["B"]], [], []))
  {
    var b1 := Admit(MoverBook("B"), MoverAgents(), "B", "z2").value;
    assert b1.members == map["z1" := [], "z2" := ["B"]];
  }

  /** As written, `C` is taken for a new household: it joins `z2` without
      leaving `z1` and then fails deleting itself from the unassigned
      queue; the corrected admission moves it from the queue it is in. */
  lemma YearBranchExample()
    ensures AdmitAsWritten(MoverBook("C"), MoverAgents(), "C", "z2", 2019) == Err(KeyError("C"))
    ensures Admit(MoverBook("C"), MoverAgents(), "C", "z2") == Ok(Book(map["z1" := [], "z2" := ["C"]], [], []))
  {
    var b1 := Admit(MoverBook("C"), MoverAgents(), "C", "z2").value;
    assert b1.members == map["z1" := [], "z2" := ["C"]];
  }

  // ---------------------------------------------------------------------
  // Clearing one zone
  // ---------------------------------------------------------------------

  /** The accepted proposers admitted in order, as written. */
  function AdmitAllAsWritten(b: Book, agents: map<string, Agent>, acc: seq<Proposal>, bg: string, year: int)
    : (r: Result<Book>)
    requires bg in b.members
    ensures r.Ok? ==> r.value.members.Keys == b.members.Keys
    decreases |acc|
  {
    if |acc| == 0 then Ok(b)
    else
      match AdmitAsWritten(b, agents, acc[0].agent, bg, year)
      case Err(e) => Err(e)
      case Ok(b1) => AdmitAllAsWritten(b1, agents, acc[1..], bg, year)
  }

  /** Zone `z` clearing as written. With room for all its proposers the
      loop runs over `bg_demand[bg]` and deletes each admitted household
      from it, so the loop fails as soon as the first admission is done;
      without room it runs over a separate dictionary of the accepted
      proposers. */
  function ClearZoneAsWritten(b: Book, agents: map<string, Agent>, zones: map<string, Zone>, ps: seq<Proposal>,
                              z: string, year: int): (r: Result<Book>)
    requires z in zones && z in b.members
    ensures zones[z].availableUnits >= |ProposersFor(ps, z)| > 0 ==> r.Err?
  {
    var pz := ProposersFor(ps, z);
    if zones[z].availableUnits >= |pz| then
      if |pz| == 0 then Ok(b)
      else
        match AdmitAsWritten(b, agents, pz[0].agent, z, year)
        case Err(e) => Err(e)
        case Ok(_) => Err(DictChangedSize)
    else AdmitAllAsWritten(b, agents, Accepted(pz, zones[z].availableUnits), z, year)
  }

  /** Household `A` is new this year and proposes for `z1`, which has one
      free unit. */
  function NewcomerAgents(): map<string, Agent> {
    map["A" := Agent(Unplaced, 100, 4, 2019, [("z1", 1.0)])]
  }

  function OneUnitZones(): map<string, Zone> {
    map["z1" := NewBlockGroup(1.0, 0).(availableUnits := 1)]
  }

  /** As written, `A` is admitted and the loop then fails on the resized
      dictionary; the corrected clearing admits `A` and empties the
      queue. */
  lemma IterationDeletionExample()
    ensures ClearZoneAsWritten(Book(map["z1" := []], ["A"], []), NewcomerAgents(), OneUnitZones(),
                               [Proposal("A", "z1", 1.0)], "z1", 2019) == Err(DictChangedSize)
    ensures ClearZones(Book(map["z1" := []], ["A"], []), NewcomerAgents(), OneUnitZones(),
                       [Proposal("A", "z1", 1.0)], ["z1"]) == Ok(Book(map["z1" := ["A"]], [], []))
  {
    var ps := [Proposal("A", "z1", 1.0)];
    var b := Book(map["z1" := []], ["A"], []);
    assert ProposersFor(ps, "z1") == ps;
    assert ZoneAccepted(ps, OneUnitZones(), "z1") == ps;
    assert ZoneMatches(ps, OneUnitZones(), "z1") == [Match("A", "z1")];
    var b1 := Admit(b, NewcomerAgents(), "A", "z1").value;
    assert b1.members == map["z1" := ["A"]];
    assert b1.unassigned == [];
    assert AdmitAll(b, NewcomerAgents(), [Match("A", "z1")]) == Ok(b1);
  }
}
