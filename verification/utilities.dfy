/** A household's scored candidate zones (`hh_utilities`). How a score is
    computed is not part of this model: it is a function of the household
    and the zone that the caller supplies. Evaluating a zone stores its
    score under the zone's name, replacing an earlier score for the same
    zone, as assigning to a dictionary key does. */
module Utilities {
  import opened Dicts
  import opened Ranking

  /** `score(agent, zone)`: the utility household `agent` finds in `zone`. */
  type Score = (string, string) -> real

  predicate HasZone(u: seq<Candidate>, z: string) {
    exists i :: 0 <= i < |u| && u[i].0 == z
  }

  /** `hh_utilities[z] = v`. */
  function PutScore(u: seq<Candidate>, z: string, v: real): (r: seq<Candidate>)
    ensures DistinctZones(u) ==> DistinctZones(r)
    ensures (z, v) in r
    ensures forall c :: c in r ==> c == (z, v) || (c in u && c.0 != z)
    ensures forall c :: c in u && c.0 != z ==> c in r
    ensures |r| == if HasZone(u, z) then |u| else |u| + 1
  {
    if HasZone(u, z) then
      var r := seq(|u|, i requires 0 <= i < |u| => if u[i].0 == z then (z, v) else u[i]);
      assert forall c :: c in u && c.0 != z ==> c in r by {
        forall c | c in u && c.0 != z
          ensures c in r
        {
          var i :| 0 <= i < |u| && u[i] == c;
          assert r[i] == c;
        }
      }
      var i :| 0 <= i < |u| && u[i].0 == z;
      assert r[i] == (z, v);
      r
    else
      u + [(z, v)]
  }

  /** The household `agent` evaluates each zone of `sampled` in order. */
  function Evaluate(u: seq<Candidate>, sampled: seq<string>, agent: string, score: Score)
    : (r: seq<Candidate>)
    ensures DistinctZones(u) ==> DistinctZones(r)
    ensures forall j :: 0 <= j < |sampled| ==> (sampled[j], score(agent, sampled[j])) in r
    ensures forall c :: c in r ==> (c.0 in sampled && c.1 == score(agent, c.0)) || (c in u && c.0 !in sampled)
    ensures forall c :: c in u && c.0 !in sampled ==> c in r
    decreases |sampled|
  {
    if |sampled| == 0 then u
    else
      var z := sampled[|sampled| - 1];
      var front := sampled[..|sampled| - 1];
      assert forall j :: 0 <= j < |front| ==> front[j] == sampled[j];
      assert sampled == front + [z];
      PutScore(Evaluate(u, front, agent, score), z, score(agent, z))
  }

  /** The zones a household has scored. */
  function ScoredZones(u: seq<Candidate>): set<string> {
    set c | c in u :: c.0
  }

  /** After an evaluation the household has scored exactly the zones it
      had scored before and the sampled ones. */
  lemma EvaluateScoredZones(u: seq<Candidate>, sampled: seq<string>, agent: string, score: Score)
    ensures ScoredZones(Evaluate(u, sampled, agent, score)) == ScoredZones(u) + set z | z in sampled
  {
    var r := Evaluate(u, sampled, agent, score);
    forall z | z in sampled
      ensures z in ScoredZones(r)
    {
      var j :| 0 <= j < |sampled| && sampled[j] == z;
      assert (z, score(agent, z)) in r;
    }
    forall z | z in ScoredZones(u) && z !in sampled
      ensures z in ScoredZones(r)
    {
      var c :| c in u && c.0 == z;
      assert c in r;
    }
  }
}
