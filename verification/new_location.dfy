/** `NewAgentLocation.run`: every household awaiting a first home scores its
    own sample of free units. */
module NewLocation {
  import opened Dicts
  import opened Results
  import opened Records
  import opened Sampling
  import opened Utilities
  import opened Relocation

  /** The zones household `b` draws from the unit list: `bg_sample_size`
      entries at distinct positions, drawn under its name. A size the list
      cannot supply draws nothing here; the engine fails on it first. */
  function AgentSample(unitList: seq<string>, b: string, bgSampleSize: int, sample: Sampler): (r: seq<string>)
    requires SamplerOk(sample)
  {
    if 0 <= bgSampleSize <= |unitList| then Select(unitList, sample(b, |unitList|, bgSampleSize)) else []
  }

  /** A draw holds exactly `bg_sample_size` zones, each from the list and
      none more often than the list holds free units in it. */
  lemma AgentSampleFacts(unitList: seq<string>, b: string, bgSampleSize: int, sample: Sampler)
    requires SamplerOk(sample) && 0 <= bgSampleSize <= |unitList|
    ensures |AgentSample(unitList, b, bgSampleSize, sample)| == bgSampleSize
    ensures multiset(AgentSample(unitList, b, bgSampleSize, sample)) <= multiset(unitList)
  {
    SelectSubMultiset(unitList, sample(b, |unitList|, bgSampleSize));
  }

  /** `NewAgentLocation.run`: `random.sample` fails as soon as one household
      asks for more entries than the list holds, or for a negative number,
      so only an empty queue gets through such a size. */
  function NewAgentLocation(s: Landscape, bgSampleSize: int, sample: Sampler, score: Score): (r: Result<Landscape>)
    requires SamplerOk(sample)
    ensures r.Err? <==> |s.unassigned| > 0 && (bgSampleSize < 0 || bgSampleSize > |s.unitList|)
    ensures r.Ok? ==> r.value.(agents := s.agents) == s
    ensures r.Ok? ==> r.value.agents.Keys == s.agents.Keys
  {
    if |s.unassigned| > 0 && (bgSampleSize < 0 || bgSampleSize > |s.unitList|) then Err(SampleLargerThanPopulation)
    else
      Ok(s.(agents := ScoreQueue(s.agents, s.unassigned,
                                 b => AgentSample(s.unitList, b, bgSampleSize, sample), score)))
  }

  /** Each waiting household scores every zone of its own sample and keeps
      its other scores; relocating and placed households, and everything but
      the scores, stay as they were. */
  lemma NewAgentLocationFacts(s: Landscape, bgSampleSize: int, sample: Sampler, score: Score, b: string)
    requires SamplerOk(sample) && 0 <= bgSampleSize <= |s.unitList|
    requires b in s.agents
    ensures var r := NewAgentLocation(s, bgSampleSize, sample, score).value;
      var mine := AgentSample(s.unitList, b, bgSampleSize, sample);
      && (b !in s.unassigned ==> r.agents[b] == s.agents[b])
      && (b in s.unassigned ==>
            && r.agents[b].(utilities := s.agents[b].utilities) == s.agents[b]
            && (forall z :: z in mine ==> (z, score(b, z)) in r.agents[b].utilities)
            && (forall c :: c in s.agents[b].utilities && c.0 !in mine ==> c in r.agents[b].utilities))
  {
    var mine := AgentSample(s.unitList, b, bgSampleSize, sample);
    var r := NewAgentLocation(s, bgSampleSize, sample, score).value;
    if b in s.unassigned {
      var u := r.agents[b].utilities;
      assert u == Evaluate(s.agents[b].utilities, mine, b, score);
      forall z | z in mine
        ensures (z, score(b, z)) in u
      {
        var j :| 0 <= j < |mine| && mine[j] == z;
      }
    }
  }
}
