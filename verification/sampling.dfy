/** The random draws the engines make, as choices the caller supplies.
    `random.sample(population, k)` returns `k` elements at distinct
    positions; `random.choice(population)` returns the element at one
    position. A draw is identified by a key (the zone or agent it is made
    for), so that a run's draws can be fixed in advance. */
module Sampling {
  import opened Dicts

  /** Positions a sample of `k` out of `n` may take: `k` of them, distinct,
      all in range. */
  predicate ValidSample(idx: seq<nat>, n: nat, k: nat) {
    |idx| == k && Distinct(idx) && forall i :: 0 <= i < |idx| ==> idx[i] < n
  }

  /** `sample(key, n, k)`: the positions drawn for key `key` from a
      population of `n` elements. */
  type Sampler = (string, nat, nat) -> seq<nat>

  /** The sampler behaves as `random.sample` does whenever the draw is
      possible. */
  ghost predicate SamplerOk(sample: Sampler) {
    forall key, n: nat, k: nat :: k <= n ==> ValidSample(sample(key, n, k), n, k)
  }

  /** `choose(key, n)`: the position drawn for key `key` from `n` elements. */
  type Chooser = (string, nat) -> nat

  ghost predicate ChooserOk(choose: Chooser) {
    forall key, n: nat :: n > 0 ==> choose(key, n) < n
  }

  /** `pick(names, m)`: `random.sample` of `m` agents out of the registered
      ones, given by name. */
  type Picker = (set<string>, nat) -> seq<string>

  ghost predicate PickerOk(pick: Picker) {
    forall names: set<string>, m: nat :: m <= |names| ==>
      var r := pick(names, m);
      |r| == m && Distinct(r) && forall x :: x in r ==> x in names
  }

  /** The elements a sample of distinct positions picks are distinct when
      the population's are. */
  lemma SelectDistinct<T>(s: seq<T>, idx: seq<nat>)
    requires Distinct(s) && Distinct(idx)
    requires forall i :: 0 <= i < |idx| ==> idx[i] < |s|
    ensures Distinct(Select(s, idx))
  {
  }
}
