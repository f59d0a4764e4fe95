/**
  The weighted sampler the step draws parking zones with. Its generator is
  not modelled; it is an oracle: a function of the fixed random state, the
  number of draws, the candidate zone ids and their weights.
 */
module Sampling {
  import opened Tables

  /** (random state, number of draws, candidate zone ids, weights) to draws. */
  type Sampler = (int, nat, seq<ZoneId>, seq<nat>) -> seq<ZoneId>

  /** `z` is a candidate whose weight is positive. */
  predicate Drawable(z: ZoneId, candidates: seq<ZoneId>, weights: seq<nat>) {
    exists i :: 0 <= i < |candidates| && i < |weights| && candidates[i] == z && weights[i] > 0
  }

  /**
    The oracle contract. Given as many weights as candidates and a positive
    total weight, the sampler returns exactly `n` draws, each a candidate of
    positive weight (a zero-weight zone is never drawn). Being a function, it
    returns the same draws whenever it is called with the same arguments.
   */
  ghost predicate Sound(sample: Sampler) {
    forall randomState: int, n: nat, candidates: seq<ZoneId>, weights: seq<nat>
      {:trigger sample(randomState, n, candidates, weights)} ::
      |candidates| == |weights| && Total(weights) > 0 ==>
        |sample(randomState, n, candidates, weights)| == n &&
        forall k :: 0 <= k < n ==>
          Drawable(sample(randomState, n, candidates, weights)[k], candidates, weights)
  }

  /** The first candidate whose weight is positive. */
  function FirstDrawable(candidates: seq<ZoneId>, weights: seq<nat>): (z: ZoneId)
    requires |candidates| == |weights| && Total(weights) > 0
    ensures Drawable(z, candidates, weights)
  {
    if weights[0] > 0 then candidates[0]
    else
      var z := FirstDrawable(candidates[1..], weights[1..]);
      ghost var i :| 0 <= i < |candidates| - 1 && candidates[1..][i] == z && weights[1..][i] > 0;
      assert candidates[i + 1] == z && weights[i + 1] > 0;
      z
  }

  /** A sampler that always draws the first candidate of positive weight. */
  function FirstDrawableSampler(): Sampler {
    (randomState: int, n: nat, candidates: seq<ZoneId>, weights: seq<nat>) =>
      if |candidates| == |weights| && Total(weights) > 0
      then seq(n, _ => FirstDrawable(candidates, weights))
      else []
  }

  /** The oracle contract can be met, so assuming it excludes no run. */
  lemma SoundSamplerExists()
    ensures Sound(FirstDrawableSampler())
  {
    var sample := FirstDrawableSampler();
    forall randomState: int, n: nat, candidates: seq<ZoneId>, weights: seq<nat> |
      |candidates| == |weights| && Total(weights) > 0
      ensures |sample(randomState, n, candidates, weights)| == n &&
        forall k :: 0 <= k < n ==>
          Drawable(sample(randomState, n, candidates, weights)[k], candidates, weights)
    {
      var draws := sample(randomState, n, candidates, weights);
      assert draws == seq(n, _ => FirstDrawable(candidates, weights));
    }
  }
}
