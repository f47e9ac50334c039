/** The exploring pruner and the updater that learns from it: what a recorded step contains, when
    the updater accepts one, and the clipped update it leads to. */
module PrunerSteps {
  import opened Wrappers
  import opened Ranking
  import opened PlackettLuce

  datatype RLStep = RLStep(
    beamWidth: nat, scores: seq<real>, sampled: seq<nat>, returned: seq<nat>,
    temperature: real, seed: int, probability: real)

  /** How the exponential enters: a positive weight for every score and temperature. */
  ghost predicate PositiveWeight(weight: (real, real) -> real) {
    forall s, t :: weight(s, t) > 0.0
  }

  function Weights(weight: (real, real) -> real, scores: seq<real>, temperature: real): nat -> real {
    (i: nat) => if i < |scores| then weight(scores[i], temperature) else weight(0.0, temperature)
  }

  lemma WeightsPositive(weight: (real, real) -> real, scores: seq<real>, temperature: real)
    requires PositiveWeight(weight)
    ensures Positive(Weights(weight, scores, temperature))
  {
    forall i: nat ensures Weights(weight, scores, temperature)(i) > 0.0 {
      var score := if i < |scores| then scores[i] else 0.0;
      assert weight(score, temperature) > 0.0;
    }
  }

  /** Each node enters with the weight of its own score at the step's temperature: the odds of two
      nodes are those of their weights, whatever else is left. */
  lemma OddsAreWeights(weight: (real, real) -> real, scores: seq<real>, temperature: real, available: seq<nat>, i: nat,
                       j: nat)
    requires PositiveWeight(weight) && available != [] && i < |scores| && j < |scores|
    ensures var chance := Softmax(Weights(weight, scores, temperature));
      chance(available, i) * weight(scores[j], temperature) == chance(available, j) * weight(scores[i], temperature)
  {
  }

  // ----- survivors in score order ------------------------------------------------------

  function Survivors(order: seq<nat>, selected: seq<nat>): (r: seq<nat>)
    ensures forall i :: i in r <==> i in order && i in selected
  {
    if order == [] then []
    else
      assert order == order[..|order| - 1] + [order[|order| - 1]];
      var front := Survivors(order[..|order| - 1], selected);
      if order[|order| - 1] in selected then front + [order[|order| - 1]] else front
  }

  lemma {:induction false} SurvivorsSorted(keys: seq<real>, order: seq<nat>, selected: seq<nat>)
    requires Indices(order, |keys|) && Sorted(keys, order)
    ensures Indices(Survivors(order, selected), |keys|) && Sorted(keys, Survivors(order, selected))
  {
    if order != [] {
      var front, last := order[..|order| - 1], order[|order| - 1];
      SurvivorsSorted(keys, front, selected);
      var r := Survivors(front, selected);
      forall a | 0 <= a < |r| ensures Before(keys, r[a], last) {
        assert r[a] in front;
        var b :| 0 <= b < |front| && front[b] == r[a];
        assert Before(keys, order[b], order[|order| - 1]);
      }
    }
  }

  /** The survivors in score order are the one sorted list of the selected set. */
  lemma SurvivorsAreDetermined(keys: seq<real>, selected: seq<nat>, returned: seq<nat>)
    requires Indices(selected, |keys|) && Indices(returned, |keys|)
    ensures returned == Survivors(Ranked(keys), selected)
            <==> Sorted(keys, returned) && forall i :: i in returned <==> i in selected
  {
    RankedSorted(keys);
    SurvivorsSorted(keys, Ranked(keys), selected);
    var r := Survivors(Ranked(keys), selected);
    forall i | i in selected ensures i in r {
      var a :| 0 <= a < |selected| && selected[a] == i;
    }
    if Sorted(keys, returned) && forall i :: i in returned <==> i in selected {
      SortedUnique(keys, returned, r);
    }
  }

  lemma {:induction false} SortedCount(keys: seq<real>, r: seq<nat>, s: seq<nat>)
    requires Indices(r, |keys|) && Sorted(keys, r) && NoRepeats(s) && forall i :: i in r <==> i in s
    ensures |r| == |s|
  {
    forall a, b | 0 <= a < b < |r| ensures r[a] != r[b] {
      SortedDistinct(keys, r, a, b);
    }
    CountDistinct(r);
    CountDistinct(s);
    var rs, ss := set a | 0 <= a < |r| :: r[a], set a | 0 <= a < |s| :: s[a];
    forall a | 0 <= a < |r| ensures r[a] in ss {
      assert r[a] in s;
    }
    forall a | 0 <= a < |s| ensures s[a] in rs {
      assert s[a] in r;
    }
    assert rs == ss;
  }

  // ----- exploring ---------------------------------------------------------------------

  /** Selects `k` nodes. When there is a real choice, it samples an order, returns the sampled
      set in score order and records the step; otherwise nothing is recorded. */
  method Select(scores: seq<real>, k: nat, beamWidth: nat, weight: (real, real) -> real, temperature: real, seed: int,
                thresholds: seq<real>)
    returns (returned: seq<nat>, step: Option<RLStep>)
    requires PositiveWeight(weight) && k > 0 && |thresholds| == k
    requires forall i :: 0 <= i < k ==> 0.0 <= thresholds[i] < 1.0
    ensures step.None? <==> |scores| <= k
    ensures step.None? ==> returned == Ranked(scores)
    ensures step.Some? ==> returned == step.value.returned && |returned| == k
    ensures step.Some? ==> Sampled(Weights(weight, scores, temperature), |scores|, step.value.sampled, thresholds)
    ensures step.Some? && temperature > 0.0 ==>
      (Honest(step.value, scores, temperature, seed, weight) <==> k == beamWidth)
  {
    var order := Ranked(scores);
    if |scores| <= k {
      return order, None;
    }
    var w := Weights(weight, scores, temperature);
    WeightsPositive(weight, scores, temperature);
    var sampled := SampleOrder(w, |scores|, k, thresholds);
    returned := Survivors(order, sampled);
    RankedSorted(scores);
    SurvivorsSorted(scores, order, sampled);
    SurvivorsAreDetermined(scores, sampled, returned);
    SortedCount(scores, returned, sampled);
    assert ValidIndices(|scores|, sampled);
    var scored;
    ghost var again;
    scored, again := ScoreSample(w, i => 0.0, 1.0, |scores|, sampled);
    assert again == sampled;
    step := Some(RLStep(beamWidth, scores, sampled, returned, temperature, seed, scored.value.0));
  }

  // ----- validating --------------------------------------------------------------------

  /** A step the behaviour policy can really have taken: an actual choice of `beamWidth` distinct
      nodes, returned in score order, with the probability the policy gives that order. */
  ghost predicate Honest(step: RLStep, scores: seq<real>, temperature: real, seed: int, weight: (real, real) -> real) {
    && step.scores == scores
    && 0 < step.beamWidth < |scores| && |step.sampled| == step.beamWidth
    && Indices(step.sampled, |scores|) && NoRepeats(step.sampled)
    && Indices(step.returned, |scores|) && Sorted(scores, step.returned)
    && (forall i :: i in step.returned <==> i in step.sampled)
    && step.temperature == temperature > 0.0 && step.seed == seed
    && step.probability == Probability(Softmax(Weights(weight, scores, temperature)), Initial(|scores|), step.sampled)
  }

  method CheckIndices(s: seq<nat>, n: nat) returns (ok: bool)
    ensures ok <==> Indices(s, n) && NoRepeats(s)
  {
    var seen: set<nat> := {};
    for i := 0 to |s|
      invariant Indices(s[..i], n) && NoRepeats(s[..i]) && seen == set a | 0 <= a < i :: s[a]
    {
      if s[i] >= n || s[i] in seen {
        return false;
      }
      seen := seen + {s[i]};
    }
    assert s[..|s|] == s;
    return true;
  }

  /** The updater's check of one recorded step, against scores it computed itself. It accepts
      exactly the honest steps. */
  method ValidateStep(step: RLStep, recomputed: seq<real>, temperature: real, seed: int, weight: (real, real) -> real)
    returns (ok: bool)
    requires PositiveWeight(weight)
    ensures ok <==> Honest(step, recomputed, temperature, seed, weight)
  {
    if step.scores != recomputed || step.beamWidth == 0 || |recomputed| <= step.beamWidth {
      return false;
    }
    var sampledOk := CheckIndices(step.sampled, |recomputed|);
    if !sampledOk || |step.sampled| != step.beamWidth {
      return false;
    }
    var returnedOk := CheckIndices(step.returned, |recomputed|);
    HonestIsClean(step, recomputed, temperature, seed, weight);
    if !returnedOk || |step.returned| != |step.sampled| {
      return false;
    }
    SurvivorsAreDetermined(recomputed, step.sampled, step.returned);
    if step.returned != Survivors(Ranked(recomputed), step.sampled) {
      return false;
    }
    if step.temperature <= 0.0 || step.temperature != temperature || step.seed != seed {
      return false;
    }
    assert ValidIndices(|recomputed|, step.sampled);
    var scored;
    ghost var again;
    scored, again := ScoreSample(Weights(weight, recomputed, temperature), i => 0.0, 1.0, |recomputed|, step.sampled);
    assert again == step.sampled;
    ok := step.probability == scored.value.0;
  }

  lemma HonestIsClean(step: RLStep, scores: seq<real>, temperature: real, seed: int, weight: (real, real) -> real)
    ensures Honest(step, scores, temperature, seed, weight) ==>
      NoRepeats(step.returned) && |step.returned| == |step.sampled|
  {
    if Honest(step, scores, temperature, seed, weight) {
      SortedCount(scores, step.returned, step.sampled);
      forall a, b | 0 <= a < b < |step.returned| ensures step.returned[a] != step.returned[b] {
        SortedDistinct(scores, step.returned, a, b);
      }
    }
  }

  // ----- the clipped update ------------------------------------------------------------

  function Squares(v: seq<real>): real {
    if v == [] then 0.0 else Squares(v[..|v| - 1]) + v[|v| - 1] * v[|v| - 1]
  }

  function Scaled(v: seq<real>, f: real): (r: seq<real>)
    ensures |r| == |v| && forall i :: 0 <= i < |v| ==> r[i] == v[i] * f
  {
    seq(|v|, i requires 0 <= i < |v| => v[i] * f)
  }

  lemma {:induction false} ScaledSquares(v: seq<real>, f: real)
    ensures Squares(Scaled(v, f)) == Squares(v) * (f * f)
  {
    if v == [] {
      assert Scaled(v, f) == [];
    } else {
      var front, x := v[..|v| - 1], v[|v| - 1];
      ScaledSquares(front, f);
      ScaledFront(v, f);
      ScaledTerm(Squares(front), x, f);
    }
  }

  lemma ScaledFront(v: seq<real>, f: real)
    requires v != []
    ensures Scaled(v, f) == Scaled(v[..|v| - 1], f) + [v[|v| - 1] * f]
  {
    var front := v[..|v| - 1];
    forall i | 0 <= i < |front| ensures Scaled(v, f)[i] == Scaled(front, f)[i] {
      assert front[i] == v[i];
    }
  }

  lemma ScaledTerm(total: real, x: real, f: real)
    ensures total * (f * f) + (x * f) * (x * f) == (total + x * x) * (f * f)
  {
    assert (x * f) * (x * f) == x * x * (f * f);
  }

  /** The applied gradient: the raw one, scaled down to the clip when it is longer. `norm` is the
      raw gradient's length. It keeps its direction and never exceeds the clip. */
  method Clip(gradient: seq<real>, norm: real, clip: real) returns (applied: seq<real>, ghost factor: real)
    requires norm >= 0.0 && norm * norm == Squares(gradient) && clip > 0.0
    ensures 0.0 < factor <= 1.0 && applied == Scaled(gradient, factor)
    ensures Squares(applied) <= clip * clip
    ensures norm <= clip ==> applied == gradient && factor == 1.0
    ensures norm > clip ==> Squares(applied) == clip * clip
  {
    if norm > clip {
      var f := clip / norm;
      factor := f;
      applied := Scaled(gradient, f);
      ScaledSquares(gradient, f);
      ClipFactor(norm, clip, f);
    } else {
      factor := 1.0;
      applied := gradient;
      assert Scaled(gradient, 1.0) == gradient;
      assert norm * norm <= clip * clip;
    }
  }

  lemma ClipFactor(norm: real, clip: real, f: real)
    requires norm > clip > 0.0 && f == clip / norm
    ensures 0.0 < f <= 1.0 && norm * norm * (f * f) == clip * clip
  {
    assert f * norm == clip;
    assert norm * norm * (f * f) == (f * norm) * (f * norm);
  }
}
