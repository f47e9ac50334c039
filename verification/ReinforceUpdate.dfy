/** One policy-gradient update of the pruner's coefficients: the reward-weighted mean of the
    episodes' gradients, clipped and scaled by the learning rate. */
module ReinforceUpdate {
  import opened Wrappers
  import opened PrunerSteps
  import opened PlackettLuce
  import opened Supergradient

  type Vector = seq<real>

  /** The linear policy: a node's score is the sum of coefficient times scaled feature, and its
      weight the exponential of the score over the temperature. */
  datatype Policy = Policy(coefficients: Vector, scale: Vector, exp: real -> real)

  /** A recorded step: the features of its nodes, the temperature, and the sampled indices. */
  datatype Step = Step(features: seq<Vector>, temperature: real, sampled: seq<int>)

  datatype Episode = Episode(reward: real, steps: seq<Step>)

  function Width(p: Policy): nat {
    |p.coefficients|
  }

  predicate ValidPolicy(p: Policy) {
    |p.scale| == Width(p) && forall j :: 0 <= j < Width(p) ==> p.scale[j] > 0.0
  }

  /** The scaled feature `j` of every node. */
  function FeatureOf(p: Policy, step: Step, j: nat): nat -> real {
    (i: nat) => if i < |step.features| && j < |step.features[i]| && j < |p.scale| && p.scale[j] > 0.0
                then step.features[i][j] / p.scale[j] else 0.0
  }

  /** Every recorded feature is read in units of its scale. */
  lemma FeatureInUnits(p: Policy, step: Step, i: nat, j: nat)
    requires i < |step.features| && j < |step.features[i]| && j < |p.scale| && p.scale[j] > 0.0
    ensures FeatureOf(p, step, j)(i) * p.scale[j] == step.features[i][j]
  {
  }

  /** The first `n` terms of a node's score. */
  function ScoreUpTo(p: Policy, step: Step, i: nat, n: nat): real
    requires n <= Width(p)
  {
    if n == 0 then 0.0
    else ScoreUpTo(p, step, i, n - 1) + Times(p.coefficients[n - 1], FeatureOf(p, step, n - 1)(i))
  }

  function Inverse(step: Step): real {
    if step.temperature > 0.0 then 1.0 / step.temperature else 0.0
  }

  function WeightOf(p: Policy, step: Step): nat -> real {
    (i: nat) => p.exp(Times(ScoreUpTo(p, step, i, Width(p)), Inverse(step)))
  }

  /** A node's weight is the exponential of its score in units of the temperature. */
  lemma WeightInUnits(p: Policy, step: Step, i: nat) returns (x: real)
    requires step.temperature > 0.0
    ensures WeightOf(p, step)(i) == p.exp(x) && x * step.temperature == ScoreUpTo(p, step, i, Width(p))
  {
    var score := ScoreUpTo(p, step, i, Width(p));
    x := Times(score, Inverse(step));
    assert x == score * (1.0 / step.temperature);
  }

  predicate Rectangular(step: Step, width: nat) {
    forall i :: 0 <= i < |step.features| ==> |step.features[i]| == width
  }

  /** Some nodes with a feature for each coefficient, a positive temperature, and some of the nodes
      sampled, none twice. */
  ghost predicate ValidStep(step: Step, p: Policy) {
    && step.temperature > 0.0 && step.features != [] && Rectangular(step, Width(p))
    && step.sampled != [] && ValidIndices(|step.features|, step.sampled)
  }

  /** The sampled indices, which are not negative in a valid step. */
  function Order(sampled: seq<int>): (r: seq<nat>)
    ensures |r| == |sampled| && forall i :: 0 <= i < |r| && sampled[i] >= 0 ==> r[i] == sampled[i]
  {
    seq(|sampled|, i requires 0 <= i < |sampled| => if sampled[i] >= 0 then sampled[i] else 0)
  }

  /** The gradient of the log-probability of what was sampled: for each coefficient, the
      Plackett-Luce gradient of the corresponding feature. */
  ghost function StepGradient(step: Step, p: Policy): (r: Vector)
    requires ValidStep(step, p)
    ensures |r| == Width(p)
    ensures forall j :: 0 <= j < Width(p) ==> r[j] == CoordinateGradient(step, p, j)
  {
    seq(Width(p), j requires 0 <= j < Width(p) => CoordinateGradient(step, p, j))
  }

  function CoordinateGradient(step: Step, p: Policy, j: nat): real {
    Gradient(PickGradient(WeightOf(p, step), FeatureOf(p, step, j), Inverse(step)), Initial(|step.features|),
             Order(step.sampled))
  }

  ghost predicate Shaped(episodes: seq<Episode>, p: Policy) {
    forall e, step :: e in episodes && step in e.steps ==> ValidStep(step, p)
  }

  function Zero(width: nat): (r: Vector)
    ensures |r| == width && forall j :: 0 <= j < width ==> r[j] == 0.0
  {
    seq(width, _ => 0.0)
  }

  /** `total` plus `f` times `v`. */
  function Added(total: Vector, v: Vector, f: real): (r: Vector)
    requires |total| == |v|
    ensures |r| == |total| && forall j :: 0 <= j < |r| ==> r[j] == total[j] + Times(v[j], f)
  {
    seq(|total|, j requires 0 <= j < |total| => total[j] + Times(v[j], f))
  }

  method AddInto(total: Vector, v: Vector, f: real) returns (r: Vector)
    requires |total| == |v|
    ensures r == Added(total, v, f)
  {
    r := total;
    for j := 0 to |v|
      invariant |r| == |total|
      invariant forall x :: 0 <= x < |r| ==> r[x] == if x < j then total[x] + Times(v[x], f) else total[x]
    {
      r := r[j := r[j] + Times(v[j], f)];
    }
  }

  /** The gradient of an episode: the sum over its steps. */
  ghost function StepSum(steps: seq<Step>, p: Policy): (r: Vector)
    requires forall q :: q in steps ==> ValidStep(q, p)
    ensures |r| == Width(p)
  {
    if steps == [] then Zero(Width(p))
    else Added(StepSum(steps[..|steps| - 1], p), StepGradient(steps[|steps| - 1], p), 1.0)
  }

  /** The sum over the episodes, each weighted by its reward. */
  ghost function RewardSum(episodes: seq<Episode>, p: Policy): (r: Vector)
    requires Shaped(episodes, p)
    ensures |r| == Width(p)
  {
    if episodes == [] then Zero(Width(p))
    else
      var last := episodes[|episodes| - 1];
      Added(RewardSum(episodes[..|episodes| - 1], p), StepSum(last.steps, p), last.reward)
  }

  /** The reward-weighted mean of the episodes' log-probability gradients. */
  ghost function RawGradient(episodes: seq<Episode>, p: Policy): (r: Vector)
    requires Shaped(episodes, p) && episodes != []
    ensures |r| == Width(p)
  {
    Scaled(RewardSum(episodes, p), 1.0 / |episodes| as real)
  }

  /** The gradient of one step; a step that is not valid is refused. */
  method GradientOf(step: Step, p: Policy) returns (r: Option<Vector>)
    ensures r.Some? <==> ValidStep(step, p)
    ensures r.Some? ==> r.value == StepGradient(step, p)
  {
    var n := |step.features|;
    if step.temperature <= 0.0 || n == 0 || !Rectangular(step, Width(p)) || step.sampled == [] {
      return None;
    }
    var checked, _ := ScoreSample(WeightOf(p, step), FeatureOf(p, step, 0), Inverse(step), n, step.sampled);
    if checked.None? {
      return None;
    }
    var gradient: Vector := [];
    for j := 0 to Width(p)
      invariant |gradient| == j && forall x :: 0 <= x < j ==> gradient[x] == CoordinateGradient(step, p, x)
    {
      var scored, order := ScoreSample(WeightOf(p, step), FeatureOf(p, step, j), Inverse(step), n, step.sampled);
      assert order == Order(step.sampled);
      gradient := gradient + [scored.value.1];
    }
    return Some(gradient);
  }

  method SumSteps(steps: seq<Step>, p: Policy) returns (r: Option<Vector>)
    ensures r.Some? <==> forall q :: q in steps ==> ValidStep(q, p)
    ensures r.Some? ==> r.value == StepSum(steps, p)
  {
    var total := Zero(Width(p));
    for i := 0 to |steps|
      invariant forall q :: q in steps[..i] ==> ValidStep(q, p)
      invariant total == StepSum(steps[..i], p)
    {
      assert steps[..i + 1] == steps[..i] + [steps[i]] && steps[..i + 1][..i] == steps[..i];
      var gradient := GradientOf(steps[i], p);
      if gradient.None? {
        return None;
      }
      total := AddInto(total, gradient.value, 1.0);
    }
    assert steps[..|steps|] == steps;
    return Some(total);
  }

  method SumEpisodes(episodes: seq<Episode>, p: Policy) returns (r: Option<Vector>)
    ensures r.Some? <==> Shaped(episodes, p)
    ensures r.Some? ==> r.value == RewardSum(episodes, p)
  {
    var total := Zero(Width(p));
    for i := 0 to |episodes|
      invariant Shaped(episodes[..i], p)
      invariant total == RewardSum(episodes[..i], p)
    {
      assert episodes[..i + 1] == episodes[..i] + [episodes[i]] && episodes[..i + 1][..i] == episodes[..i];
      var episode := SumSteps(episodes[i].steps, p);
      if episode.None? {
        return None;
      }
      total := AddInto(total, episode.value, episodes[i].reward);
    }
    assert episodes[..|episodes|] == episodes;
    return Some(total);
  }

  ghost predicate IsRoot(sqrt: real -> real) {
    forall x: real :: x >= 0.0 ==> sqrt(x) >= 0.0 && Times(sqrt(x), sqrt(x)) == x
  }

  lemma {:induction false} SquaresNonNegative(v: Vector)
    ensures Squares(v) >= 0.0
  {
    if v != [] {
      SquaresNonNegative(v[..|v| - 1]);
    }
  }

  /** A change of the coefficients: a positive multiple of the raw gradient, no longer than the
      learning rate times the clip, and the full learning rate when the gradient is not longer
      than the clip. */
  ghost predicate AscentStep(raw: Vector, learningRate: real, clip: real, moved: Vector, factor: real) {
    && moved == Scaled(raw, factor) && 0.0 < factor <= learningRate
    && Squares(moved) <= Times(Times(learningRate, clip), Times(learningRate, clip))
    && (Squares(raw) <= Times(clip, clip) ==> factor == learningRate)
  }

  /** The update; without episodes, with a scale that does not fit, with an invalid step, or with
      a learning rate or clip that is not positive, it is refused. */
  method ApplyReinforceUpdate(p: Policy, episodes: seq<Episode>, learningRate: real, clip: real, sqrt: real -> real)
    returns (ok: bool, updated: Vector, ghost moved: Vector, ghost factor: real)
    requires IsRoot(sqrt)
    ensures ok <==> learningRate > 0.0 && clip > 0.0 && episodes != [] && ValidPolicy(p) && Shaped(episodes, p)
    ensures ok ==> AscentStep(RawGradient(episodes, p), learningRate, clip, moved, factor)
    ensures ok ==> |moved| == Width(p) && updated == Added(p.coefficients, moved, 1.0)
  {
    ok, updated, moved, factor := false, [], [], 0.0;
    if learningRate <= 0.0 || clip <= 0.0 || episodes == [] || !ValidPolicy(p) {
      return;
    }
    var total := SumEpisodes(episodes, p);
    if total.None? {
      return;
    }
    var raw := Scaled(total.value, 1.0 / |episodes| as real);
    var delta;
    delta, factor := ClippedStep(raw, learningRate, clip, sqrt);
    updated := AddInto(p.coefficients, delta, 1.0);
    ok, moved := true, delta;
  }

  method ClippedStep(raw: Vector, learningRate: real, clip: real, sqrt: real -> real)
    returns (delta: Vector, ghost factor: real)
    requires learningRate > 0.0 && clip > 0.0 && IsRoot(sqrt)
    ensures AscentStep(raw, learningRate, clip, delta, factor) && |delta| == |raw|
  {
    SquaresNonNegative(raw);
    var norm := sqrt(Squares(raw));
    assert Times(norm, norm) == Squares(raw);
    ghost var clipFactor;
    var applied;
    applied, clipFactor := Clip(raw, norm, clip);
    delta, factor := Scaled(applied, learningRate), Times(clipFactor, learningRate);
    DeltaOfClipped(raw, norm, clip, clipFactor, applied, learningRate);
  }

  lemma DeltaOfClipped(raw: Vector, norm: real, clip: real, f: real, applied: Vector, rate: real)
    requires clip > 0.0 && rate > 0.0 && norm >= 0.0 && Times(norm, norm) == Squares(raw)
    requires 0.0 < f <= 1.0 && applied == Scaled(raw, f) && Squares(applied) <= clip * clip
    requires norm <= clip ==> f == 1.0
    ensures Scaled(applied, rate) == Scaled(raw, Times(f, rate)) && 0.0 < Times(f, rate) <= rate
    ensures Squares(Scaled(applied, rate)) <= Times(Times(rate, clip), Times(rate, clip))
    ensures Squares(raw) <= Times(clip, clip) ==> Times(f, rate) == rate
  {
    ScaledTwice(raw, f, rate);
    FactorBounds(f, rate);
    ScaledLength(applied, rate);
    LengthBound(Squares(applied), rate, clip);
    if Squares(raw) <= Times(clip, clip) {
      RootIsShort(norm, clip);
    }
  }

  lemma Associate(x: real, f: real, g: real)
    ensures x * f * g == x * Times(f, g)
  {
  }

  lemma ScaledTwice(v: Vector, f: real, g: real)
    ensures Scaled(Scaled(v, f), g) == Scaled(v, Times(f, g))
  {
    forall j | 0 <= j < |v| ensures Scaled(Scaled(v, f), g)[j] == Scaled(v, Times(f, g))[j] {
      Associate(v[j], f, g);
    }
  }

  lemma FactorBounds(f: real, rate: real)
    requires 0.0 < f <= 1.0 && rate > 0.0
    ensures 0.0 < Times(f, rate) <= rate && (f == 1.0 ==> Times(f, rate) == rate)
  {
    assert (1.0 - f) * rate >= 0.0;
  }

  lemma ScaledLength(v: Vector, f: real)
    ensures Squares(Scaled(v, f)) == Times(Squares(v), Times(f, f))
  {
    ScaledSquares(v, f);
  }

  lemma LengthBound(squares: real, rate: real, clip: real)
    requires squares <= clip * clip
    ensures Times(squares, Times(rate, rate)) <= Times(Times(rate, clip), Times(rate, clip))
  {
    var slack, r := clip * clip - squares, rate * rate;
    assert r >= 0.0 && slack * r >= 0.0;
    assert clip * clip * r == Times(rate, clip) * Times(rate, clip);
  }

  lemma RootIsShort(norm: real, clip: real)
    requires norm >= 0.0 && clip > 0.0 && Times(norm, norm) <= Times(clip, clip)
    ensures norm <= clip
  {
  }

  // ----- what an update does -----------------------------------------------------------

  function Dot(a: Vector, b: Vector): real
    requires |a| == |b|
  {
    if a == [] then 0.0 else Dot(a[..|a| - 1], b[..|b| - 1]) + Times(a[|a| - 1], b[|b| - 1])
  }

  lemma {:induction false} DotScaled(v: Vector, f: real)
    ensures Dot(Scaled(v, f), v) == Times(f, Squares(v))
  {
    if v != [] {
      var front, x := v[..|v| - 1], v[|v| - 1];
      DotScaled(front, f);
      ScaledFront(v, f);
      assert Scaled(v, f)[..|front|] == Scaled(front, f);
    } else {
      assert Scaled(v, f) == [];
    }
  }

  /** An update never goes against the reward-weighted gradient of the policy, and it stands still
      only where that vanishes. */
  lemma UpdateAscends(p: Policy, episodes: seq<Episode>, learningRate: real, clip: real, moved: Vector, factor: real)
    requires Shaped(episodes, p) && episodes != []
    requires AscentStep(RawGradient(episodes, p), learningRate, clip, moved, factor)
    ensures var raw := RawGradient(episodes, p);
      && |moved| == |raw| && Dot(moved, raw) >= 0.0
      && (Dot(moved, raw) == 0.0 <==> forall j :: 0 <= j < |raw| ==> raw[j] == 0.0)
  {
    MultipleAscends(RawGradient(episodes, p), factor);
  }

  lemma MultipleAscends(raw: Vector, factor: real)
    requires factor > 0.0
    ensures Dot(Scaled(raw, factor), raw) >= 0.0
    ensures Dot(Scaled(raw, factor), raw) == 0.0 <==> forall j :: 0 <= j < |raw| ==> raw[j] == 0.0
  {
    DotScaled(raw, factor);
    SquaresNonNegative(raw);
    SquaresVanish(raw);
    ProductSign(factor, Squares(raw));
  }

  lemma ProductSign(x: real, y: real)
    requires x > 0.0 && y >= 0.0
    ensures Times(x, y) >= 0.0 && (Times(x, y) == 0.0 <==> y == 0.0)
  {
    if y > 0.0 {
      PositiveProduct(x, y);
    }
  }

  lemma PositiveProduct(x: real, y: real)
    requires x > 0.0 && y > 0.0
    ensures Times(x, y) > 0.0
  {
  }

  lemma SquareVanishes(x: real)
    ensures x * x >= 0.0
    ensures x * x == 0.0 <==> x == 0.0
  {
    assert x * x == Times(x, x);
    if x < 0.0 {
      PositiveProduct(0.0 - x, 0.0 - x);
      assert Times(0.0 - x, 0.0 - x) == Times(x, x);
    } else if x > 0.0 {
      PositiveProduct(x, x);
    }
  }

  lemma {:induction false} SquaresVanish(v: Vector)
    ensures Squares(v) == 0.0 <==> forall j :: 0 <= j < |v| ==> v[j] == 0.0
  {
    if v != [] {
      var front, x := v[..|v| - 1], v[|v| - 1];
      SquaresVanish(front);
      SquaresNonNegative(front);
      SquareVanishes(x);
      assert forall j :: 0 <= j < |front| ==> front[j] == v[j];
    }
  }

  lemma {:induction false} RewardSumOfBoth(a: seq<Episode>, b: seq<Episode>, p: Policy, j: nat)
    requires Shaped(a, p) && Shaped(b, p) && Shaped(a + b, p) && j < Width(p)
    ensures RewardSum(a + b, p)[j] == RewardSum(a, p)[j] + RewardSum(b, p)[j]
  {
    if b == [] {
      assert a + b == a;
    } else {
      var front := b[..|b| - 1];
      assert (a + b)[..|a + b| - 1] == a + front;
      RewardSumOfBoth(a, front, p, j);
    }
  }

  lemma ShapedPart(episodes: seq<Episode>, some: seq<Episode>, p: Policy)
    requires Shaped(episodes, p) && forall e :: e in some ==> e in episodes
    ensures Shaped(some, p)
  {
  }

  /** Taking one episode out of a batch takes its share out of the sum. */
  lemma RewardSumWithout(b: seq<Episode>, i: nat, p: Policy, j: nat)
    requires Shaped(b, p) && i < |b| && j < Width(p) && Shaped(b[..i] + b[i + 1..], p)
    requires forall q :: q in b[i].steps ==> ValidStep(q, p)
    ensures RewardSum(b, p)[j]
            == RewardSum(b[..i] + b[i + 1..], p)[j] + Times(StepSum(b[i].steps, p)[j], b[i].reward)
  {
    var front, one, back := b[..i], [b[i]], b[i + 1..];
    ShapedPart(b, front, p);
    ShapedPart(b, one, p);
    ShapedPart(b, back, p);
    ShapedPart(b, one + back, p);
    assert b == front + (one + back);
    RewardSumOfBoth(front, one + back, p, j);
    RewardSumOfBoth(one, back, p, j);
    RewardSumOfBoth(front, back, p, j);
    OneReward(b[i], p, j);
  }

  lemma OneReward(e: Episode, p: Policy, j: nat)
    requires Shaped([e], p) && j < Width(p) && forall q :: q in e.steps ==> ValidStep(q, p)
    ensures RewardSum([e], p)[j] == Times(StepSum(e.steps, p)[j], e.reward)
  {
    assert [e][..0] == [];
    assert RewardSum([], p) == Zero(Width(p));
  }

  lemma WithoutOne(a: seq<Episode>, b: seq<Episode>) returns (i: nat)
    requires a != [] && multiset(a) == multiset(b)
    ensures i < |b| && b[i] == a[|a| - 1]
    ensures multiset(a[..|a| - 1]) == multiset(b[..i] + b[i + 1..])
  {
    var last := a[|a| - 1];
    assert last in multiset(a);
    assert last in b;
    i :| i < |b| && b[i] == last;
    assert a == a[..|a| - 1] + [last];
    assert b == b[..i] + [last] + b[i + 1..];
    assert multiset(a) == multiset(a[..|a| - 1]) + multiset{last};
    assert multiset(b) == multiset(b[..i] + b[i + 1..]) + multiset{last};
    Cancelled(multiset(a[..|a| - 1]), multiset(b[..i] + b[i + 1..]), last);
  }

  lemma Cancelled(a: multiset<Episode>, b: multiset<Episode>, e: Episode)
    requires a + multiset{e} == b + multiset{e}
    ensures a == b
  {
    assert forall x :: (a + multiset{e})[x] == a[x] + multiset{e}[x];
    assert forall x :: (b + multiset{e})[x] == b[x] + multiset{e}[x];
  }

  lemma {:induction false} RewardSumOfPermuted(a: seq<Episode>, b: seq<Episode>, p: Policy, j: nat)
    requires Shaped(a, p) && Shaped(b, p) && j < Width(p) && multiset(a) == multiset(b)
    ensures RewardSum(a, p)[j] == RewardSum(b, p)[j]
    decreases |a|
  {
    assert |a| == |multiset(a)| == |multiset(b)| == |b|;
    if a != [] {
      var i := WithoutOne(a, b);
      var rest := b[..i] + b[i + 1..];
      ShapedPart(b, rest, p);
      RewardSumOfPermuted(a[..|a| - 1], rest, p, j);
      assert b[i] in b;
      RewardSumWithout(b, i, p, j);
    }
  }

  /** The order of the episodes in a batch does not matter. */
  lemma BatchOrderIsIrrelevant(a: seq<Episode>, b: seq<Episode>, p: Policy)
    requires Shaped(a, p) && Shaped(b, p) && a != [] && b != [] && multiset(a) == multiset(b)
    ensures RawGradient(a, p) == RawGradient(b, p)
  {
    assert |a| == |multiset(a)| == |multiset(b)| == |b|;
    forall j | 0 <= j < Width(p) ensures RewardSum(a, p)[j] == RewardSum(b, p)[j] {
      RewardSumOfPermuted(a, b, p, j);
    }
    assert RewardSum(a, p) == RewardSum(b, p);
  }

  /** Episodes without a reward teach nothing. */
  lemma {:induction false} NoRewardNoGradient(episodes: seq<Episode>, p: Policy)
    requires Shaped(episodes, p) && forall e :: e in episodes ==> e.reward == 0.0
    ensures RewardSum(episodes, p) == Zero(Width(p))
  {
    if episodes != [] {
      NoRewardNoGradient(episodes[..|episodes| - 1], p);
    }
  }

  // ----- the expected update -----------------------------------------------------------

  /** The expectation of a gradient weighted by a fixed reward. */
  function ExpectedReward(chance: Rule, g: Rule, available: seq<nat>, reward: real, samples: seq<seq<nat>>): real {
    if samples == [] then 0.0
    else
      var last := samples[|samples| - 1];
      ExpectedReward(chance, g, available, reward, samples[..|samples| - 1])
      + Times(Probability(chance, available, last), Times(Gradient(g, available, last), reward))
  }

  /** The expectation of one coordinate of an episode's share in the update, when its one step is
      sampled by the policy. */
  function ExpectedUpdate(step: Step, p: Policy, reward: real, j: nat, samples: seq<seq<nat>>): real {
    ExpectedReward(Softmax(WeightOf(p, step)), PickGradient(WeightOf(p, step), FeatureOf(p, step, j), Inverse(step)),
                   Initial(|step.features|), reward, samples)
  }

  /** What an episode with that sample adds to the sum of a batch. */
  lemma OneStepEpisode(step: Step, reward: real, p: Policy, j: nat)
    requires ValidStep(step, p) && j < Width(p)
    requires Shaped([Episode(reward, [step])], p)
    ensures RewardSum([Episode(reward, [step])], p)[j] == Times(CoordinateGradient(step, p, j), reward)
  {
    var e := Episode(reward, [step]);
    assert forall q :: q in e.steps ==> ValidStep(q, p);
    OneReward(e, p, j);
    assert [step][..0] == [] && StepSum([], p) == Zero(Width(p));
    assert StepSum(e.steps, p) == Added(Zero(Width(p)), StepGradient(step, p), 1.0);
  }

  lemma {:induction false} ExpectedRewardIs(chance: Rule, g: Rule, available: seq<nat>, reward: real,
                                            samples: seq<seq<nat>>)
    ensures ExpectedReward(chance, g, available, reward, samples)
            == Times(Expected(chance, g, available, samples), reward)
  {
    if samples != [] {
      var front, last := samples[..|samples| - 1], samples[|samples| - 1];
      ExpectedRewardIs(chance, g, available, reward, front);
      Distribute(Expected(chance, g, available, front), Probability(chance, available, last),
                 Gradient(g, available, last), reward);
    }
  }

  lemma Distribute(e: real, p: real, g: real, c: real)
    ensures Times(e, c) + Times(p, Times(g, c)) == Times(e + Times(p, g), c)
  {
  }

  /** A reward that does not depend on what was sampled moves no coefficient on average. */
  lemma ConstantRewardIsUnbiased(step: Step, p: Policy, reward: real, j: nat, k: nat)
    requires IsExp(p.exp) && k <= |step.features|
    ensures ExpectedUpdate(step, p, reward, j, Samples(Initial(|step.features|), k)) == 0.0
  {
    var available := Initial(|step.features|);
    WeightsArePositive(p, step);
    ExpectedRewardIs(Softmax(WeightOf(p, step)), PickGradient(WeightOf(p, step), FeatureOf(p, step, j), Inverse(step)),
                     available, reward, Samples(available, k));
    SamplingIsUnbiased(WeightOf(p, step), FeatureOf(p, step, j), Inverse(step), available, k);
  }

  lemma WeightsArePositive(p: Policy, step: Step)
    requires IsExp(p.exp)
    ensures Positive(WeightOf(p, step))
  {
    forall i: nat ensures WeightOf(p, step)(i) > 0.0 {
      assert ExpAbove(p.exp, Times(ScoreUpTo(p, step, i, Width(p)), Inverse(step)));
    }
  }

  // ----- the gradient of the policy ----------------------------------------------------

  function Moved(p: Policy, moved: Vector): Policy
    requires |moved| == Width(p)
  {
    p.(coefficients := Added(p.coefficients, moved, 1.0))
  }

  /** By how much the move changes a node's exponent, up to coefficient `n`. */
  function Shift(p: Policy, step: Step, moved: Vector, n: nat): nat -> real
    requires n <= |moved|
  {
    (i: nat) => ShiftAt(p, step, moved, n, i)
  }

  function ShiftAt(p: Policy, step: Step, moved: Vector, n: nat, i: nat): real
    requires n <= |moved|
  {
    if n == 0 then 0.0
    else ShiftAt(p, step, moved, n - 1, i) + Times(FeatureOf(p, step, n - 1)(i), Times(moved[n - 1], Inverse(step)))
  }

  lemma {:induction false} MovedScore(p: Policy, step: Step, moved: Vector, i: nat, n: nat)
    requires |moved| == Width(p) && n <= Width(p)
    ensures Times(ScoreUpTo(Moved(p, moved), step, i, n), Inverse(step))
            == Times(ScoreUpTo(p, step, i, n), Inverse(step)) + ShiftAt(p, step, moved, n, i)
  {
    if n > 0 {
      MovedScore(p, step, moved, i, n - 1);
      var q := Moved(p, moved);
      assert FeatureOf(q, step, n - 1)(i) == FeatureOf(p, step, n - 1)(i);
      MovedTerm(ScoreUpTo(q, step, i, n - 1), ScoreUpTo(p, step, i, n - 1), p.coefficients[n - 1], moved[n - 1],
                FeatureOf(p, step, n - 1)(i), Inverse(step), ShiftAt(p, step, moved, n - 1, i));
    }
  }

  lemma MovedTerm(t: real, s: real, c: real, m: real, f: real, inverse: real, shift: real)
    requires Times(t, inverse) == Times(s, inverse) + shift
    ensures Times(t + Times(c + Times(m, 1.0), f), inverse)
            == Times(s + Times(c, f), inverse) + (shift + Times(f, Times(m, inverse)))
  {
  }

  /** The moved policy's weights are the old ones, tilted by the shift. */
  lemma MovedIsTilted(p: Policy, step: Step, moved: Vector)
    requires |moved| == Width(p) && IsExp(p.exp)
    ensures Tilted(p.exp, WeightOf(p, step), Shift(p, step, moved, Width(p)), WeightOf(Moved(p, moved), step))
  {
    forall i: nat
      ensures WeightOf(Moved(p, moved), step)(i)
              == Times(WeightOf(p, step)(i), p.exp(Shift(p, step, moved, Width(p))(i)))
    {
      MovedScore(p, step, moved, i, Width(p));
      assert Width(Moved(p, moved)) == Width(p) && Moved(p, moved).exp == p.exp;
      assert Shift(p, step, moved, Width(p))(i) == ShiftAt(p, step, moved, Width(p), i);
      ExpOfSum(p.exp, Times(ScoreUpTo(p, step, i, Width(p)), Inverse(step)), ShiftAt(p, step, moved, Width(p), i));
    }
  }

  /** The gradient of the move on one step's sample, up to coefficient `n`. */
  function ShiftGradient(p: Policy, step: Step, moved: Vector, n: nat): real
    requires n <= |moved|
  {
    Gradient(PickGradient(WeightOf(p, step), Shift(p, step, moved, n), 1.0), Initial(|step.features|),
             Order(step.sampled))
  }

  lemma NextShift(p: Policy, step: Step, moved: Vector, n: nat)
    requires 0 < n <= |moved|
    ensures ShiftGradient(p, step, moved, n)
            == ShiftGradient(p, step, moved, n - 1) + Times(CoordinateGradient(step, p, n - 1), moved[n - 1])
  {
    var a, b, c := Shift(p, step, moved, n - 1), FeatureOf(p, step, n - 1), Shift(p, step, moved, n);
    assert Combined(a, b, Times(moved[n - 1], Inverse(step)), c);
    GradientCombined(WeightOf(p, step), a, b, Inverse(step), moved[n - 1], c, Initial(|step.features|),
                     Order(step.sampled));
  }

  lemma DotOfLast(a: Vector, b: Vector, n: nat)
    requires |a| == |b| && 0 < n <= |a|
    ensures Dot(a[..n], b[..n]) == Dot(a[..n - 1], b[..n - 1]) + Times(a[n - 1], b[n - 1])
  {
    assert a[..n][..n - 1] == a[..n - 1] && b[..n][..n - 1] == b[..n - 1];
  }

  /** It is the product of the step's gradient with the move. */
  lemma {:induction false} ShiftGradientIsDot(p: Policy, step: Step, moved: Vector, g: Vector, n: nat)
    requires |moved| == |g| && n <= |g| && forall j :: 0 <= j < |g| ==> g[j] == CoordinateGradient(step, p, j)
    ensures ShiftGradient(p, step, moved, n) == Dot(g[..n], moved[..n])
  {
    if n == 0 {
      NoShift(WeightOf(p, step), Shift(p, step, moved, 0), Initial(|step.features|), Order(step.sampled));
    } else {
      ShiftGradientIsDot(p, step, moved, g, n - 1);
      NextShift(p, step, moved, n);
      DotOfLast(g, moved, n);
    }
  }

  lemma {:induction false} NoShift(w: nat -> real, d: nat -> real, available: seq<nat>, order: seq<nat>)
    requires forall i :: d(i) == 0.0
    ensures Gradient(PickGradient(w, d, 1.0), available, order) == 0.0
    decreases |order|
  {
    if order != [] {
      NoShift(w, d, Without(available, order[0]), order[1..]);
      NoShiftMean(w, d, available, available);
      GradientUnfolds(PickGradient(w, d, 1.0), available, order);
      PickIs(w, d, available, order[0]);
    }
  }

  lemma {:induction false} NoShiftMean(w: nat -> real, d: nat -> real, available: seq<nat>, ids: seq<nat>)
    requires forall i :: d(i) == 0.0
    ensures Weighted(Softmax(w), (s: seq<nat>, x: nat) => d(x), available, ids) == 0.0
    decreases |ids|
  {
    if ids != [] {
      NoShiftMean(w, d, available, ids[..|ids| - 1]);
    }
  }

  function StepProbability(step: Step, p: Policy): real {
    Probability(Softmax(WeightOf(p, step)), Initial(|step.features|), Order(step.sampled))
  }

  /** The probability `after` is at most `before` times `e`. */
  predicate Grows(before: real, after: real, e: real) {
    before >= 0.0 && 0.0 <= after <= Times(before, e)
  }

  lemma GrowsBoth(p: real, p': real, a: real, q: real, q': real, b: real)
    requires Grows(p, p', a) && Grows(q, q', b) && a > 0.0 && b > 0.0
    ensures Grows(Times(p, q), Times(p', q'), Times(a, b))
  {
    BoundProduct(p, q, a, b, p', q');
  }

  lemma StepIsBounded(step: Step, p: Policy, moved: Vector)
    requires |moved| == Width(p) && IsExp(p.exp)
    ensures Grows(StepProbability(step, p), StepProbability(step, Moved(p, moved)),
                  p.exp(ShiftGradient(p, step, moved, Width(p))))
  {
    WeightsArePositive(p, step);
    MovedIsTilted(p, step, moved);
    SampleBound(p.exp, WeightOf(p, step), Shift(p, step, moved, Width(p)), WeightOf(Moved(p, moved), step),
                Initial(|step.features|), Order(step.sampled));
  }

  /** However the coefficients are moved, the probability of what was sampled grows at most by the
      exponential of its gradient along the move: the log-probability lies below the tangent that
      gradient gives. */
  lemma GradientBoundsProbability(step: Step, p: Policy, moved: Vector)
    requires ValidStep(step, p) && |moved| == Width(p) && IsExp(p.exp)
    ensures Grows(StepProbability(step, p), StepProbability(step, Moved(p, moved)),
                  p.exp(Dot(StepGradient(step, p), moved)))
  {
    StepIsBounded(step, p, moved);
    ShiftIsDot(step, p, moved);
  }

  lemma ShiftIsDot(step: Step, p: Policy, moved: Vector)
    requires ValidStep(step, p) && |moved| == Width(p)
    ensures ShiftGradient(p, step, moved, Width(p)) == Dot(StepGradient(step, p), moved)
  {
    var g := StepGradient(step, p);
    assert forall j :: 0 <= j < |g| ==> g[j] == CoordinateGradient(step, p, j);
    ShiftGradientIsDot(p, step, moved, g, Width(p));
    DotOfAll(g, moved);
  }

  lemma DotOfAll(a: Vector, b: Vector)
    requires |a| == |b|
    ensures Dot(a[..|a|], b[..|a|]) == Dot(a, b)
  {
    assert a[..|a|] == a && b[..|a|] == b;
  }

  function Product(v: Vector): real {
    if v == [] then 1.0 else Times(Product(v[..|v| - 1]), v[|v| - 1])
  }

  function Total(v: Vector): real {
    if v == [] then 0.0 else Total(v[..|v| - 1]) + v[|v| - 1]
  }

  function Probabilities(steps: seq<Step>, p: Policy): (r: Vector)
    ensures |r| == |steps|
  {
    seq(|steps|, i requires 0 <= i < |steps| => StepProbability(steps[i], p))
  }

  /** The probability of all that was sampled in an episode. */
  function EpisodeProbability(steps: seq<Step>, p: Policy): real {
    Product(Probabilities(steps, p))
  }

  /** How far each step's gradient goes along a move. */
  ghost function Slopes(steps: seq<Step>, p: Policy, moved: Vector): (r: Vector)
    requires |moved| == Width(p) && forall q :: q in steps ==> ValidStep(q, p)
    ensures |r| == |steps|
  {
    seq(|steps|, i requires 0 <= i < |steps| => Dot(StepGradient(steps[i], p), moved))
  }

  function Exps(exp: real -> real, v: Vector): (r: Vector)
    ensures |r| == |v| && forall i :: 0 <= i < |v| ==> r[i] == exp(v[i])
  {
    seq(|v|, i requires 0 <= i < |v| => exp(v[i]))
  }

  lemma {:induction false} DotAdded(a: Vector, b: Vector, moved: Vector)
    requires |a| == |b| == |moved|
    ensures Dot(Added(a, b, 1.0), moved) == Dot(a, moved) + Dot(b, moved)
  {
    if a != [] {
      var n := |a| - 1;
      DotAdded(a[..n], b[..n], moved[..n]);
      assert Added(a, b, 1.0)[..n] == Added(a[..n], b[..n], 1.0);
      DotTerm(a[n], b[n], moved[n]);
    }
  }

  lemma DotTerm(a: real, b: real, m: real)
    ensures Times(a + Times(b, 1.0), m) == Times(a, m) + Times(b, m)
  {
  }

  lemma {:induction false} DotZero(v: Vector)
    ensures Dot(Zero(|v|), v) == 0.0
  {
    if v != [] {
      DotZero(v[..|v| - 1]);
      assert Zero(|v|)[..|v| - 1] == Zero(|v| - 1);
    }
  }

  lemma {:induction false} ProductGrows(before: Vector, after: Vector, e: Vector)
    requires |before| == |after| == |e|
    requires forall i :: 0 <= i < |e| ==> e[i] > 0.0 && Grows(before[i], after[i], e[i])
    ensures Product(e) > 0.0 && Grows(Product(before), Product(after), Product(e))
  {
    if e != [] {
      var n := |e| - 1;
      ProductGrows(before[..n], after[..n], e[..n]);
      GrowsBoth(Product(before[..n]), Product(after[..n]), Product(e[..n]), before[n], after[n], e[n]);
      PositiveTimes(Product(e[..n]), e[n]);
    }
  }

  lemma {:induction false} ExpOfTotal(exp: real -> real, v: Vector)
    requires IsExp(exp)
    ensures exp(Total(v)) == Product(Exps(exp, v))
  {
    if v == [] {
      ExpOfZero(exp);
    } else {
      var front := v[..|v| - 1];
      ExpOfTotal(exp, front);
      ExpOfSum(exp, Total(front), v[|v| - 1]);
      assert Exps(exp, v)[..|v| - 1] == Exps(exp, front);
    }
  }

  /** The slopes add up to that of the episode's gradient. */
  lemma {:induction false} TotalSlope(steps: seq<Step>, p: Policy, moved: Vector)
    requires |moved| == Width(p) && forall q :: q in steps ==> ValidStep(q, p)
    ensures Total(Slopes(steps, p, moved)) == Dot(StepSum(steps, p), moved)
  {
    if steps == [] {
      DotZero(moved);
    } else {
      var front := steps[..|steps| - 1];
      TotalSlope(front, p, moved);
      assert Slopes(steps, p, moved)[..|steps| - 1] == Slopes(front, p, moved);
      DotAdded(StepSum(front, p), StepGradient(steps[|steps| - 1], p), moved);
    }
  }

  /** The same for all that was sampled in an episode, with the sum of the gradients. */
  lemma GradientBoundsEpisode(steps: seq<Step>, p: Policy, moved: Vector)
    requires (forall q :: q in steps ==> ValidStep(q, p)) && |moved| == Width(p) && IsExp(p.exp)
    ensures Grows(EpisodeProbability(steps, p), EpisodeProbability(steps, Moved(p, moved)),
                  p.exp(Dot(StepSum(steps, p), moved)))
  {
    var slopes := Slopes(steps, p, moved);
    var before, after, e := Probabilities(steps, p), Probabilities(steps, Moved(p, moved)), Exps(p.exp, slopes);
    forall i | 0 <= i < |steps| ensures e[i] > 0.0 && Grows(before[i], after[i], e[i]) {
      GradientBoundsProbability(steps[i], p, moved);
      assert ExpAbove(p.exp, slopes[i]);
    }
    ProductGrows(before, after, e);
    ExpOfTotal(p.exp, slopes);
    TotalSlope(steps, p, moved);
  }

  /** So only a move along the gradient can make what was sampled likelier. */
  lemma LikelierOnlyAlongGradient(steps: seq<Step>, p: Policy, moved: Vector)
    requires (forall q :: q in steps ==> ValidStep(q, p)) && |moved| == Width(p) && IsExp(p.exp)
    requires EpisodeProbability(steps, Moved(p, moved)) > EpisodeProbability(steps, p)
    ensures Dot(StepSum(steps, p), moved) > 0.0
  {
    GradientBoundsEpisode(steps, p, moved);
    var x := Dot(StepSum(steps, p), moved);
    if x <= 0.0 {
      ExpAtMostOne(p.exp, x);
      NotAbove(EpisodeProbability(steps, p), p.exp(x));
    }
  }

  lemma NotAbove(p: real, e: real)
    requires p >= 0.0 && e <= 1.0
    ensures Times(p, e) <= p
  {
    assert p * (1.0 - e) >= 0.0;
  }
}
