/** The Plackett-Luce gradient as a tangent: changing the scores by any amounts multiplies a
    sample's probability by at most the exponential of the gradient along that change. */
module Supergradient {
  import opened PlackettLuce

  // ----- the exponential -----------------------------------------------------------------

  predicate ExpAdds(exp: real -> real, x: real, y: real) {
    exp(x + y) == Times(exp(x), exp(y))
  }

  predicate ExpAbove(exp: real -> real, x: real) {
    exp(x) > 0.0 && exp(x) >= 1.0 + x
  }

  /** What is used of the exponential: it turns sums into products, is positive, and lies above its
      tangent at zero. */
  ghost predicate IsExp(exp: real -> real) {
    (forall x, y :: ExpAdds(exp, x, y)) && (forall x :: ExpAbove(exp, x))
  }

  lemma ExpOfZero(exp: real -> real)
    requires IsExp(exp)
    ensures exp(0.0) == 1.0
  {
    assert ExpAdds(exp, 0.0, 0.0) && ExpAbove(exp, 0.0);
    SquareIsSelf(exp(0.0));
  }

  lemma ExpOfSum(exp: real -> real, x: real, y: real)
    requires IsExp(exp)
    ensures exp(x + y) == Times(exp(x), exp(y)) && exp(x) > 0.0 && exp(y) > 0.0
  {
    assert ExpAdds(exp, x, y) && ExpAbove(exp, x) && ExpAbove(exp, y);
  }

  lemma SquareIsSelf(x: real)
    requires x > 0.0 && x == Times(x, x)
    ensures x == 1.0
  {
    assert x * (x - 1.0) == 0.0;
  }

  /** A change of the exponent that is not positive does not raise the exponential above one. */
  lemma ExpAtMostOne(exp: real -> real, x: real)
    requires IsExp(exp) && x <= 0.0
    ensures exp(x) <= 1.0
  {
    ExpOfZero(exp);
    assert ExpAdds(exp, x, -x) && ExpAbove(exp, x) && ExpAbove(exp, -x);
    assert x + -x == 0.0;
    FactorAtMostOne(exp(x), exp(-x));
  }

  lemma FactorAtMostOne(a: real, b: real)
    requires a > 0.0 && b >= 1.0 && Times(a, b) == 1.0
    ensures a <= 1.0
  {
    assert a * (b - 1.0) >= 0.0;
  }

  // ----- tilted weights ------------------------------------------------------------------

  /** The weights after every score has changed by `d`. */
  ghost predicate Tilted(exp: real -> real, w: nat -> real, d: nat -> real, w': nat -> real) {
    forall i :: w'(i) == Times(w(i), exp(d(i)))
  }

  function WeightedSum(w: nat -> real, d: nat -> real, ids: seq<nat>): real {
    if ids == [] then 0.0
    else WeightedSum(w, d, ids[..|ids| - 1]) + Times(w(ids[|ids| - 1]), d(ids[|ids| - 1]))
  }

  /** One weight, against the tangent at `mean`. */
  lemma TiltedTerm(exp: real -> real, w: real, d: real, mean: real)
    requires IsExp(exp) && w > 0.0
    ensures Times(w, exp(d)) >= Times(exp(mean), w + Times(w, d) - Times(mean, w))
  {
    assert ExpAdds(exp, mean, d - mean) && ExpAbove(exp, mean) && ExpAbove(exp, d - mean);
    assert mean + (d - mean) == d;
    TangentBelow(exp(mean), exp(d - mean), w, d, mean);
  }

  lemma TangentBelow(a: real, e: real, w: real, d: real, mean: real)
    requires a > 0.0 && w > 0.0 && e >= 1.0 + (d - mean)
    ensures Times(w, Times(a, e)) >= Times(a, w + Times(w, d) - Times(mean, w))
  {
    var aw := Times(a, w);
    PositiveTimes(a, w);
    NonNegativeTimes(aw, e - (1.0 + (d - mean)));
    assert Times(w, Times(a, e)) == aw * e;
    assert Times(a, w + Times(w, d) - Times(mean, w)) == aw * (1.0 + (d - mean)) by {
      assert w + w * d - mean * w == w * (1.0 + (d - mean));
    }
  }

  lemma {:induction false} TiltedSum(exp: real -> real, w: nat -> real, d: nat -> real, w': nat -> real, mean: real,
                                     ids: seq<nat>)
    requires IsExp(exp) && Positive(w) && Tilted(exp, w, d, w')
    ensures Sum(w', ids) >= Times(exp(mean), Sum(w, ids) + WeightedSum(w, d, ids) - Times(mean, Sum(w, ids)))
  {
    if ids != [] {
      var front, last := ids[..|ids| - 1], ids[|ids| - 1];
      TiltedSum(exp, w, d, w', mean, front);
      TiltedTerm(exp, w(last), d(last), mean);
      AddUp(exp(mean), mean, Sum(w, front), WeightedSum(w, d, front), w(last), Times(w(last), d(last)));
    }
  }

  lemma AddUp(a: real, mean: real, s: real, t: real, x: real, y: real)
    ensures Times(a, s + t - Times(mean, s)) + Times(a, x + y - Times(mean, x))
            == Times(a, (s + x) + (t + y) - Times(mean, s + x))
  {
  }

  /** The expected change times the total is the weighted sum of the changes. */
  lemma {:induction false} MeanTimesTotal(w: nat -> real, d: nat -> real, available: seq<nat>, ids: seq<nat>)
    requires Positive(w) && available != []
    ensures Times(Weighted(Softmax(w), (a: seq<nat>, x: nat) => d(x), available, ids), Sum(w, available))
            == WeightedSum(w, d, ids)
    decreases |ids|
  {
    var g: Rule := (a: seq<nat>, x: nat) => d(x);
    if ids != [] {
      var front, last := ids[..|ids| - 1], ids[|ids| - 1];
      MeanTimesTotal(w, d, available, front);
      ShareTimesTotal(w, available, last);
      TermTimesTotal(Weighted(Softmax(w), g, available, front), Share(w, available, last), d(last), Sum(w, available));
    }
  }

  lemma TermTimesTotal(m: real, p: real, d: real, total: real)
    ensures Times(m + Times(p, d), total) == Times(m, total) + Times(Times(p, total), d)
  {
  }

  /** The total of the weights grows at least by the exponential of the expected change. */
  lemma TotalGrows(exp: real -> real, w: nat -> real, d: nat -> real, w': nat -> real, available: seq<nat>)
    requires IsExp(exp) && Positive(w) && Tilted(exp, w, d, w') && available != []
    ensures Sum(w', available) >= Times(exp(Mean(w, d, available)), Sum(w, available))
  {
    var mean := Mean(w, d, available);
    TiltedSum(exp, w, d, w', mean, available);
    MeanTimesTotal(w, d, available, available);
    assert Times(mean, Sum(w, available)) == WeightedSum(w, d, available);
  }

  lemma TiltedPositive(exp: real -> real, w: nat -> real, d: nat -> real, w': nat -> real)
    requires IsExp(exp) && Positive(w) && Tilted(exp, w, d, w')
    ensures Positive(w')
  {
    forall i: nat ensures w'(i) > 0.0 {
      assert ExpAbove(exp, d(i)) && w'(i) == Times(w(i), exp(d(i)));
      PositiveTimes(w(i), exp(d(i)));
    }
  }

  lemma NonNegativeTimes(x: real, y: real)
    requires x >= 0.0 && y >= 0.0
    ensures Times(x, y) >= 0.0
  {
  }

  lemma PositiveTimes(x: real, y: real)
    requires x > 0.0 && y > 0.0
    ensures Times(x, y) > 0.0
  {
  }

  // ----- one pick and a whole sample -----------------------------------------------------

  /** The chance of a pick under the tilted weights is at most the old one times `e`. */
  predicate PickBounded(w: nat -> real, w': nat -> real, available: seq<nat>, x: nat, e: real) {
    Share(w, available, x) >= 0.0 && 0.0 <= Share(w', available, x) <= Times(Share(w, available, x), e)
  }

  /** One pick's chance grows at most by the exponential of its change less the expected one. */
  lemma PickBound(exp: real -> real, w: nat -> real, d: nat -> real, w': nat -> real, available: seq<nat>, x: nat)
    requires IsExp(exp) && Positive(w) && Tilted(exp, w, d, w')
    ensures PickBounded(w, w', available, x, exp(d(x) - Mean(w, d, available)))
  {
    TiltedPositive(exp, w, d, w');
    if available != [] {
      var mean := Mean(w, d, available);
      SumPositive(w, available);
      SumPositive(w', available);
      ShareTimesTotal(w, available, x);
      ShareTimesTotal(w', available, x);
      TotalGrows(exp, w, d, w', available);
      assert ExpAdds(exp, mean, d(x) - mean) && ExpAbove(exp, mean) && ExpAbove(exp, d(x) - mean);
      assert mean + (d(x) - mean) == d(x);
      assert w'(x) == Times(w(x), exp(d(x)));
      ShareBound(Share(w, available, x), Sum(w, available), w(x), Share(w', available, x), Sum(w', available),
                 exp(mean), exp(d(x) - mean));
    }
  }

  lemma ShareBound(p: real, s: real, w: real, p': real, s': real, a: real, e: real)
    requires s > 0.0 && s' > 0.0 && w > 0.0 && a > 0.0 && e > 0.0
    requires Times(p, s) == w && Times(p', s') == Times(w, Times(a, e)) && s' >= Times(a, s)
    ensures 0.0 <= p' <= Times(p, e) && p >= 0.0
  {
    Quotient(p, s, w);
    PositiveTimes(a, e);
    PositiveTimes(w, Times(a, e));
    Quotient(p', s', Times(w, Times(a, e)));
    PositiveTimes(p, e);
    var pe := Times(p, e);
    assert pe * (s' - a * s) >= 0.0;
    assert pe * (a * s) == p * s * (a * e);
    CancelFactor(p', pe, s');
  }

  lemma Quotient(p: real, s: real, w: real)
    requires s > 0.0 && w > 0.0 && Times(p, s) == w
    ensures p > 0.0
  {
  }

  lemma CancelFactor(a: real, b: real, c: real)
    requires c > 0.0 && Times(a, c) <= Times(b, c)
    ensures a <= b
  {
    assert (b - a) * c >= 0.0;
  }

  lemma ProbabilityOfFirst(chance: Rule, available: seq<nat>, order: seq<nat>)
    requires order != []
    ensures Probability(chance, available, order)
            == Times(chance(available, order[0]), Probability(chance, Without(available, order[0]), order[1..]))
  {
  }

  lemma PickIs(w: nat -> real, d: nat -> real, available: seq<nat>, x: nat)
    ensures PickGradient(w, d, 1.0)(available, x) == d(x) - Mean(w, d, available)
  {
    TimesOne(d(x) - Mean(w, d, available));
  }

  lemma GradientUnfolds(g: Rule, available: seq<nat>, order: seq<nat>)
    requires order != []
    ensures Gradient(g, available, order)
            == g(available, order[0]) + Gradient(g, Without(available, order[0]), order[1..])
  {
  }

  lemma TimesOne(x: real)
    ensures Times(x, 1.0) == x
  {
  }

  /** The probability under the tilted weights is at most the old one times `e`. */
  predicate Bounded(w: nat -> real, w': nat -> real, available: seq<nat>, order: seq<nat>, e: real) {
    var p, p' := Probability(Softmax(w), available, order), Probability(Softmax(w'), available, order);
    p >= 0.0 && 0.0 <= p' <= Times(p, e)
  }

  /** A sample's probability grows at most by the exponential of the gradient of the change. */
  lemma {:induction false} SampleBound(exp: real -> real, w: nat -> real, d: nat -> real, w': nat -> real,
                                       available: seq<nat>, order: seq<nat>)
    requires IsExp(exp) && Positive(w) && Tilted(exp, w, d, w')
    ensures Bounded(w, w', available, order, exp(Gradient(PickGradient(w, d, 1.0), available, order)))
    decreases |order|
  {
    if order == [] {
      ExpOfZero(exp);
    } else {
      var x, rest := order[0], Without(available, order[0]);
      var first, later := d(x) - Mean(w, d, available), Gradient(PickGradient(w, d, 1.0), rest, order[1..]);
      SampleBound(exp, w, d, w', rest, order[1..]);
      PickBound(exp, w, d, w', available, x);
      GradientUnfolds(PickGradient(w, d, 1.0), available, order);
      PickIs(w, d, available, x);
      ExpOfSum(exp, first, later);
      BoundedNext(w, w', available, order, exp(first), exp(later));
    }
  }

  lemma BoundedNext(w: nat -> real, w': nat -> real, available: seq<nat>, order: seq<nat>, a: real, b: real)
    requires order != [] && a > 0.0 && b > 0.0
    requires Bounded(w, w', Without(available, order[0]), order[1..], b)
    requires PickBounded(w, w', available, order[0], a)
    ensures Bounded(w, w', available, order, Times(a, b))
  {
    var x, rest := order[0], Without(available, order[0]);
    ProbabilityOfFirst(Softmax(w), available, order);
    ProbabilityOfFirst(Softmax(w'), available, order);
    BoundProduct(Share(w, available, x), Probability(Softmax(w), rest, order[1..]), a, b,
                 Share(w', available, x), Probability(Softmax(w'), rest, order[1..]));
  }

  lemma BoundProduct(p: real, q: real, a: real, b: real, p': real, q': real)
    requires 0.0 <= p' <= Times(p, a) && 0.0 <= q' <= Times(q, b) && p >= 0.0 && q >= 0.0 && a > 0.0 && b > 0.0
    ensures 0.0 <= Times(p', q') <= Times(Times(p, q), Times(a, b)) && Times(p, q) >= 0.0
  {
    var pa, qb := p * a, q * b;
    assert (pa - p') * q' >= 0.0;
    assert pa * (qb - q') >= 0.0;
    assert pa * qb == p * q * (a * b);
  }

  // ----- linear changes ------------------------------------------------------------------

  /** `c` is `a` plus `k` times `b`, index by index. */
  ghost predicate Combined(a: nat -> real, b: nat -> real, k: real, c: nat -> real) {
    forall i :: c(i) == a(i) + Times(b(i), k)
  }

  lemma {:induction false} WeightedCombined(w: nat -> real, a: nat -> real, b: nat -> real, k: real, c: nat -> real,
                                            available: seq<nat>, ids: seq<nat>)
    requires Combined(a, b, k, c)
    ensures Weighted(Softmax(w), (s: seq<nat>, x: nat) => c(x), available, ids)
            == Weighted(Softmax(w), (s: seq<nat>, x: nat) => a(x), available, ids)
               + Times(Weighted(Softmax(w), (s: seq<nat>, x: nat) => b(x), available, ids), k)
    decreases |ids|
  {
    if ids != [] {
      var front, last := ids[..|ids| - 1], ids[|ids| - 1];
      var fa: Rule, fb: Rule := (s: seq<nat>, x: nat) => a(x), (s: seq<nat>, x: nat) => b(x);
      WeightedCombined(w, a, b, k, c, available, front);
      CombineTerm(Weighted(Softmax(w), fa, available, front), Weighted(Softmax(w), fb, available, front),
                  Share(w, available, last), a(last), b(last), k);
    }
  }

  lemma CombineTerm(m: real, n: real, p: real, a: real, b: real, k: real)
    ensures (m + Times(n, k)) + Times(p, a + Times(b, k)) == (m + Times(p, a)) + Times(n + Times(p, b), k)
  {
  }

  /** The gradient is linear in the change. */
  lemma {:induction false} GradientCombined(w: nat -> real, a: nat -> real, b: nat -> real, inverse: real, f: real,
                                            c: nat -> real, available: seq<nat>, order: seq<nat>)
    requires Combined(a, b, Times(f, inverse), c)
    ensures Gradient(PickGradient(w, c, 1.0), available, order)
            == Gradient(PickGradient(w, a, 1.0), available, order)
               + Times(Gradient(PickGradient(w, b, inverse), available, order), f)
    decreases |order|
  {
    if order != [] {
      var x, rest := order[0], Without(available, order[0]);
      GradientCombined(w, a, b, inverse, f, c, rest, order[1..]);
      GradientUnfolds(PickGradient(w, c, 1.0), available, order);
      GradientUnfolds(PickGradient(w, a, 1.0), available, order);
      GradientUnfolds(PickGradient(w, b, inverse), available, order);
      WeightedCombined(w, a, b, Times(f, inverse), c, available, available);
      assert Mean(w, c, available) == Mean(w, a, available) + Times(Mean(w, b, available), Times(f, inverse));
      assert c(x) == a(x) + Times(b(x), Times(f, inverse));
      CombinePick(a(x), b(x), Mean(w, a, available), Mean(w, b, available), inverse, f,
                  Gradient(PickGradient(w, a, 1.0), rest, order[1..]),
                  Gradient(PickGradient(w, b, inverse), rest, order[1..]));
    }
  }

  lemma CombinePick(a: real, b: real, ma: real, mb: real, inverse: real, f: real, ga: real, gb: real)
    ensures Times((a + Times(b, Times(f, inverse))) - (ma + Times(mb, Times(f, inverse))), 1.0) + (ga + Times(gb, f))
            == (Times(a - ma, 1.0) + ga) + Times(Times(b - mb, inverse) + gb, f)
  {
  }
}
