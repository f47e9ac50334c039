/** The damage race: what the rest of a fight costs in hit points when every turn's energy is
    split between attack and block, over exact reals. */
module DamageRace {
  /** One position: `sigma` block and `kappa` damage per point of energy, `attrition` per turn,
      `budget` energy per turn and `energy` left in this one, the published attack, the block
      already up and the effective hit points of the enemies. */
  datatype Position = Position(
    sigma: real, kappa: real, attrition: real, budget: real, energy: real,
    incoming: real, block: real, remaining: real)

  /** What the constructor and the observation guarantee. */
  predicate ValidPosition(p: Position) {
    p.sigma > 0.0 && p.kappa > 0.0 && p.attrition > 0.0 && p.budget > 0.0 && p.energy >= 0.0 && p.incoming >= 0.0
  }

  function Max(a: real, b: real): real { if a >= b then a else b }

  function Min(a: real, b: real): real { if a <= b then a else b }

  // ----- the race over future turns ----------------------------------------------------

  /** What one future turn costs when `x` of its energy attacks. */
  function TurnLoss(p: Position, x: real): real {
    var blocked := (p.budget - x) * p.sigma;
    Max(0.0, p.incoming - blocked) + p.attrition
  }

  /** The cost of killing `left` hit points with the split `x` in every turn. */
  function RaceCost(p: Position, left: real, x: real): real
    requires ValidPosition(p) && x > 0.0
  {
    left / (x * p.kappa) * TurnLoss(p, x)
  }

  /** The hit points one unit of attack energy costs at best. */
  function RaceRate(p: Position): real
    requires ValidPosition(p)
  {
    var rate := (p.incoming + p.attrition) / p.budget;
    if Spare(p) > 0.0 then Min(rate, p.attrition / Spare(p)) else rate
  }

  function LossAt(left: real, rate: real, kappa: real): real
    requires kappa > 0.0
  {
    if left <= 0.0 then 0.0 else left * rate / kappa
  }

  function RemainingLoss(p: Position, left: real): real
    requires ValidPosition(p)
  {
    LossAt(left, RaceRate(p), p.kappa)
  }

  lemma QuotientOf(a: real, b: real)
    requires b > 0.0
    ensures a / b * b == a
  {
  }

  lemma SignOfProduct(a: real, b: real)
    requires b > 0.0
    ensures a > 0.0 <==> a * b > 0.0
    ensures a >= 0.0 <==> a * b >= 0.0
  {
  }

  lemma CrossMultiply(a: real, b: real, c: real, d: real)
    requires b > 0.0 && d > 0.0 && a * d <= c * b
    ensures a / b <= c / d
  {
    var u, v := a / b, c / d;
    assert u * b == a && v * d == c;
    assert (v - u) * (b * d) == v * d * b - u * b * d;
    SignOfProduct(v - u, b * d);
  }

  lemma PositiveQuotient(a: real, b: real)
    requires a > 0.0 && b > 0.0
    ensures a / b > 0.0
  {
    QuotientOf(a, b);
    SignOfProduct(a / b, b);
  }

  lemma RaceRatePositive(p: Position)
    requires ValidPosition(p)
    ensures RaceRate(p) > 0.0
  {
    PositiveQuotient(p.incoming + p.attrition, p.budget);
    var spare := Spare(p);
    if spare > 0.0 {
      PositiveQuotient(p.attrition, spare);
    }
  }

  /** The energy a turn can spare once its block absorbs the whole attack. */
  function Spare(p: Position): real
    requires ValidPosition(p)
  {
    p.budget - p.incoming / p.sigma
  }

  lemma SpareBlocks(p: Position)
    requires ValidPosition(p)
    ensures p.sigma * (p.budget - Spare(p)) == p.incoming && Spare(p) <= p.budget
  {
    QuotientOf(p.incoming, p.sigma);
    SignOfProduct(p.incoming / p.sigma, p.sigma);
  }

  /** A turn that attacks with `x` leaks what `x` takes from the energy the block needs. */
  lemma TurnLossForm(p: Position, x: real)
    requires ValidPosition(p)
    ensures TurnLoss(p, x) == Max(0.0, p.sigma * (x - Spare(p))) + p.attrition
  {
    SpareBlocks(p);
    var s, spare := p.sigma, Spare(p);
    assert p.incoming - (p.budget - x) * s == s * (x - spare) by {
      assert s * (p.budget - spare) - (p.budget - x) * s == s * (x - spare);
    }
  }

  /** No split costs less per unit of attack energy. */
  lemma RateIsLeast(p: Position, x: real)
    requires ValidPosition(p) && 0.0 < x <= p.budget
    ensures RaceRate(p) <= TurnLoss(p, x) / x
  {
    SplitAlternatives(p, x);
  }

  lemma SplitAlternatives(p: Position, x: real)
    requires ValidPosition(p) && 0.0 < x <= p.budget
    ensures (p.incoming + p.attrition) / p.budget <= TurnLoss(p, x) / x
            || (Spare(p) > 0.0 && p.attrition / Spare(p) <= TurnLoss(p, x) / x)
  {
    TurnLossForm(p, x);
    SpareBlocks(p);
    SplitCostsMore(p.incoming, p.attrition, p.sigma, Spare(p), x, p.budget, TurnLoss(p, x));
  }

  lemma SplitCostsMore(incoming: real, c: real, s: real, spare: real, x: real, budget: real, loss: real)
    requires c > 0.0 && s > 0.0 && 0.0 < x <= budget && s * (budget - spare) == incoming
    requires loss == Max(0.0, s * (x - spare)) + c
    ensures (incoming + c) / budget <= loss / x || (spare > 0.0 && c / spare <= loss / x)
  {
    if x <= spare {
      SignOfProduct(spare - x, s);
      assert s * (x - spare) == -((spare - x) * s);
      CrossMultiply(c, spare, loss, x);
    } else {
      SignOfProduct(x - spare, s);
      assert loss == s * (x - spare) + c;
      if spare > 0.0 && c < s * spare {
        SlowSide(c, s, spare, x);
        CrossMultiply(c, spare, loss, x);
      } else {
        FastSide(c, s, spare, x, budget);
        CrossMultiply(incoming + c, budget, loss, x);
      }
    }
  }

  lemma SlowSide(c: real, s: real, spare: real, x: real)
    requires x > spare > 0.0 && c < s * spare
    ensures c * x <= (s * (x - spare) + c) * spare
  {
    assert (x - spare) * (s * spare - c) >= 0.0;
  }

  lemma FastSide(c: real, s: real, spare: real, x: real, budget: real)
    requires 0.0 < x <= budget && s > 0.0 && c > 0.0 && (spare > 0.0 ==> c >= s * spare)
    ensures (s * (budget - spare) + c) * x <= (s * (x - spare) + c) * budget
  {
    SignOfProduct(-spare, s);
    assert (-spare) * s == -(s * spare);
    assert (c - s * spare) * (budget - x) >= 0.0;
  }

  /** The split the closed form stands for: all the energy the block does not need when that is
      cheaper, otherwise everything. */
  function BestSplit(p: Position): real
    requires ValidPosition(p)
  {
    var rate := (p.incoming + p.attrition) / p.budget;
    var spare := Spare(p);
    if spare > 0.0 && p.attrition / spare <= rate then spare else p.budget
  }

  lemma BestSplitAttains(p: Position)
    requires ValidPosition(p)
    ensures 0.0 < BestSplit(p) <= p.budget && TurnLoss(p, BestSplit(p)) / BestSplit(p) == RaceRate(p)
  {
    SpareBlocks(p);
    TurnLossForm(p, BestSplit(p));
  }

  lemma CostByRate(p: Position, left: real, x: real)
    requires ValidPosition(p) && x > 0.0
    ensures RaceCost(p, left, x) == left / p.kappa * (TurnLoss(p, x) / x)
  {
    var t := TurnLoss(p, x);
    var u, v, w := left / (x * p.kappa), left / p.kappa, t / x;
    assert x * p.kappa > 0.0;
    assert u * (x * p.kappa) == left && v * p.kappa == left && w * x == t;
    assert u * x == v by {
      assert (u * x) * p.kappa == v * p.kappa;
    }
    assert u * t == u * x * w;
  }

  /** The closed form is the minimum of the race over every real split of a turn's energy, and
      some split attains it. */
  lemma RemainingLossIsMinimum(p: Position, left: real)
    requires ValidPosition(p) && left > 0.0
    ensures forall x :: 0.0 < x <= p.budget ==> RemainingLoss(p, left) <= RaceCost(p, left, x)
    ensures 0.0 < BestSplit(p) <= p.budget && RemainingLoss(p, left) == RaceCost(p, left, BestSplit(p))
  {
    PositiveQuotient(left, p.kappa);
    var v := left / p.kappa;
    assert RemainingLoss(p, left) == v * RaceRate(p) by {
      assert v * p.kappa == left;
      var q := left * RaceRate(p) / p.kappa;
      assert q * p.kappa == left * RaceRate(p);
      assert (v * RaceRate(p)) * p.kappa == q * p.kappa;
    }
    forall x | 0.0 < x <= p.budget ensures RemainingLoss(p, left) <= RaceCost(p, left, x) {
      RateIsLeast(p, x);
      CostByRate(p, left, x);
      assert v * RaceRate(p) <= v * (TurnLoss(p, x) / x);
    }
    BestSplitAttains(p);
    CostByRate(p, left, BestSplit(p));
  }

  // ----- this turn ---------------------------------------------------------------------

  function Threat(p: Position): real {
    Max(0.0, p.incoming - Max(0.0, p.block))
  }

  /** What a split costs: the leak of this turn, then the race for what is left. */
  function SplitCostAt(t: real, s: real, r: real, k: real, rate: real, e: real, z: real): real
    requires k > 0.0
  {
    Max(0.0, t - z * s) + LossAt(Max(0.0, r - Max(0.0, e - z) * k), rate, k)
  }

  /** What this turn and the rest of the fight cost when `z` of the energy blocks. */
  function SplitCost(p: Position, z: real): real
    requires ValidPosition(p)
  {
    SplitCostAt(Threat(p), p.sigma, p.remaining, p.kappa, RaceRate(p), p.energy, z)
  }

  function EnoughAt(t: real, s: real, e: real): real
    requires s > 0.0
  {
    Min(e, t / s)
  }

  function TriedAt(t: real, s: real, r: real, k: real, rate: real, e: real): real
    requires s > 0.0 && k > 0.0
  {
    Min(Min(SplitCostAt(t, s, r, k, rate, e, 0.0), SplitCostAt(t, s, r, k, rate, e, EnoughAt(t, s, e))),
        SplitCostAt(t, s, r, k, rate, e, e))
  }

  /** The three splits the code tries: no block, exactly enough, everything. */
  function TurnCost(p: Position): real
    requires ValidPosition(p)
  {
    if p.remaining <= 0.0 then Max(0.0, p.incoming - p.block)
    else TriedAt(Threat(p), p.sigma, p.remaining, p.kappa, RaceRate(p), p.energy)
  }

  function Score(p: Position, hp: real): real
    requires ValidPosition(p)
  {
    hp - TurnCost(p)
  }

  /** The same cost with the price `u` of one enemy hit point written out. */
  function Cost(t: real, s: real, r: real, k: real, u: real, e: real, z: real): real {
    Max(0.0, t - z * s) + u * Max(0.0, r - (e - z) * k)
  }

  lemma SplitCostForm(t: real, s: real, r: real, k: real, rate: real, u: real, e: real, z: real)
    requires k > 0.0 && u * k == rate && z <= e
    ensures SplitCostAt(t, s, r, k, rate, e, z) == Cost(t, s, r, k, u, e, z)
  {
    LossIsLinear(Max(0.0, r - (e - z) * k), rate, k, u);
  }

  lemma LossIsLinear(left: real, rate: real, k: real, u: real)
    requires k > 0.0 && left >= 0.0 && u * k == rate
    ensures LossAt(left, rate, k) == u * left
  {
    if left > 0.0 {
      QuotientOf(left * rate, k);
      assert (u * left) * k == left * rate;
      assert (left * rate / k - u * left) * k == 0.0;
    }
  }

  function Tried(t: real, s: real, r: real, k: real, u: real, e: real, w: real): real {
    Min(Min(Cost(t, s, r, k, u, e, 0.0), Cost(t, s, r, k, u, e, w)), Cost(t, s, r, k, u, e, e))
  }

  lemma TriedForm(t: real, s: real, r: real, k: real, rate: real, u: real, e: real)
    requires t >= 0.0 && s > 0.0 && k > 0.0 && e >= 0.0 && u * k == rate
    ensures Enough(t, s, e, EnoughAt(t, s, e))
    ensures TriedAt(t, s, r, k, rate, e) == Tried(t, s, r, k, u, e, EnoughAt(t, s, e))
  {
    EnoughIs(t, s, e);
    SplitCostForm(t, s, r, k, rate, u, e, 0.0);
    SplitCostForm(t, s, r, k, rate, u, e, EnoughAt(t, s, e));
    SplitCostForm(t, s, r, k, rate, u, e, e);
  }

  /** `w` is exactly enough block, or all the energy. */
  predicate Enough(t: real, s: real, e: real, w: real) {
    0.0 <= w <= e && (w * s == t || (w == e && e * s <= t))
  }

  lemma EnoughIs(t: real, s: real, e: real)
    requires t >= 0.0 && s > 0.0 && e >= 0.0
    ensures Enough(t, s, e, EnoughAt(t, s, e))
  {
    QuotientOf(t, s);
    SignOfProduct(t / s, s);
    SignOfProduct(t / s - e, s);
    assert (t / s - e) * s == t - e * s;
  }

  lemma ScaleLe(a: real, b: real, c: real)
    requires a <= b && c >= 0.0
    ensures a * c <= b * c
  {
  }

  /** Blocking more than enough never helps. */
  lemma PastEnough(t: real, s: real, r: real, k: real, u: real, e: real, w: real, z: real)
    requires s > 0.0 && k > 0.0 && u >= 0.0 && Enough(t, s, e, w) && w <= z <= e
    ensures Cost(t, s, r, k, u, e, w) <= Cost(t, s, r, k, u, e, z)
  {
    ScaleLe(w, z, k);
    ScaleLe(Max(0.0, r - (e - w) * k), Max(0.0, r - (e - z) * k), u);
  }

  lemma PositivePart(x: real, y: real, d: real)
    requires x - y == d && d >= 0.0
    ensures Max(0.0, x) - Max(0.0, y) <= d
  {
  }

  /** Up to exactly enough, the leak falls by `s` a point and the race costs at most `u * k` more. */
  lemma BeforeEnough(t: real, s: real, r: real, k: real, u: real, e: real, w: real, z: real)
    requires s > 0.0 && k > 0.0 && u >= 0.0 && Enough(t, s, e, w) && 0.0 <= z <= w && u * k <= s
    ensures Cost(t, s, r, k, u, e, w) <= Cost(t, s, r, k, u, e, z)
  {
    ScaleLe(z, w, s);
    var x, y := r - (e - w) * k, r - (e - z) * k;
    var a, b := Max(0.0, x), Max(0.0, y);
    SignOfProduct(w - z, k);
    PositivePart(x, y, (w - z) * k);
    ScaleLe(a - b, (w - z) * k, u);
    ScaleLe(u * k, s, w - z);
    assert (w - z) * k * u == u * k * (w - z);
    assert u * a - u * b == (a - b) * u;
  }

  /** When this turn cannot kill everything, the cost is linear up to exactly enough. */
  lemma NoOverkill(t: real, s: real, r: real, k: real, u: real, e: real, w: real, z: real)
    requires s > 0.0 && k > 0.0 && u >= 0.0 && Enough(t, s, e, w) && 0.0 <= z <= w && u * k > s && r >= e * k
    ensures Cost(t, s, r, k, u, e, 0.0) <= Cost(t, s, r, k, u, e, z)
  {
    ScaleLe(z, w, s);
    ScaleLe(0.0, z, k);
    var base := r - e * k;
    assert r - (e - z) * k == base + z * k;
    assert u * (base + z * k) == u * base + u * k * z;
    ScaleLe(s, u * k, z);
  }

  lemma TriedIsOptimal(t: real, s: real, r: real, k: real, u: real, e: real, w: real, z: real)
    requires t >= 0.0 && s > 0.0 && r > 0.0 && k > 0.0 && u > 0.0 && Enough(t, s, e, w) && 0.0 <= z <= e
    requires r >= e * k || t * k <= s * (e * k - r) || u * k <= s
    ensures Tried(t, s, r, k, u, e, w) <= Cost(t, s, r, k, u, e, z)
  {
    if z >= w {
      PastEnough(t, s, r, k, u, e, w, z);
    } else if u * k <= s {
      BeforeEnough(t, s, r, k, u, e, w, z);
    } else if r >= e * k {
      NoOverkill(t, s, r, k, u, e, w, z);
    } else {
      EnoughKillsToo(t, s, r, k, u, e, w);
      assert Cost(t, s, r, k, u, e, z) >= 0.0;
    }
  }

  /** When the block leaves enough energy to kill everything, exactly enough costs nothing. */
  lemma EnoughKillsToo(t: real, s: real, r: real, k: real, u: real, e: real, w: real)
    requires t >= 0.0 && s > 0.0 && r > 0.0 && k > 0.0 && u > 0.0 && Enough(t, s, e, w)
    requires t * k <= s * (e * k - r)
    ensures Cost(t, s, r, k, u, e, w) == 0.0
  {
    LessThanAll(t, s, r, k, e);
    var spare := e * k - r;
    assert (spare - w * k) * s == s * spare - t * k by {
      assert w * k * s == w * s * k;
    }
    SignOfProduct(spare - w * k, s);
    assert (e - w) * k == e * k - w * k;
  }

  lemma LessThanAll(t: real, s: real, r: real, k: real, e: real)
    requires s > 0.0 && r > 0.0 && k > 0.0 && t * k <= s * (e * k - r)
    ensures t < e * s
  {
    SignOfProduct(r, s);
    assert (e * s - t) * k == s * (e * k) - t * k;
    assert s * (e * k) - t * k >= r * s;
    SignOfProduct(e * s - t, k);
  }

  /** Otherwise the split that keeps just enough attack to kill everything is cheaper than all
      three that are tried. */
  lemma KinkIsCheaper(t: real, s: real, r: real, k: real, u: real, e: real, w: real, kink: real)
    requires t >= 0.0 && s > 0.0 && r > 0.0 && k > 0.0 && u > 0.0 && Enough(t, s, e, w)
    requires kink * k == e * k - r && r < e * k && t > s * kink && u * k > s
    ensures 0.0 <= kink <= e && Cost(t, s, r, k, u, e, kink) < Tried(t, s, r, k, u, e, w)
  {
    KinkInside(t, s, r, k, e, w, kink);
    CostAtKink(t, s, r, k, u, e, kink);
    SignOfProduct(kink, s);
    AboveKink(t, s, r, k, u, e, kink, w);
    AboveKink(t, s, r, k, u, e, kink, e);
    assert Cost(t, s, r, k, u, e, 0.0) >= t;
  }

  lemma KinkInside(t: real, s: real, r: real, k: real, e: real, w: real, kink: real)
    requires t >= 0.0 && s > 0.0 && r > 0.0 && k > 0.0 && Enough(t, s, e, w)
    requires kink * k == e * k - r && r < e * k && t > s * kink
    ensures 0.0 < kink < e && kink < w
  {
    SignOfProduct(kink, k);
    assert (e - kink) * k == r;
    SignOfProduct(e - kink, k);
    SignOfProduct(w - kink, s);
  }

  lemma CostAtKink(t: real, s: real, r: real, k: real, u: real, e: real, kink: real)
    requires kink * k == e * k - r && t > s * kink
    ensures Cost(t, s, r, k, u, e, kink) == t - kink * s
  {
    assert (e - kink) * k == r;
  }

  lemma AboveKink(t: real, s: real, r: real, k: real, u: real, e: real, kink: real, z: real)
    requires s > 0.0 && k > 0.0 && u > 0.0 && kink * k == e * k - r && u * k > s && kink < z <= e
    ensures Cost(t, s, r, k, u, e, z) > t - kink * s
  {
    assert r - (e - z) * k == (z - kink) * k;
    SignOfProduct(z - kink, k);
    assert u * ((z - kink) * k) == u * k * (z - kink);
    assert (u * k - s) * (z - kink) > 0.0 by {
      SignOfProduct(u * k - s, z - kink);
    }
  }

  /** The three splits the code tries are the best of all splits of this turn's energy exactly
      when they suffice by the position's numbers. */
  lemma TurnCostOptimalIff(p: Position)
    requires ValidPosition(p) && p.remaining > 0.0
    ensures (forall z :: 0.0 <= z <= p.energy ==> TurnCost(p) <= SplitCost(p, z))
            <==> ThreeSuffice(Max(0.0, p.incoming - Max(0.0, p.block)), p.sigma, p.remaining, p.kappa, RaceRate(p),
                              p.energy)
  {
    RaceRatePositive(p);
    ThreeSplitsOptimalIff(Threat(p), p.sigma, p.remaining, p.kappa, RaceRate(p), p.energy);
    SameCosts(p);
  }

  lemma SameCosts(p: Position)
    requires ValidPosition(p) && p.remaining > 0.0
    ensures BestOfAll(Threat(p), p.sigma, p.remaining, p.kappa, RaceRate(p), p.energy)
            <==> forall z :: 0.0 <= z <= p.energy ==> TurnCost(p) <= SplitCost(p, z)
  {
    var t, s, r, k, rate, e := Threat(p), p.sigma, p.remaining, p.kappa, RaceRate(p), p.energy;
    assert TurnCost(p) == TriedAt(t, s, r, k, rate, e);
    forall z ensures SplitCost(p, z) == SplitCostAt(t, s, r, k, rate, e, z) {
    }
  }

  ghost predicate BestOfAll(t: real, s: real, r: real, k: real, rate: real, e: real)
    requires s > 0.0 && k > 0.0
  {
    forall z :: 0.0 <= z <= e ==> TriedAt(t, s, r, k, rate, e) <= SplitCostAt(t, s, r, k, rate, e, z)
  }

  /** This turn cannot kill everything, or the block it needs still leaves the energy to do so,
      or the enemies are not worth more per point of energy than block is. */
  predicate ThreeSuffice(t: real, s: real, r: real, k: real, rate: real, e: real)
    requires k > 0.0
  {
    r >= e * k || t <= s * (e - r / k) || rate <= s
  }

  /** The same with the second kink named: the split that keeps just enough attack to kill
      everything. */
  predicate SufficeAt(t: real, s: real, r: real, k: real, rate: real, e: real, kink: real) {
    r >= e * k || t <= s * kink || rate <= s
  }

  lemma ThreeSplitsOptimalIff(t: real, s: real, r: real, k: real, rate: real, e: real)
    requires t >= 0.0 && s > 0.0 && r > 0.0 && k > 0.0 && rate > 0.0 && e >= 0.0
    ensures BestOfAll(t, s, r, k, rate, e) <==> ThreeSuffice(t, s, r, k, rate, e)
  {
    var u, kink := UnitPriceAndKink(t, s, r, k, rate, e);
    if SufficeAt(t, s, r, k, rate, e, kink) {
      TriedIsBest(t, s, r, k, rate, u, e, kink);
    } else {
      KinkBeats(t, s, r, k, rate, u, e, kink);
    }
  }

  lemma TriedIsBest(t: real, s: real, r: real, k: real, rate: real, u: real, e: real, kink: real)
    requires t >= 0.0 && s > 0.0 && r > 0.0 && k > 0.0 && u > 0.0 && u * k == rate
    requires kink * k == e * k - r && SufficeAt(t, s, r, k, rate, e, kink)
    ensures BestOfAll(t, s, r, k, rate, e)
  {
    forall z | 0.0 <= z <= e ensures TriedAt(t, s, r, k, rate, e) <= SplitCostAt(t, s, r, k, rate, e, z) {
      TriedBeats(t, s, r, k, rate, u, e, kink, z);
    }
  }

  lemma TriedBeats(t: real, s: real, r: real, k: real, rate: real, u: real, e: real, kink: real, z: real)
    requires t >= 0.0 && s > 0.0 && r > 0.0 && k > 0.0 && u > 0.0 && u * k == rate && 0.0 <= z <= e
    requires kink * k == e * k - r && SufficeAt(t, s, r, k, rate, e, kink)
    ensures TriedAt(t, s, r, k, rate, e) <= SplitCostAt(t, s, r, k, rate, e, z)
  {
    KinkCondition(t, s, r, k, e, kink);
    TriedIsOptimalFor(t, s, r, k, rate, u, e, z);
    TriedForm(t, s, r, k, rate, u, e);
    SplitCostForm(t, s, r, k, rate, u, e, z);
  }

  lemma TriedIsOptimalFor(t: real, s: real, r: real, k: real, rate: real, u: real, e: real, z: real)
    requires t >= 0.0 && s > 0.0 && r > 0.0 && k > 0.0 && u > 0.0 && u * k == rate && 0.0 <= z <= e
    requires r >= e * k || t * k <= s * (e * k - r) || rate <= s
    ensures Tried(t, s, r, k, u, e, EnoughAt(t, s, e)) <= Cost(t, s, r, k, u, e, z)
  {
    EnoughIs(t, s, e);
    TriedIsOptimal(t, s, r, k, u, e, EnoughAt(t, s, e), z);
  }

  lemma KinkBeats(t: real, s: real, r: real, k: real, rate: real, u: real, e: real, kink: real)
    requires t >= 0.0 && s > 0.0 && r > 0.0 && k > 0.0 && u > 0.0 && u * k == rate && e >= 0.0
    requires kink * k == e * k - r && !SufficeAt(t, s, r, k, rate, e, kink)
    ensures !BestOfAll(t, s, r, k, rate, e)
  {
    EnoughIs(t, s, e);
    KinkIsCheaper(t, s, r, k, u, e, EnoughAt(t, s, e), kink);
    TriedForm(t, s, r, k, rate, u, e);
    SplitCostForm(t, s, r, k, rate, u, e, kink);
    assert SplitCostAt(t, s, r, k, rate, e, kink) < TriedAt(t, s, r, k, rate, e);
  }

  lemma UnitPrice(k: real, rate: real) returns (u: real)
    requires k > 0.0 && rate > 0.0
    ensures u > 0.0 && u * k == rate
  {
    u := rate / k;
    QuotientOf(rate, k);
    PositiveQuotient(rate, k);
  }

  lemma UnitPriceAndKink(t: real, s: real, r: real, k: real, rate: real, e: real) returns (u: real, kink: real)
    requires r > 0.0 && k > 0.0 && rate > 0.0
    ensures u > 0.0 && u * k == rate && kink * k == e * k - r
    ensures ThreeSuffice(t, s, r, k, rate, e) <==> SufficeAt(t, s, r, k, rate, e, kink)
  {
    u := UnitPrice(k, rate);
    kink := e - r / k;
    QuotientOf(r, k);
  }

  lemma KinkCondition(t: real, s: real, r: real, k: real, e: real, kink: real)
    requires k > 0.0 && kink * k == e * k - r
    ensures t <= s * kink <==> t * k <= s * (e * k - r)
  {
    assert (s * kink - t) * k == s * (kink * k) - t * k;
    SignOfProduct(s * kink - t, k);
  }

  /** A position where the three splits miss the best one: three energy, six damage a point
      against six hit points, and an attack of one hundred. Blocking with two costs ninety. */
  lemma ThreeSplitsCanMiss() returns (p: Position)
    ensures ValidPosition(p) && p.remaining > 0.0 && p.sigma == 5.0 && p.attrition == 1.0
    ensures TurnCost(p) == 100.0 && 0.0 <= 2.0 <= p.energy && SplitCost(p, 2.0) == 90.0
  {
    p := Position(5.0, 6.0, 1.0, 3.0, 3.0, 100.0, 0.0, 6.0);
    OutpacedRate(p);
    MissedSplits(RaceRate(p));
    MissedPosition(p);
  }

  lemma OutpacedRate(p: Position)
    requires p.sigma == 5.0 && p.kappa == 6.0 && p.attrition == 1.0 && p.budget == p.energy == 3.0
    requires p.incoming == 100.0
    ensures ValidPosition(p) && RaceRate(p) == 101.0 / 3.0
  {
    assert Spare(p) == 3.0 - 100.0 / 5.0 == -17.0;
  }

  lemma MissedPosition(p: Position)
    requires p == Position(5.0, 6.0, 1.0, 3.0, 3.0, 100.0, 0.0, 6.0)
    ensures ValidPosition(p)
    ensures TurnCost(p) == TriedAt(100.0, 5.0, 6.0, 6.0, RaceRate(p), 3.0)
    ensures SplitCost(p, 2.0) == SplitCostAt(100.0, 5.0, 6.0, 6.0, RaceRate(p), 3.0, 2.0)
  {
    assert Threat(p) == 100.0;
  }

  lemma MissedSplits(rate: real)
    requires rate == 101.0 / 3.0
    ensures TriedAt(100.0, 5.0, 6.0, 6.0, rate, 3.0) == 100.0
    ensures SplitCostAt(100.0, 5.0, 6.0, 6.0, rate, 3.0, 2.0) == 90.0
  {
    assert EnoughAt(100.0, 5.0, 3.0) == 3.0;
    assert LossAt(6.0, rate, 6.0) == 6.0 * rate / 6.0 == rate;
  }

  // ----- what the parts of a cost are --------------------------------------------------

  /** A split leaks what the attack exceeds the block already up and what it blocks itself, and what
      the rest of the energy deals is taken off the enemies before the race. */
  lemma SplitCostIs(p: Position, z: real, blocked: real, dealt: real)
    requires ValidPosition(p) && 0.0 <= z <= p.energy
    requires blocked == z * p.sigma && dealt == (p.energy - z) * p.kappa
    ensures SplitCost(p, z)
            == Max(0.0, p.incoming - (Max(0.0, p.block) + blocked)) + RemainingLoss(p, p.remaining - dealt)
  {
    SplitAsIs(Threat(p), p.sigma, p.remaining, p.kappa, RaceRate(p), p.energy, z, blocked, dealt);
    ScaleLe(0.0, z, p.sigma);
    LeakOf(p.incoming, Max(0.0, p.block), blocked);
  }

  lemma SplitAsIs(t: real, s: real, r: real, k: real, rate: real, e: real, z: real, blocked: real, dealt: real)
    requires k > 0.0 && z <= e && blocked == z * s && dealt == (e - z) * k
    ensures SplitCostAt(t, s, r, k, rate, e, z) == Max(0.0, t - blocked) + LossAt(r - dealt, rate, k)
  {
    assert Max(0.0, e - z) == e - z;
  }

  lemma LeakOf(incoming: real, block: real, added: real)
    requires added >= 0.0
    ensures Max(0.0, Max(0.0, incoming - block) - added) == Max(0.0, incoming - (block + added))
  {
  }

  /** With nothing left to kill only this turn's leak is paid; without energy there is nothing to
      split. */
  lemma TurnCostIs(p: Position)
    requires ValidPosition(p)
    ensures p.remaining <= 0.0 ==> TurnCost(p) == Max(0.0, p.incoming - p.block)
    ensures p.remaining > 0.0 && p.energy == 0.0 ==>
      TurnCost(p) == Max(0.0, p.incoming - Max(0.0, p.block)) + RemainingLoss(p, p.remaining)
  {
    if p.remaining > 0.0 && p.energy == 0.0 {
      TurnCostIsLeastTried(p);
      SplitCostIs(p, 0.0, 0.0, 0.0);
    }
  }

  /** `w` brings the block exactly to the attack, or is nothing when the block is there already. */
  predicate JustBlocks(p: Position, w: real) {
    0.0 <= w <= p.energy && Max(0.0, p.block) + w * p.sigma == Max(p.incoming, Max(0.0, p.block))
  }

  predicate IsTried(p: Position, z: real) {
    z == 0.0 || z == p.energy || JustBlocks(p, z)
  }

  /** The cost of a turn is the least of no block, exactly enough (when the energy reaches that
      far) and everything. */
  lemma TurnCostIsLeastTried(p: Position)
    requires ValidPosition(p) && p.remaining > 0.0
    ensures forall z :: IsTried(p, z) ==> TurnCost(p) <= SplitCost(p, z)
    ensures exists z :: IsTried(p, z) && TurnCost(p) == SplitCost(p, z)
  {
    var t, e := Threat(p), p.energy;
    var w := EnoughAt(t, p.sigma, e);
    EnoughIs(t, p.sigma, e);
    assert IsTried(p, 0.0) && IsTried(p, e) && IsTried(p, w);
    forall z | JustBlocks(p, z) ensures z == w {
      OnlyEnough(t, p.sigma, e, z, w);
    }
    assert SplitCost(p, 0.0) == SplitCostAt(t, p.sigma, p.remaining, p.kappa, RaceRate(p), e, 0.0);
  }

  lemma OnlyEnough(t: real, s: real, e: real, z: real, w: real)
    requires s > 0.0 && 0.0 <= z <= e && z * s == t && Enough(t, s, e, w)
    ensures z == w
  {
    SignOfProduct(w - z, s);
    assert (w - z) * s == w * s - z * s;
    SignOfProduct(z - w, s);
    assert (z - w) * s == z * s - w * s;
  }

  /** Block that already meets the attack leaves only the race: thirty hit points at seven per
      energy and six damage per energy cost thirty-five. */
  lemma BlockedPosition() returns (p: Position)
    ensures ValidPosition(p) && p.incoming == p.block == 20.0 && p.energy == 0.0
    ensures Score(p, 50.0) == 15.0 && Score(p.(block := 0.0), 50.0) == -5.0
  {
    p := Position(5.0, 6.0, 1.0, 3.0, 0.0, 20.0, 20.0, 30.0);
    var q := p.(block := 0.0);
    TurnCostIs(p);
    TurnCostIs(q);
    assert Spare(p) == Spare(q) == -1.0;
    assert RemainingLoss(p, 30.0) == RemainingLoss(q, 30.0) == 35.0;
  }

  // ----- monotonicity ------------------------------------------------------------------

  lemma TriedIsMonotone(t: real, t': real, s: real, r: real, k: real, u: real, u': real, e: real, w: real, w': real)
    requires 0.0 <= t <= t' && s > 0.0 && k > 0.0 && 0.0 <= u <= u' && e >= 0.0
    requires Enough(t, s, e, w) && Enough(t', s, e, w')
    ensures Tried(t, s, r, k, u, e, w) <= Tried(t', s, r, k, u', e, w')
  {
    CostIsMonotone(t, t', s, r, k, u, u', e, 0.0);
    CostIsMonotone(t, t', s, r, k, u, u', e, w');
    CostIsMonotone(t, t', s, r, k, u, u', e, e);
    EnoughGrows(t, t', s, e, w, w');
    PastEnough(t, s, r, k, u, e, w, w');
    SmallerMin(Cost(t, s, r, k, u, e, 0.0), Cost(t, s, r, k, u, e, w), Cost(t, s, r, k, u, e, e),
               Cost(t', s, r, k, u', e, 0.0), Cost(t', s, r, k, u', e, w'), Cost(t', s, r, k, u', e, e));
  }

  lemma EnoughGrows(t: real, t': real, s: real, e: real, w: real, w': real)
    requires t <= t' && s > 0.0 && Enough(t, s, e, w) && Enough(t', s, e, w')
    ensures w <= w'
  {
    SignOfProduct(w' - w, s);
    assert (w' - w) * s == w' * s - w * s;
  }

  lemma SmallerMin(a: real, b: real, c: real, a': real, b': real, c': real)
    requires a <= a' && b <= b' && c <= c'
    ensures Min(Min(a, b), c) <= Min(Min(a', b'), c')
  {
  }

  lemma CostIsMonotone(t: real, t': real, s: real, r: real, k: real, u: real, u': real, e: real, z: real)
    requires t <= t' && 0.0 <= u <= u'
    ensures Cost(t, s, r, k, u, e, z) <= Cost(t', s, r, k, u', e, z)
  {
    ScaleLe(u, u', Max(0.0, r - (e - z) * k));
  }

  lemma TriedAtIsMonotone(t: real, t': real, s: real, r: real, k: real, rate: real, rate': real, e: real)
    requires 0.0 <= t <= t' && s > 0.0 && k > 0.0 && 0.0 < rate <= rate' && e >= 0.0 && r > 0.0
    ensures TriedAt(t, s, r, k, rate, e) <= TriedAt(t', s, r, k, rate', e)
  {
    var u := UnitPrice(k, rate);
    var u' := UnitPrice(k, rate');
    SignOfProduct(u' - u, k);
    assert (u' - u) * k == rate' - rate;
    TriedForm(t, s, r, k, rate, u, e);
    TriedForm(t', s, r, k, rate', u', e);
    TriedIsMonotone(t, t', s, r, k, u, u', e, EnoughAt(t, s, e), EnoughAt(t', s, e));
  }

  /** More block never lowers a score, and with no energy to split each point of it up to the
      attack is worth one hit point. */
  lemma MoreBlockNeverHurts(p: Position, block: real, hp: real)
    requires ValidPosition(p) && block >= p.block
    ensures Score(p.(block := block), hp) >= Score(p, hp)
    ensures p.energy == 0.0 && 0.0 <= p.block && block <= p.incoming ==>
      Score(p.(block := block), hp) == Score(p, hp) + (block - p.block)
  {
    var q := p.(block := block);
    TurnCostIs(p);
    TurnCostIs(q);
    assert RemainingLoss(q, q.remaining) == RemainingLoss(p, p.remaining);
    if p.remaining > 0.0 {
      RaceRatePositive(p);
      TriedAtIsMonotone(Threat(q), Threat(p), p.sigma, p.remaining, p.kappa, RaceRate(p), RaceRate(p), p.energy);
    }
  }

  /** A harder attack never makes the race cheaper. */
  lemma RaceRateIsMonotone(p: Position, incoming: real)
    requires ValidPosition(p) && incoming >= p.incoming
    ensures RaceRate(p) <= RaceRate(p.(incoming := incoming))
  {
    var q := p.(incoming := incoming);
    var x := BestSplit(q);
    BestSplitAttains(q);
    RateIsLeast(p, x);
    TurnLossIsMonotone(p, incoming, x);
    CrossMultiplySame(TurnLoss(p, x), TurnLoss(q, x), x);
    Between(RaceRate(p), TurnLoss(p, x) / x, TurnLoss(q, x) / x, RaceRate(q));
  }

  lemma TurnLossIsMonotone(p: Position, incoming: real, x: real)
    requires incoming >= p.incoming
    ensures TurnLoss(p, x) <= TurnLoss(p.(incoming := incoming), x)
  {
    LeakIsMonotone(p.incoming, incoming, (p.budget - x) * p.sigma);
  }

  lemma LeakIsMonotone(a: real, b: real, blocked: real)
    requires a <= b
    ensures Max(0.0, a - blocked) <= Max(0.0, b - blocked)
  {
  }

  lemma Between(a: real, b: real, c: real, d: real)
    requires a <= b <= c == d
    ensures a <= d
  {
  }

  lemma CrossMultiplySame(a: real, b: real, x: real)
    requires a <= b && x > 0.0
    ensures a / x <= b / x
  {
    ScaleLe(a, b, x);
    CrossMultiply(a, x, b, x);
  }

  /** A harder attack never raises a score. */
  lemma HarderAttackNeverHelps(p: Position, incoming: real, hp: real)
    requires ValidPosition(p) && incoming >= p.incoming
    ensures Score(p.(incoming := incoming), hp) <= Score(p, hp)
  {
    var q := p.(incoming := incoming);
    if p.remaining > 0.0 {
      RaceRatePositive(p);
      RaceRateIsMonotone(p, incoming);
      TriedAtIsMonotone(Threat(p), Threat(q), p.sigma, p.remaining, p.kappa, RaceRate(p), RaceRate(q), p.energy);
    }
  }
}
