/** Sampling without replacement by weights `exp(score / temperature)`: samples, probabilities, gradient. */
module PlackettLuce {
  import opened Wrappers
  import opened Ranking

  function RemoveAt(s: seq<nat>, p: nat): seq<nat>
    requires p < |s|
  {
    s[..p] + s[p + 1..]
  }

  /** Python's `list.remove`: the first occurrence goes. */
  function Without(s: seq<nat>, x: nat): seq<nat> {
    if s == [] then [] else if s[0] == x then s[1..] else [s[0]] + Without(s[1..], x)
  }

  lemma {:induction false} WithoutIsRemoveAt(s: seq<nat>, p: nat)
    requires NoRepeats(s) && p < |s|
    ensures Without(s, s[p]) == RemoveAt(s, p)
  {
    if p > 0 {
      assert s[0] != s[p];
      WithoutIsRemoveAt(s[1..], p - 1);
      assert RemoveAt(s, p) == [s[0]] + RemoveAt(s[1..], p - 1);
    }
  }

  lemma RemovedKeeps(s: seq<nat>, p: nat)
    requires NoRepeats(s) && p < |s|
    ensures NoRepeats(RemoveAt(s, p)) && s[p] !in RemoveAt(s, p)
    ensures forall x :: x in RemoveAt(s, p) <==> x in s && x != s[p]
  {
    var r := RemoveAt(s, p);
    forall x | x in s && x != s[p] ensures x in r {
      var i :| 0 <= i < |s| && s[i] == x;
      assert i < p ==> r[i] == x;
      assert i > p ==> r[i - 1] == x;
    }
  }

  // ----- all samples -------------------------------------------------------------------

  function Prefixed(x: nat, rest: seq<seq<nat>>): (r: seq<seq<nat>>)
    ensures |r| == |rest| && forall i :: 0 <= i < |r| ==> r[i] == [x] + rest[i]
  {
    seq(|rest|, i requires 0 <= i < |rest| => [x] + rest[i])
  }

  /** Every ordered choice of `k` of the available indices. */
  function Samples(available: seq<nat>, k: nat): seq<seq<nat>>
    decreases k, |available| + 1
  {
    if k == 0 then [[]] else SamplesFrom(available, k, |available|)
  }

  /** Those that start with one of the first `p` available indices. */
  function SamplesFrom(available: seq<nat>, k: nat, p: nat): seq<seq<nat>>
    requires k > 0 && p <= |available|
    decreases k, p
  {
    if p == 0 then []
    else SamplesFrom(available, k, p - 1) + Prefixed(available[p - 1], Samples(RemoveAt(available, p - 1), k - 1))
  }

  ghost predicate IsSample(available: seq<nat>, k: nat, order: seq<nat>) {
    |order| == k && NoRepeats(order) && forall x :: x in order ==> x in available
  }

  lemma TailIsSample(available: seq<nat>, k: nat, order: seq<nat>, p: nat)
    requires NoRepeats(available) && p < |available| && k > 0 && IsSample(available, k, order)
    requires order[0] == available[p]
    ensures IsSample(RemoveAt(available, p), k - 1, order[1..])
  {
    RemovedKeeps(available, p);
    forall x | x in order[1..] ensures x in RemoveAt(available, p) {
      var i :| 0 <= i < k - 1 && order[1..][i] == x;
      assert order[0] != order[i + 1];
    }
  }

  lemma HeadIsSample(available: seq<nat>, k: nat, rest: seq<nat>, p: nat)
    requires NoRepeats(available) && p < |available| && IsSample(RemoveAt(available, p), k, rest)
    ensures IsSample(available, k + 1, [available[p]] + rest)
  {
    RemovedKeeps(available, p);
    var order := [available[p]] + rest;
    forall b | 0 < b < |order| ensures order[0] != order[b] {
      assert order[b] == rest[b - 1] && rest[b - 1] in rest;
    }
  }

  /** The enumeration has exactly the ordered samples. */
  lemma {:induction false} SamplesAreAll(available: seq<nat>, k: nat, order: seq<nat>)
    requires NoRepeats(available)
    ensures order in Samples(available, k) <==> IsSample(available, k, order)
    decreases k, |available| + 1
  {
    if k > 0 {
      SamplesFromAreAll(available, k, |available|, order);
      if IsSample(available, k, order) {
        assert order[0] in available;
        var p :| 0 <= p < |available| && available[p] == order[0];
      }
      assert available[..|available|] == available;
    }
  }

  lemma {:induction false} SamplesFromAreAll(available: seq<nat>, k: nat, p: nat, order: seq<nat>)
    requires NoRepeats(available) && k > 0 && p <= |available|
    ensures order in SamplesFrom(available, k, p)
            <==> IsSample(available, k, order) && order[0] in available[..p]
    decreases k, p
  {
    if p > 0 {
      SamplesFromAreAll(available, k, p - 1, order);
      assert available[..p] == available[..p - 1] + [available[p - 1]];
      SamplesHere(available, k, p - 1, order);
    }
  }

  lemma {:induction false} SamplesHere(available: seq<nat>, k: nat, p: nat, order: seq<nat>)
    requires NoRepeats(available) && k > 0 && p < |available|
    ensures order in Prefixed(available[p], Samples(RemoveAt(available, p), k - 1))
            <==> IsSample(available, k, order) && order[0] == available[p]
    decreases k, p
  {
    var x, rest := available[p], RemoveAt(available, p);
    var inner := Samples(rest, k - 1);
    RemovedKeeps(available, p);
    if order in Prefixed(x, inner) {
      var i :| 0 <= i < |inner| && Prefixed(x, inner)[i] == order;
      assert inner[i] in inner && order == [x] + inner[i];
      SamplesAreAll(rest, k - 1, inner[i]);
      HeadIsSample(available, k - 1, inner[i], p);
    }
    if IsSample(available, k, order) && order[0] == x {
      TailIsSample(available, k, order, p);
      SamplesAreAll(rest, k - 1, order[1..]);
      var i :| 0 <= i < |inner| && inner[i] == order[1..];
      assert order == [x] + order[1..];
      assert Prefixed(x, inner)[i] == order;
    }
  }

  ghost predicate NoDoubles(samples: seq<seq<nat>>) {
    forall i, j :: 0 <= i < j < |samples| ==> samples[i] != samples[j]
  }

  /** And each of them once. */
  lemma {:induction false} SamplesAreDistinct(available: seq<nat>, k: nat)
    requires NoRepeats(available)
    ensures NoDoubles(Samples(available, k))
    decreases k, |available| + 1
  {
    if k > 0 {
      SamplesFromAreDistinct(available, k, |available|);
    }
  }

  lemma {:induction false} SamplesFromAreDistinct(available: seq<nat>, k: nat, p: nat)
    requires NoRepeats(available) && k > 0 && p <= |available|
    ensures NoDoubles(SamplesFrom(available, k, p))
    decreases k, p
  {
    if p > 0 {
      SamplesFromAreDistinct(available, k, p - 1);
      var rest := RemoveAt(available, p - 1);
      RemovedKeeps(available, p - 1);
      SamplesAreDistinct(rest, k - 1);
      var before, here := SamplesFrom(available, k, p - 1), Prefixed(available[p - 1], Samples(rest, k - 1));
      forall i, j | 0 <= i < |before| && 0 <= j < |here| ensures before[i] != here[j] {
        SamplesFromAreAll(available, k, p - 1, before[i]);
        assert here[j][0] == available[p - 1];
      }
      forall i, j | 0 <= i < j < |here| ensures here[i] != here[j] {
        assert here[i][1..] == Samples(rest, k - 1)[i] && here[j][1..] == Samples(rest, k - 1)[j];
      }
    }
  }

  // ----- any rule for the next pick ----------------------------------------------------

  function Times(a: real, b: real): real { a * b }

  /** The chance of each next pick, given what is still available. */
  type Rule = (seq<nat>, nat) -> real

  /** What the picks of `ids` add up to, each weighted by its chance. */
  function Weighted(chance: Rule, g: Rule, available: seq<nat>, ids: seq<nat>): real {
    if ids == [] then 0.0
    else Weighted(chance, g, available, ids[..|ids| - 1])
         + Times(chance(available, ids[|ids| - 1]), g(available, ids[|ids| - 1]))
  }

  function Chances(chance: Rule, available: seq<nat>, ids: seq<nat>): real {
    if ids == [] then 0.0
    else Chances(chance, available, ids[..|ids| - 1]) + chance(available, ids[|ids| - 1])
  }

  /** The chances of what is available add up to one. */
  ghost predicate Normal(chance: Rule) {
    forall available :: available != [] && NoRepeats(available) ==> Chances(chance, available, available) == 1.0
  }

  /** A pick adds nothing on average. */
  ghost predicate Centered(chance: Rule, g: Rule) {
    forall available :: available != [] && NoRepeats(available) ==> Weighted(chance, g, available, available) == 0.0
  }

  /** The probability of an ordered sample. */
  function Probability(chance: Rule, available: seq<nat>, order: seq<nat>): real
    decreases |order|
  {
    if order == [] then 1.0
    else Times(chance(available, order[0]), Probability(chance, Without(available, order[0]), order[1..]))
  }

  /** What the picks of a sample add up to. */
  function Gradient(g: Rule, available: seq<nat>, order: seq<nat>): real
    decreases |order|
  {
    if order == [] then 0.0
    else g(available, order[0]) + Gradient(g, Without(available, order[0]), order[1..])
  }

  /** The total probability and the expected gradient of a list of samples. */
  function TotalProbability(chance: Rule, available: seq<nat>, samples: seq<seq<nat>>): real {
    if samples == [] then 0.0
    else TotalProbability(chance, available, samples[..|samples| - 1])
         + Probability(chance, available, samples[|samples| - 1])
  }

  function Expected(chance: Rule, g: Rule, available: seq<nat>, samples: seq<seq<nat>>): real {
    if samples == [] then 0.0
    else
      var last := samples[|samples| - 1];
      Expected(chance, g, available, samples[..|samples| - 1])
      + Times(Probability(chance, available, last), Gradient(g, available, last))
  }

  lemma {:induction false} TotalsOfBoth(chance: Rule, g: Rule, available: seq<nat>, a: seq<seq<nat>>, b: seq<seq<nat>>)
    ensures TotalProbability(chance, available, a + b)
            == TotalProbability(chance, available, a) + TotalProbability(chance, available, b)
    ensures Expected(chance, g, available, a + b)
            == Expected(chance, g, available, a) + Expected(chance, g, available, b)
    decreases |b|
  {
    if b == [] {
      assert a + b == a;
    } else {
      assert (a + b)[..|a + b| - 1] == a + b[..|b| - 1];
      TotalsOfBoth(chance, g, available, a, b[..|b| - 1]);
    }
  }

  /** A first pick `x` scales the probability and shifts the gradient of all that follows. */
  lemma FirstPick(chance: Rule, g: Rule, available: seq<nat>, x: nat, r: seq<nat>)
    ensures Probability(chance, available, [x] + r)
            == Times(chance(available, x), Probability(chance, Without(available, x), r))
    ensures Gradient(g, available, [x] + r) == g(available, x) + Gradient(g, Without(available, x), r)
  {
    assert ([x] + r)[1..] == r;
  }

  lemma {:induction false} TotalsOfPrefixed(chance: Rule, g: Rule, available: seq<nat>, x: nat, rest: seq<seq<nat>>)
    ensures var c, h, others := chance(available, x), g(available, x), Without(available, x);
      && TotalProbability(chance, available, Prefixed(x, rest)) == Times(c, TotalProbability(chance, others, rest))
      && Expected(chance, g, available, Prefixed(x, rest))
         == Times(c, Times(h, TotalProbability(chance, others, rest)) + Expected(chance, g, others, rest))
    decreases |rest|
  {
    var p := Prefixed(x, rest);
    if rest == [] {
      assert p == [];
    } else {
      var front, last := rest[..|rest| - 1], rest[|rest| - 1];
      var others := Without(available, x);
      TotalsOfPrefixed(chance, g, available, x, front);
      FirstPick(chance, g, available, x, last);
      assert p[..|p| - 1] == Prefixed(x, front) && p[|p| - 1] == [x] + last;
      OneMoreTerm(chance(available, x), g(available, x), TotalProbability(chance, others, front),
                  Expected(chance, g, others, front), Probability(chance, others, last), Gradient(g, others, last));
    }
  }

  lemma OneMoreTerm(c: real, g: real, a: real, b: real, p: real, q: real)
    ensures Times(c, a) + Times(c, p) == Times(c, a + p)
    ensures Times(c, Times(g, a) + b) + Times(Times(c, p), g + q) == Times(c, Times(g, a + p) + (b + Times(p, q)))
  {
  }

  /** Over all ordered samples without replacement, the probabilities of a normal rule sum to
      one, and a centered gradient has zero expectation. */
  lemma {:induction false} TotalsOfSamples(chance: Rule, g: Rule, available: seq<nat>, k: nat)
    requires Normal(chance) && Centered(chance, g) && NoRepeats(available) && k <= |available|
    ensures TotalProbability(chance, available, Samples(available, k)) == 1.0
    ensures Expected(chance, g, available, Samples(available, k)) == 0.0
    decreases k, |available| + 1
  {
    if k == 0 {
      assert Samples(available, 0)[..0] == [];
    } else {
      TotalsFrom(chance, g, available, k, |available|);
      assert available[..|available|] == available;
    }
  }

  lemma {:induction false} TotalsFrom(chance: Rule, g: Rule, available: seq<nat>, k: nat, p: nat)
    requires Normal(chance) && Centered(chance, g) && NoRepeats(available) && 0 < k <= |available| && p <= |available|
    ensures TotalProbability(chance, available, SamplesFrom(available, k, p))
            == Chances(chance, available, available[..p])
    ensures Expected(chance, g, available, SamplesFrom(available, k, p))
            == Weighted(chance, g, available, available[..p])
    decreases k, p
  {
    if p > 0 {
      TotalsFrom(chance, g, available, k, p - 1);
      TotalsHere(chance, g, available, k, p - 1);
      TotalsOfBoth(chance, g, available, SamplesFrom(available, k, p - 1),
                   Prefixed(available[p - 1], Samples(RemoveAt(available, p - 1), k - 1)));
      ChancesOfNext(chance, g, available, p);
    }
  }

  lemma ChancesOfNext(chance: Rule, g: Rule, available: seq<nat>, p: nat)
    requires 0 < p <= |available|
    ensures var x := available[p - 1];
      && Chances(chance, available, available[..p])
         == Chances(chance, available, available[..p - 1]) + chance(available, x)
      && Weighted(chance, g, available, available[..p])
         == Weighted(chance, g, available, available[..p - 1]) + Times(chance(available, x), g(available, x))
  {
    assert available[..p][..p - 1] == available[..p - 1];
  }

  lemma {:induction false} TotalsHere(chance: Rule, g: Rule, available: seq<nat>, k: nat, p: nat)
    requires Normal(chance) && Centered(chance, g) && NoRepeats(available) && 0 < k <= |available| && p < |available|
    ensures var x := available[p];
      var here := Prefixed(x, Samples(RemoveAt(available, p), k - 1));
      && TotalProbability(chance, available, here) == chance(available, x)
      && Expected(chance, g, available, here) == Times(chance(available, x), g(available, x))
    decreases k, p
  {
    var rest := RemoveAt(available, p);
    RemovedKeeps(available, p);
    WithoutIsRemoveAt(available, p);
    TotalsOfSamples(chance, g, rest, k - 1);
    TotalsAfter(chance, g, available, available[p], Samples(rest, k - 1));
  }

  /** One first pick, followed by samples that total one and add nothing on average. */
  lemma TotalsAfter(chance: Rule, g: Rule, available: seq<nat>, x: nat, rest: seq<seq<nat>>)
    requires TotalProbability(chance, Without(available, x), rest) == 1.0
    requires Expected(chance, g, Without(available, x), rest) == 0.0
    ensures TotalProbability(chance, available, Prefixed(x, rest)) == chance(available, x)
    ensures Expected(chance, g, available, Prefixed(x, rest)) == Times(chance(available, x), g(available, x))
  {
    TotalsOfPrefixed(chance, g, available, x, rest);
    UnitTotals(chance(available, x), g(available, x));
  }

  lemma UnitTotals(c: real, h: real)
    ensures Times(c, 1.0) == c && Times(c, Times(h, 1.0) + 0.0) == Times(c, h)
  {
  }

  // ----- the softmax rule --------------------------------------------------------------

  ghost predicate Positive(w: nat -> real) {
    forall i :: w(i) > 0.0
  }

  function Sum(w: nat -> real, ids: seq<nat>): real {
    if ids == [] then 0.0 else Sum(w, ids[..|ids| - 1]) + w(ids[|ids| - 1])
  }

  lemma {:induction false} SumPositive(w: nat -> real, ids: seq<nat>)
    requires Positive(w)
    ensures Sum(w, ids) >= 0.0 && (ids != [] ==> Sum(w, ids) > 0.0)
  {
    if ids != [] {
      SumPositive(w, ids[..|ids| - 1]);
    }
  }

  function Share(w: nat -> real, available: seq<nat>, x: nat): real {
    var total := Sum(w, available);
    if total > 0.0 then w(x) / total else 0.0
  }

  /** Each available index is picked in proportion to its weight. */
  function Softmax(w: nat -> real): Rule {
    (available: seq<nat>, x: nat) => Share(w, available, x)
  }

  /** The expected feature of the next pick. */
  function Mean(w: nat -> real, phi: nat -> real, available: seq<nat>): real {
    Weighted(Softmax(w), (a: seq<nat>, x: nat) => phi(x), available, available)
  }

  /** What one pick adds to one coordinate of the log-probability gradient: its feature less the
      expected one, over the temperature. */
  function PickGradient(w: nat -> real, phi: nat -> real, inverse: real): Rule {
    (available: seq<nat>, x: nat) => Times(phi(x) - Mean(w, phi, available), inverse)
  }

  lemma ShareTimesTotal(w: nat -> real, available: seq<nat>, x: nat)
    requires Positive(w) && available != []
    ensures Times(Share(w, available, x), Sum(w, available)) == w(x)
  {
    SumPositive(w, available);
  }

  lemma {:induction false} ChancesTimesTotal(w: nat -> real, available: seq<nat>, ids: seq<nat>)
    requires Positive(w) && available != []
    ensures Times(Chances(Softmax(w), available, ids), Sum(w, available)) == Sum(w, ids)
    decreases |ids|
  {
    if ids != [] {
      ChancesTimesTotal(w, available, ids[..|ids| - 1]);
      ShareTimesTotal(w, available, ids[|ids| - 1]);
      SumTimes(Chances(Softmax(w), available, ids[..|ids| - 1]), Share(w, available, ids[|ids| - 1]),
               Sum(w, available));
    }
  }

  lemma SumTimes(a: real, b: real, c: real)
    ensures Times(a + b, c) == Times(a, c) + Times(b, c)
  {
  }

  lemma IsOne(a: real, total: real)
    requires total > 0.0 && Times(a, total) == total
    ensures a == 1.0
  {
    assert (a - 1.0) * total == a * total - total;
  }

  lemma SoftmaxIsNormal(w: nat -> real)
    requires Positive(w)
    ensures Normal(Softmax(w))
  {
    forall available: seq<nat> | available != [] && NoRepeats(available)
      ensures Chances(Softmax(w), available, available) == 1.0
    {
      SumPositive(w, available);
      ChancesTimesTotal(w, available, available);
      IsOne(Chances(Softmax(w), available, available), Sum(w, available));
    }
  }

  /** The gradient of some picks is their weighted features less the mean for each. */
  lemma {:induction false} WeightedGradient(w: nat -> real, phi: nat -> real, inverse: real, available: seq<nat>,
                                            ids: seq<nat>, mean: real)
    requires mean == Mean(w, phi, available)
    ensures Weighted(Softmax(w), PickGradient(w, phi, inverse), available, ids)
            == Times(Weighted(Softmax(w), (a: seq<nat>, x: nat) => phi(x), available, ids)
                     - Times(mean, Chances(Softmax(w), available, ids)), inverse)
    decreases |ids|
  {
    if ids != [] {
      var front, last := ids[..|ids| - 1], ids[|ids| - 1];
      WeightedGradient(w, phi, inverse, available, front, mean);
      OneMoreGradient(Weighted(Softmax(w), (a: seq<nat>, x: nat) => phi(x), available, front),
                      Chances(Softmax(w), available, front), Share(w, available, last), phi(last), mean, inverse);
    }
  }

  lemma OneMoreGradient(m: real, t: real, share: real, f: real, mean: real, inverse: real)
    ensures Times(m - Times(mean, t), inverse) + Times(share, Times(f - mean, inverse))
            == Times(m + Times(share, f) - Times(mean, t + share), inverse)
  {
  }

  lemma GradientIsCentered(w: nat -> real, phi: nat -> real, inverse: real)
    requires Positive(w)
    ensures Centered(Softmax(w), PickGradient(w, phi, inverse))
  {
    SoftmaxIsNormal(w);
    forall available: seq<nat> | available != [] && NoRepeats(available)
      ensures Weighted(Softmax(w), PickGradient(w, phi, inverse), available, available) == 0.0
    {
      WeightedGradient(w, phi, inverse, available, available, Mean(w, phi, available));
      assert Chances(Softmax(w), available, available) == 1.0;
      NothingLeft(Mean(w, phi, available), inverse);
    }
  }

  lemma NothingLeft(mean: real, inverse: real)
    ensures Times(mean - Times(mean, 1.0), inverse) == 0.0
  {
  }

  /** For any positive weights, the probabilities of all ordered samples sum to one, and each
      coordinate of the log-probability gradient has zero expectation over them. */
  lemma SamplingIsUnbiased(w: nat -> real, phi: nat -> real, inverse: real, available: seq<nat>, k: nat)
    requires Positive(w) && NoRepeats(available) && k <= |available|
    ensures TotalProbability(Softmax(w), available, Samples(available, k)) == 1.0
    ensures Expected(Softmax(w), PickGradient(w, phi, inverse), available, Samples(available, k)) == 0.0
  {
    SoftmaxIsNormal(w);
    GradientIsCentered(w, phi, inverse);
    TotalsOfSamples(Softmax(w), PickGradient(w, phi, inverse), available, k);
  }

  // ----- one sample, step by step ------------------------------------------------------

  /** What is left after the picks of `order`. */
  function Left(available: seq<nat>, order: seq<nat>): seq<nat> {
    if order == [] then available
    else Without(Left(available, order[..|order| - 1]), order[|order| - 1])
  }

  lemma LeftAfter(available: seq<nat>, order: seq<nat>, x: nat)
    ensures Left(available, order + [x]) == Without(Left(available, order), x)
  {
    assert (order + [x])[..|order|] == order;
  }

  lemma {:induction false} LeftMembers(available: seq<nat>, order: seq<nat>)
    requires NoRepeats(available)
    ensures NoRepeats(Left(available, order))
    ensures forall x :: x in Left(available, order) <==> x in available && x !in order
    decreases |order|
  {
    if order != [] {
      var front, last := order[..|order| - 1], order[|order| - 1];
      LeftMembers(available, front);
      assert order == front + [last];
      var left := Left(available, front);
      if last in left {
        var p :| 0 <= p < |left| && left[p] == last;
        WithoutIsRemoveAt(left, p);
        RemovedKeeps(left, p);
      } else {
        WithoutAbsent(left, last);
      }
    }
  }

  lemma {:induction false} WithoutAbsent(s: seq<nat>, x: nat)
    requires x !in s
    ensures Without(s, x) == s
  {
    if s != [] {
      WithoutAbsent(s[1..], x);
    }
  }

  lemma {:induction false} LeftShifts(available: seq<nat>, order: seq<nat>)
    requires order != []
    ensures Left(available, order) == Left(Without(available, order[0]), order[1..])
    decreases |order|
  {
    if |order| > 1 {
      var front := order[..|order| - 1];
      LeftShifts(available, front);
      assert front[1..] == order[1..][..|order| - 2];
    }
  }

  /** A pick at the end multiplies the probability by its chance and adds to the gradient. */
  lemma {:induction false} LastPick(chance: Rule, g: Rule, available: seq<nat>, order: seq<nat>, x: nat)
    ensures Probability(chance, available, order + [x])
            == Times(Probability(chance, available, order), chance(Left(available, order), x))
    ensures Gradient(g, available, order + [x]) == Gradient(g, available, order) + g(Left(available, order), x)
    decreases |order|
  {
    var longer := order + [x];
    if order == [] {
      assert longer[1..] == [];
      assert Times(chance(available, x), 1.0) == Times(1.0, chance(available, x));
    } else {
      assert longer[1..] == order[1..] + [x];
      LeftShifts(available, order);
      LastPick(chance, g, Without(available, order[0]), order[1..], x);
      TimesAssociates(chance(available, order[0]), Probability(chance, Without(available, order[0]), order[1..]),
                      chance(Left(available, order), x));
    }
  }

  lemma TimesAssociates(a: real, b: real, c: real)
    ensures Times(a, Times(b, c)) == Times(Times(a, b), c)
  {
  }

  function Initial(n: nat): (r: seq<nat>)
    ensures |r| == n && (forall i :: 0 <= i < n ==> r[i] == i)
    ensures NoRepeats(r) && forall x: nat :: x in r <==> x < n
  {
    var r: seq<nat> := if n == 0 then [] else Initial(n - 1) + [n - 1];
    assert forall x: nat :: x < n ==> r[x] == x && x in r;
    r
  }

  lemma StillAvailable(n: nat, order: seq<nat>, x: nat)
    ensures x in Left(Initial(n), order) <==> x < n && x !in order
    ensures NoRepeats(Left(Initial(n), order))
  {
    LeftMembers(Initial(n), order);
  }

  /** Valid sampled indices: in range and without repeats. */
  ghost predicate ValidIndices(n: nat, sampled: seq<int>) {
    (forall i :: 0 <= i < |sampled| ==> 0 <= sampled[i] < n)
    && forall i, j :: 0 <= i < j < |sampled| ==> sampled[i] != sampled[j]
  }

  /** Scores one recorded sample: its probability and one coordinate of its gradient, pick by
      pick. Anything but distinct indices of the frontier is refused. */
  method ScoreSample(w: nat -> real, phi: nat -> real, inverse: real, n: nat, sampled: seq<int>)
    returns (r: Option<(real, real)>, ghost order: seq<nat>)
    ensures r.Some? <==> ValidIndices(n, sampled)
    ensures r.Some? ==> |order| == |sampled| && forall i :: 0 <= i < |sampled| ==> order[i] == sampled[i]
    ensures r.Some? ==> r.value == (Probability(Softmax(w), Initial(n), order),
                                    Gradient(PickGradient(w, phi, inverse), Initial(n), order))
  {
    var available := Initial(n);
    var probability, gradient := 1.0, 0.0;
    order := [];
    for i := 0 to |sampled|
      invariant Follows(n, sampled, i, order)
      invariant available == Left(Initial(n), order)
      invariant ScoredProbability(w, n, order, probability) && ScoredGradient(w, phi, inverse, n, order, gradient)
    {
      NextIsValid(n, sampled, i, order);
      if sampled[i] < 0 {
        return None, order;
      }
      var x: nat := sampled[i];
      if x !in available {
        return None, order;
      }
      LeftAfter(Initial(n), order, x);
      NextProbability(w, n, order, x, probability);
      NextGradient(w, phi, inverse, n, order, x, gradient);
      probability := Times(probability, Share(w, available, x));
      gradient := gradient + Times(phi(x) - Mean(w, phi, available), inverse);
      available := Without(available, x);
      order := order + [x];
    }
    assert sampled[..|sampled|] == sampled;
    r := Some((probability, gradient));
  }

  /** The first `i` sampled indices are valid, and `order` is their list. */
  ghost predicate Follows(n: nat, sampled: seq<int>, i: nat, order: seq<nat>) {
    && i <= |sampled| && |order| == i && (forall j :: 0 <= j < i ==> order[j] == sampled[j])
    && ValidIndices(n, sampled[..i])
  }

  lemma NextIsValid(n: nat, sampled: seq<int>, i: nat, order: seq<nat>)
    requires Follows(n, sampled, i, order) && i < |sampled|
    ensures if sampled[i] >= 0 && sampled[i] in Left(Initial(n), order)
            then Follows(n, sampled, i + 1, order + [sampled[i]])
            else !ValidIndices(n, sampled)
  {
    assert sampled[..i + 1] == sampled[..i] + [sampled[i]];
    if sampled[i] >= 0 {
      StillAvailable(n, order, sampled[i]);
    }
  }

  ghost predicate ScoredProbability(w: nat -> real, n: nat, order: seq<nat>, probability: real) {
    probability == Probability(Softmax(w), Initial(n), order)
  }

  ghost predicate ScoredGradient(w: nat -> real, phi: nat -> real, inverse: real, n: nat, order: seq<nat>,
                                 gradient: real)
  {
    gradient == Gradient(PickGradient(w, phi, inverse), Initial(n), order)
  }

  lemma NextProbability(w: nat -> real, n: nat, order: seq<nat>, x: nat, probability: real)
    requires ScoredProbability(w, n, order, probability)
    ensures ScoredProbability(w, n, order + [x], Times(probability, Share(w, Left(Initial(n), order), x)))
  {
    LastPick(Softmax(w), Softmax(w), Initial(n), order, x);
  }

  lemma NextGradient(w: nat -> real, phi: nat -> real, inverse: real, n: nat, order: seq<nat>, x: nat, gradient: real)
    requires ScoredGradient(w, phi, inverse, n, order, gradient)
    ensures ScoredGradient(w, phi, inverse, n, order + [x],
                           gradient + Times(phi(x) - Mean(w, phi, Left(Initial(n), order)), inverse))
  {
    LastPick(Softmax(w), PickGradient(w, phi, inverse), Initial(n), order, x);
  }

  // ----- the threshold sampler ---------------------------------------------------------

  /** The threshold falls on the pick's own interval of the cumulative chances. */
  ghost predicate OnInterval(chance: Rule, available: seq<nat>, p: nat, t: real) {
    p < |available| && Chances(chance, available, available[..p]) <= t < Chances(chance, available, available[..p + 1])
  }

  lemma {:induction false} ChancesGrow(w: nat -> real, available: seq<nat>, p: nat, q: nat)
    requires Positive(w) && p <= q <= |available|
    ensures Chances(Softmax(w), available, available[..p]) <= Chances(Softmax(w), available, available[..q])
    decreases q - p
  {
    if p < q {
      ChancesGrow(w, available, p, q - 1);
      IntervalIsChance(w, available, q - 1);
    }
  }

  /** The interval of a pick is as long as its chance, which is positive. */
  lemma IntervalIsChance(w: nat -> real, available: seq<nat>, p: nat)
    requires Positive(w) && p < |available|
    ensures Chances(Softmax(w), available, available[..p + 1])
            == Chances(Softmax(w), available, available[..p]) + Share(w, available, available[p])
    ensures Share(w, available, available[p]) > 0.0
  {
    assert available[..p + 1][..p] == available[..p];
    SumPositive(w, available);
    ShareTimesTotal(w, available, available[p]);
    PositiveFactor(Share(w, available, available[p]), Sum(w, available));
  }

  lemma PositiveFactor(a: real, b: real)
    requires Times(a, b) > 0.0 && b > 0.0
    ensures a > 0.0
  {
  }

  /** Every threshold falls on the interval of exactly one pick. */
  lemma IntervalIsUnique(w: nat -> real, available: seq<nat>, p: nat, q: nat, t: real)
    requires Positive(w) && OnInterval(Softmax(w), available, p, t) && OnInterval(Softmax(w), available, q, t)
    ensures p == q
  {
    if p < q {
      ChancesGrow(w, available, p + 1, q);
    } else if q < p {
      ChancesGrow(w, available, q + 1, p);
    }
  }

  /** One draw: the first position at which the cumulative chance passes the threshold. */
  method DrawPosition(w: nat -> real, available: seq<nat>, t: real) returns (position: nat)
    requires Positive(w) && NoRepeats(available) && available != [] && 0.0 <= t < 1.0
    ensures OnInterval(Softmax(w), available, position, t)
  {
    position := |available| - 1;
    var cumulative := 0.0;
    var p := 0;
    SoftmaxIsNormal(w);
    assert available[..|available|] == available && Chances(Softmax(w), available, available[..0]) == 0.0;
    while p < |available|
      invariant p <= |available| && cumulative == Chances(Softmax(w), available, available[..p]) <= t
    {
      IntervalIsChance(w, available, p);
      cumulative := cumulative + Share(w, available, available[p]);
      if t < cumulative {
        return p;
      }
      p := p + 1;
    }
  }

  /** A sampled order: each pick was still available and fell on its own threshold interval. */
  ghost predicate Sampled(w: nat -> real, n: nat, order: seq<nat>, thresholds: seq<real>) {
    && |order| <= |thresholds| && NoRepeats(order) && Indices(order, n)
    && forall i :: 0 <= i < |order| ==> PickedAt(w, n, order[..i], order[i], thresholds[i])
  }

  ghost predicate PickedAt(w: nat -> real, n: nat, before: seq<nat>, x: nat, t: real) {
    exists p: nat :: p < |Left(Initial(n), before)| && Left(Initial(n), before)[p] == x
                     && OnInterval(Softmax(w), Left(Initial(n), before), p, t)
  }

  /** Draws `take` distinct indices, one threshold each. */
  method SampleOrder(w: nat -> real, n: nat, take: nat, thresholds: seq<real>) returns (order: seq<nat>)
    requires Positive(w) && take <= n && |thresholds| == take
    requires forall i :: 0 <= i < take ==> 0.0 <= thresholds[i] < 1.0
    ensures |order| == take && Sampled(w, n, order, thresholds)
  {
    var available := Initial(n);
    order := [];
    for i := 0 to take
      invariant |order| == i && Sampled(w, n, order, thresholds)
      invariant available == Left(Initial(n), order) && |available| == n - i
    {
      StillAvailable(n, order, 0);
      var p := DrawPosition(w, available, thresholds[i]);
      var x := available[p];
      StillAvailable(n, order, x);
      WithoutIsRemoveAt(available, p);
      LeftAfter(Initial(n), order, x);
      assert PickedAt(w, n, order, x, thresholds[i]);
      SampledGrows(w, n, order, x, thresholds);
      available := available[..p] + available[p + 1..];
      order := order + [x];
    }
  }

  lemma SampledGrows(w: nat -> real, n: nat, order: seq<nat>, x: nat, thresholds: seq<real>)
    requires |order| < |thresholds| && Sampled(w, n, order, thresholds) && x < n && x !in order
    requires PickedAt(w, n, order, x, thresholds[|order|])
    ensures Sampled(w, n, order + [x], thresholds)
  {
    var longer := order + [x];
    forall i | 0 <= i < |longer| ensures PickedAt(w, n, longer[..i], longer[i], thresholds[i]) {
      if i < |order| {
        assert longer[..i] == order[..i];
      } else {
        assert longer[..i] == order;
      }
    }
  }
}
