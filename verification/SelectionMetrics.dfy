/** Training pairs and offline metrics of a learned pruner: the pairs a frontier's labelled nodes
    give, and how a scoring's first `k` nodes compare with the teacher's. */
module SelectionMetrics {
  import opened Wrappers
  import opened Ranking

  /** A frontier node; `target` and `weight` are missing when the Oracle gave no outcome. */
  datatype Node = Node(id: string, features: seq<real>, target: Option<real>, weight: Option<real>)

  // ----- pairs -------------------------------------------------------------------------

  datatype Frontier = Frontier(step: string, nodes: seq<Node>)

  datatype Pair = Pair(step: string, features: seq<real>, outcome: int, weight: real, positive: string,
                       negative: string, gap: real)

  function Negated(v: seq<real>): (r: seq<real>)
    ensures |r| == |v| && forall i :: 0 <= i < |v| ==> r[i] == -v[i]
  {
    seq(|v|, i requires 0 <= i < |v| => -v[i])
  }

  function Difference(a: seq<real>, b: seq<real>): (r: seq<real>)
    requires |a| == |b|
    ensures |r| == |a| && forall i :: 0 <= i < |a| ==> r[i] == a[i] - b[i]
  {
    seq(|a|, i requires 0 <= i < |a| => a[i] - b[i])
  }

  /** The same comparison the other way round. */
  function Mirror(p: Pair): (r: Pair)
    ensures Opposite(p, r)
  {
    p.(features := Negated(p.features), outcome := 1 - p.outcome, positive := p.negative, negative := p.positive)
  }

  /** Two pairs that say the same of the same two nodes, one for each order of them. */
  ghost predicate Opposite(p: Pair, q: Pair) {
    && p.step == q.step && p.weight == q.weight && p.gap == q.gap
    && p.outcome + q.outcome == 1 && p.positive == q.negative && p.negative == q.positive
    && |p.features| == |q.features| && forall k :: 0 <= k < |p.features| ==> p.features[k] + q.features[k] == 0.0
  }

  lemma OppositeIsMirror(p: Pair, q: Pair)
    requires Opposite(p, q)
    ensures q == Mirror(p) && p == Mirror(q)
  {
    assert q.features == Negated(p.features) && p.features == Negated(q.features);
  }

  predicate Labelled(n: Node) {
    n.target.Some? && n.weight.Some?
  }

  /** The nodes to compare, in order. */
  function LabelledNodes(nodes: seq<Node>): (r: seq<Node>)
    ensures forall n :: n in r <==> n in nodes && Labelled(n)
  {
    if nodes == [] then []
    else
      assert nodes == nodes[..|nodes| - 1] + [nodes[|nodes| - 1]];
      var front := LabelledNodes(nodes[..|nodes| - 1]);
      if Labelled(nodes[|nodes| - 1]) then front + [nodes[|nodes| - 1]] else front
  }

  /** The pair that says `better` is worth more than `worse`. */
  function PairOf(step: string, better: Node, worse: Node): Pair
    requires Labelled(better) && Labelled(worse) && |better.features| == |worse.features|
  {
    var weight := if better.weight.value <= worse.weight.value then better.weight.value else worse.weight.value;
    Pair(step, Difference(better.features, worse.features), 1, weight, better.id, worse.id,
         better.target.value - worse.target.value)
  }

  /** The pair `p` prefers `higher` to `lower`: its features are the higher node's minus the lower's
      at every position, its weight the smaller of the two, its gap the difference of the targets. */
  ghost predicate Prefers(p: Pair, step: string, higher: Node, lower: Node) {
    && Labelled(higher) && Labelled(lower)
    && p.step == step && p.outcome == 1 && p.positive == higher.id && p.negative == lower.id
    && |p.features| == |higher.features| == |lower.features|
    && (forall k :: 0 <= k < |p.features| ==> p.features[k] == higher.features[k] - lower.features[k])
    && p.weight <= higher.weight.value && p.weight <= lower.weight.value
    && p.weight in {higher.weight.value, lower.weight.value}
    && p.gap == higher.target.value - lower.target.value
  }

  lemma PairPrefers(step: string, better: Node, worse: Node)
    requires Labelled(better) && Labelled(worse) && |better.features| == |worse.features|
    ensures Prefers(PairOf(step, better, worse), step, better, worse)
  {
  }

  /** Every pair has its mirror image beside it. */
  ghost predicate Mirrored(pairs: seq<Pair>) {
    |pairs| % 2 == 0 && forall i :: 0 <= 2 * i < |pairs| ==> Opposite(pairs[2 * i], pairs[2 * i + 1])
  }

  /** A pair prefers one labelled node of the frontier to another whose target is lower by more than
      the minimum. */
  ghost predicate FromFrontier(f: Frontier, minGap: real, p: Pair) {
    p.gap > minGap && exists higher, lower :: higher in f.nodes && lower in f.nodes && Prefers(p, f.step, higher, lower)
  }

  /** Outcome-one pairs come from the frontiers. */
  ghost predicate FromFrontiers(frontiers: seq<Frontier>, minGap: real, pairs: seq<Pair>) {
    forall i :: 0 <= 2 * i < |pairs| ==> Sourced(frontiers, minGap, pairs[2 * i])
  }

  ghost predicate Sourced(frontiers: seq<Frontier>, minGap: real, p: Pair) {
    exists f :: f in frontiers && FromFrontier(f, minGap, p)
  }

  predicate WideApart(a: Node, b: Node, minGap: real)
    requires Labelled(a) && Labelled(b)
  {
    a.target.value - b.target.value > minGap || b.target.value - a.target.value > minGap
  }

  /** Two labelled nodes that have to be compared but cannot be. */
  ghost predicate Mismatched(nodes: seq<Node>, minGap: real) {
    exists a, b :: 0 <= a < b < |nodes| && Labelled(nodes[a]) && Labelled(nodes[b])
      && WideApart(nodes[a], nodes[b], minGap) && |nodes[a].features| != |nodes[b].features|
  }

  ghost predicate Preferred(step: string, pairs: seq<Pair>, higher: Node, lower: Node) {
    exists p :: p in pairs && Prefers(p, step, higher, lower)
  }

  ghost predicate Compared(step: string, pairs: seq<Pair>, a: Node, b: Node, minGap: real) {
    Labelled(a) && Labelled(b) ==>
      && (a.target.value - b.target.value > minGap ==> Preferred(step, pairs, a, b))
      && (b.target.value - a.target.value > minGap ==> Preferred(step, pairs, b, a))
  }

  ghost predicate AllCompared(f: Frontier, pairs: seq<Pair>, minGap: real) {
    var nodes := LabelledNodes(f.nodes);
    forall a, b :: 0 <= a < b < |nodes| ==> Compared(f.step, pairs, nodes[a], nodes[b], minGap)
  }

  predicate Wide(a: Node, b: Node, minGap: real) {
    Labelled(a) && Labelled(b) && WideApart(a, b, minGap)
  }

  /** How many nodes after node `i` and before node `j` are wide apart from node `i`. */
  ghost function WideInRow(nodes: seq<Node>, minGap: real, i: nat, j: nat): nat
    requires i < j <= |nodes|
  {
    if j == i + 1 then 0
    else WideInRow(nodes, minGap, i, j - 1) + if Wide(nodes[i], nodes[j - 1], minGap) then 1 else 0
  }

  /** How many comparisons of the first `n` nodes with later ones are wide enough. */
  ghost function WideRows(nodes: seq<Node>, minGap: real, n: nat): nat
    requires n <= |nodes|
  {
    if n == 0 then 0 else WideRows(nodes, minGap, n - 1) + WideInRow(nodes, minGap, n - 1, |nodes|)
  }

  /** How many comparisons of all frontiers are wide enough. */
  ghost function WideCount(frontiers: seq<Frontier>, minGap: real): nat {
    if frontiers == [] then 0
    else
      var nodes := LabelledNodes(frontiers[|frontiers| - 1].nodes);
      WideCount(frontiers[..|frontiers| - 1], minGap) + WideRows(nodes, minGap, |nodes|)
  }

  /** The pairs of all frontiers: their unlabelled nodes are dropped, and of what is left both
      directions of every comparison wide enough are listed, once each, and nothing else. A negative
      minimum and feature vectors of different lengths are refused. */
  method BuildPairs(frontiers: seq<Frontier>, minGap: real) returns (r: Option<seq<Pair>>)
    ensures r.None? <==> minGap < 0.0 || exists f :: f in frontiers && Mismatched(LabelledNodes(f.nodes), minGap)
    ensures r.Some? ==> Mirrored(r.value) && FromFrontiers(frontiers, minGap, r.value)
    ensures r.Some? ==> forall f :: f in frontiers ==> AllCompared(f, r.value, minGap)
    ensures r.Some? ==> |r.value| == 2 * WideCount(frontiers, minGap)
  {
    if minGap < 0.0 {
      return None;
    }
    var pairs: seq<Pair> := [];
    for n := 0 to |frontiers|
      invariant forall f :: f in frontiers[..n] ==> !Mismatched(LabelledNodes(f.nodes), minGap)
      invariant Mirrored(pairs) && FromFrontiers(frontiers[..n], minGap, pairs)
      invariant forall f :: f in frontiers[..n] ==> AllCompared(f, pairs, minGap)
      invariant |pairs| == 2 * WideCount(frontiers[..n], minGap)
    {
      var f := frontiers[n];
      assert frontiers[..n + 1] == frontiers[..n] + [f];
      assert frontiers[..n + 1][..n] == frontiers[..n];
      var ok, more := FrontierPairs(f, LabelledNodes(f.nodes), minGap);
      if !ok {
        assert f in frontiers;
        return None;
      }
      PairsJoin(frontiers[..n], f, minGap, pairs, more);
      pairs := pairs + more;
    }
    assert frontiers[..|frontiers|] == frontiers;
    return Some(pairs);
  }

  /** The pairs of one frontier's labelled nodes. */
  method FrontierPairs(f: Frontier, nodes: seq<Node>, minGap: real) returns (ok: bool, pairs: seq<Pair>)
    requires minGap >= 0.0 && nodes == LabelledNodes(f.nodes)
    ensures ok <==> !Mismatched(nodes, minGap)
    ensures ok ==> Mirrored(pairs) && FromFrontiers([f], minGap, pairs) && AllCompared(f, pairs, minGap)
    ensures ok ==> |pairs| == 2 * WideRows(nodes, minGap, |nodes|)
  {
    ok, pairs := true, [];
    for i := 0 to |nodes|
      invariant PairsSoFar(f, nodes, minGap, pairs, i, i + 1)
    {
      ok, pairs := CompareRow(f, nodes, minGap, pairs, i);
      if !ok {
        return;
      }
    }
    AllRowsCompared(f, nodes, minGap, pairs);
  }

  /** Node `i` against every later one. */
  method CompareRow(f: Frontier, nodes: seq<Node>, minGap: real, pairs0: seq<Pair>, i: nat)
    returns (ok: bool, pairs: seq<Pair>)
    requires minGap >= 0.0 && nodes == LabelledNodes(f.nodes) && i < |nodes|
    requires PairsSoFar(f, nodes, minGap, pairs0, i, i + 1)
    ensures if ok then PairsSoFar(f, nodes, minGap, pairs, i + 1, i + 2) else Mismatched(nodes, minGap)
  {
    ok, pairs := true, pairs0;
    for j := i + 1 to |nodes|
      invariant PairsSoFar(f, nodes, minGap, pairs, i, j)
    {
      ok, pairs := CompareNext(f, nodes, minGap, pairs, i, j);
      if !ok {
        return;
      }
    }
    RowCompared(f, nodes, minGap, pairs, i);
  }

  method CompareNext(f: Frontier, nodes: seq<Node>, minGap: real, pairs0: seq<Pair>, i: nat, j: nat)
    returns (ok: bool, pairs: seq<Pair>)
    requires minGap >= 0.0 && nodes == LabelledNodes(f.nodes) && i < j < |nodes|
    requires PairsSoFar(f, nodes, minGap, pairs0, i, j)
    ensures if ok then PairsSoFar(f, nodes, minGap, pairs, i, j + 1) else Mismatched(nodes, minGap)
  {
    var left, right := nodes[i], nodes[j];
    assert left in nodes && right in nodes;
    ok, pairs := ComparePair(f, left, right, minGap, pairs0);
    if ok {
      OneMoreCompared(f, nodes, minGap, pairs0, pairs, i, j);
    } else {
      assert Mismatched(nodes, minGap);
    }
  }

  /** Every comparison before that of nodes `i` and `j` was made and none of them refused. */
  ghost predicate ComparedBefore(f: Frontier, nodes: seq<Node>, minGap: real, pairs: seq<Pair>, i: nat, j: nat) {
    forall a, b :: 0 <= a < b < |nodes| && (a < i || (a == i && b < j)) ==>
      && Compared(f.step, pairs, nodes[a], nodes[b], minGap)
      && (Wide(nodes[a], nodes[b], minGap) ==> |nodes[a].features| == |nodes[b].features|)
  }

  ghost predicate PairsSoFar(f: Frontier, nodes: seq<Node>, minGap: real, pairs: seq<Pair>, i: nat, j: nat) {
    && Mirrored(pairs) && FromFrontiers([f], minGap, pairs) && ComparedBefore(f, nodes, minGap, pairs, i, j)
    && i <= |nodes|
    && |pairs| == 2 * (WideRows(nodes, minGap, i) + if i < j <= |nodes| then WideInRow(nodes, minGap, i, j) else 0)
  }

  lemma OneMoreCompared(f: Frontier, nodes: seq<Node>, minGap: real, before: seq<Pair>, pairs: seq<Pair>,
                        i: nat, j: nat)
    requires i < j < |nodes| && PairsSoFar(f, nodes, minGap, before, i, j)
    requires Mirrored(pairs) && FromFrontiers([f], minGap, pairs)
    requires (forall p :: p in before ==> p in pairs) && Compared(f.step, pairs, nodes[i], nodes[j], minGap)
    requires Wide(nodes[i], nodes[j], minGap) ==> |nodes[i].features| == |nodes[j].features|
    requires |pairs| == |before| + if Wide(nodes[i], nodes[j], minGap) then 2 else 0
    ensures PairsSoFar(f, nodes, minGap, pairs, i, j + 1)
  {
    forall a, b | 0 <= a < b < |nodes| && (a < i || (a == i && b < j + 1))
      ensures Compared(f.step, pairs, nodes[a], nodes[b], minGap)
      ensures Wide(nodes[a], nodes[b], minGap) ==> |nodes[a].features| == |nodes[b].features|
    {
      assert (a == i && b == j) || Compared(f.step, before, nodes[a], nodes[b], minGap);
    }
  }

  lemma RowCompared(f: Frontier, nodes: seq<Node>, minGap: real, pairs: seq<Pair>, i: nat)
    requires i < |nodes| && PairsSoFar(f, nodes, minGap, pairs, i, |nodes|)
    ensures PairsSoFar(f, nodes, minGap, pairs, i + 1, i + 2)
  {
  }

  lemma AllRowsCompared(f: Frontier, nodes: seq<Node>, minGap: real, pairs: seq<Pair>)
    requires nodes == LabelledNodes(f.nodes) && PairsSoFar(f, nodes, minGap, pairs, |nodes|, |nodes| + 1)
    ensures Mirrored(pairs) && FromFrontiers([f], minGap, pairs) && AllCompared(f, pairs, minGap)
    ensures !Mismatched(nodes, minGap) && |pairs| == 2 * WideRows(nodes, minGap, |nodes|)
  {
  }

  /** Adds both directions of one comparison, if it is wide enough. */
  method ComparePair(f: Frontier, left: Node, right: Node, minGap: real, pairs0: seq<Pair>)
    returns (ok: bool, pairs: seq<Pair>)
    requires minGap >= 0.0 && left in f.nodes && right in f.nodes && Labelled(left) && Labelled(right)
    requires Mirrored(pairs0) && FromFrontiers([f], minGap, pairs0)
    ensures !ok <==> WideApart(left, right, minGap) && |left.features| != |right.features|
    ensures ok ==> Mirrored(pairs) && FromFrontiers([f], minGap, pairs)
    ensures ok ==> Compared(f.step, pairs, left, right, minGap) && forall p :: p in pairs0 ==> p in pairs
    ensures ok ==> |pairs| == |pairs0| + if WideApart(left, right, minGap) then 2 else 0
  {
    ok, pairs := true, pairs0;
    if WideApart(left, right, minGap) {
      var better, worse := left, right;
      if left.target.value <= right.target.value {
        better, worse := right, left;
      }
      if |better.features| != |worse.features| {
        ok := false;
        return;
      }
      var pair := PairOf(f.step, better, worse);
      PairAdded(f, minGap, pairs, better, worse);
      PairsStay(pairs, pair);
      PairPrefers(f.step, better, worse);
      pairs := pairs + [pair, Mirror(pair)];
    }
  }

  lemma PairsJoin(frontiers: seq<Frontier>, f: Frontier, minGap: real, pairs: seq<Pair>, more: seq<Pair>)
    requires Mirrored(pairs) && FromFrontiers(frontiers, minGap, pairs)
    requires Mirrored(more) && FromFrontiers([f], minGap, more) && AllCompared(f, more, minGap)
    requires forall g :: g in frontiers ==> AllCompared(g, pairs, minGap)
    ensures Mirrored(pairs + more) && FromFrontiers(frontiers + [f], minGap, pairs + more)
    ensures forall g :: g in frontiers + [f] ==> AllCompared(g, pairs + more, minGap)
  {
    var joined := pairs + more;
    forall i | 0 <= 2 * i < |joined|
      ensures Opposite(joined[2 * i], joined[2 * i + 1])
      ensures Sourced(frontiers + [f], minGap, joined[2 * i])
    {
      if 2 * i < |pairs| {
        assert joined[2 * i] == pairs[2 * i] && joined[2 * i + 1] == pairs[2 * i + 1];
        SourcedStays(frontiers, frontiers + [f], minGap, pairs[2 * i]);
      } else {
        var j := i - |pairs| / 2;
        assert joined[2 * i] == more[2 * j] && joined[2 * i + 1] == more[2 * j + 1];
        SourcedStays([f], frontiers + [f], minGap, more[2 * j]);
      }
    }
    forall g | g in frontiers + [f] ensures AllCompared(g, joined, minGap) {
      ComparedStays(g, if g in frontiers then pairs else more, joined, minGap);
    }
  }

  lemma SourcedStays(frontiers: seq<Frontier>, more: seq<Frontier>, minGap: real, p: Pair)
    requires Sourced(frontiers, minGap, p) && forall f :: f in frontiers ==> f in more
    ensures Sourced(more, minGap, p)
  {
    var f :| f in frontiers && FromFrontier(f, minGap, p);
    assert f in more;
  }

  lemma ComparedStays(f: Frontier, pairs: seq<Pair>, longer: seq<Pair>, minGap: real)
    requires AllCompared(f, pairs, minGap) && forall p :: p in pairs ==> p in longer
    ensures AllCompared(f, longer, minGap)
  {
  }

  lemma PairAdded(f: Frontier, minGap: real, pairs: seq<Pair>, better: Node, worse: Node)
    requires Mirrored(pairs) && FromFrontiers([f], minGap, pairs)
    requires better in f.nodes && worse in f.nodes && Labelled(better) && Labelled(worse)
    requires |better.features| == |worse.features| && better.target.value - worse.target.value > minGap
    ensures var pair := PairOf(f.step, better, worse);
      Mirrored(pairs + [pair, Mirror(pair)]) && FromFrontiers([f], minGap, pairs + [pair, Mirror(pair)])
  {
    var pair := PairOf(f.step, better, worse);
    PairPrefers(f.step, better, worse);
    assert FromFrontier(f, minGap, pair) && f in [f];
    var longer := pairs + [pair, Mirror(pair)];
    forall i | 0 <= 2 * i < |longer| ensures Opposite(longer[2 * i], longer[2 * i + 1]) {
      if 2 * i < |pairs| {
        assert 2 * i + 1 < |pairs|;
      }
    }
  }

  lemma PairsStay(pairs: seq<Pair>, pair: Pair)
    ensures forall p :: p in pairs || p == pair ==> p in pairs + [pair, Mirror(pair)]
  {
    assert (pairs + [pair, Mirror(pair)])[|pairs|] == pair;
  }

  /** Negating the features and flipping the outcome of any pair gives another pair of the list. */
  lemma PairsClosedUnderMirror(pairs: seq<Pair>, k: nat)
    requires Mirrored(pairs) && k < |pairs|
    ensures Mirror(pairs[k]) in pairs
  {
    var i := k / 2;
    OppositeIsMirror(pairs[2 * i], pairs[2 * i + 1]);
  }

  // ----- metrics -----------------------------------------------------------------------

  function LabelledUpTo(nodes: seq<Node>, n: nat): (r: seq<nat>)
    requires n <= |nodes|
    ensures forall i: nat :: i in r <==> i < n && nodes[i].target.Some?
    ensures NoRepeats(r) && Indices(r, n)
  {
    if n == 0 then []
    else
      var front := LabelledUpTo(nodes, n - 1);
      if nodes[n - 1].target.Some? then front + [n - 1] else front
  }

  /** The positions of the nodes with a target, in order. */
  function LabelledAt(nodes: seq<Node>): (r: seq<nat>)
    ensures forall i: nat :: i in r <==> i < |nodes| && nodes[i].target.Some?
    ensures NoRepeats(r) && Indices(r, |nodes|)
  {
    LabelledUpTo(nodes, |nodes|)
  }

  function Targets(nodes: seq<Node>, at: seq<nat>): (r: seq<real>)
    requires Indices(at, |nodes|) && forall i :: i in at ==> nodes[i].target.Some?
    ensures |r| == |at| && forall i :: 0 <= i < |at| ==> r[i] == nodes[at[i]].target.value
  {
    seq(|at|, i requires 0 <= i < |at| => assert at[i] in at; nodes[at[i]].target.value)
  }

  function Smaller(a: nat, b: nat): nat { if a <= b then a else b }

  /** The first `k` of the ranking by score. */
  function SelectedAt(keys: seq<real>, k: nat): (r: seq<nat>)
    requires k <= |keys|
    ensures |r| == k && Indices(r, |keys|)
  {
    Ranked(keys)[..k]
  }

  lemma SelectedDistinct(keys: seq<real>, k: nat)
    requires k <= |keys|
    ensures NoRepeats(SelectedAt(keys, k))
  {
    RankedSorted(keys);
    var order := Ranked(keys);
    forall a, b | 0 <= a < b < k ensures order[a] != order[b] {
      SortedDistinct(keys, order, a, b);
    }
  }

  /** Where the given positions stand in a list that has all of them. */
  function Places(list: seq<nat>, at: seq<nat>): (r: seq<nat>)
    requires forall i :: i in at ==> i in list
    ensures |r| == |at| && Indices(r, |list|) && forall i :: 0 <= i < |at| ==> list[r[i]] == at[i]
  {
    if at == [] then []
    else
      var last := at[|at| - 1];
      assert last in at;
      Places(list, at[..|at| - 1]) + [Place(list, last)]
  }

  function Place(list: seq<nat>, x: nat): (p: nat)
    requires x in list
    ensures p < |list| && list[p] == x
  {
    if list[|list| - 1] == x then |list| - 1
    else
      assert list == list[..|list| - 1] + [list[|list| - 1]];
      Place(list[..|list| - 1], x)
  }

  function SumOf(v: seq<real>): real {
    if v == [] then 0.0 else SumOf(v[..|v| - 1]) + v[|v| - 1]
  }

  function MaxOf(v: seq<real>): (m: real)
    requires v != []
    ensures forall i :: 0 <= i < |v| ==> v[i] <= m
  {
    if |v| == 1 then v[0]
    else
      var front := MaxOf(v[..|v| - 1]);
      assert forall i :: 0 <= i < |v| - 1 ==> v[i] == v[..|v| - 1][i];
      if v[|v| - 1] > front then v[|v| - 1] else front
  }

  lemma {:induction false} MaxIsMember(v: seq<real>) returns (i: nat)
    requires v != []
    ensures i < |v| && v[i] == MaxOf(v)
  {
    i := |v| - 1;
    if |v| > 1 && v[|v| - 1] <= MaxOf(v[..|v| - 1]) {
      i := MaxIsMember(v[..|v| - 1]);
    }
  }

  lemma {:induction false} TotalIsSum(keys: seq<real>, picked: seq<nat>, values: seq<real>)
    requires Indices(picked, |keys|) && |values| == |picked|
    requires forall i :: 0 <= i < |picked| ==> values[i] == keys[picked[i]]
    ensures Total(keys, picked) == SumOf(values)
  {
    if picked != [] {
      TotalIsSum(keys, picked[..|picked| - 1], values[..|values| - 1]);
    }
  }

  /** No `k` labelled nodes have a larger sum than the teacher's first `k`. */
  lemma TeacherIsBest(nodes: seq<Node>, picked: seq<nat>)
    requires NoRepeats(picked) && forall i :: i in picked ==> i in LabelledAt(nodes)
    requires Indices(picked, |nodes|)
    ensures |picked| <= |LabelledAt(nodes)|
    ensures SumOf(Targets(nodes, picked)) <= SumOf(Targets(nodes, TeacherAt(nodes, |picked|)))
  {
    var labelled := LabelledAt(nodes);
    var keys := Targets(nodes, labelled);
    var places := Places(labelled, picked);
    forall a, b | 0 <= a < b < |places| ensures places[a] != places[b] {
      assert labelled[places[a]] == picked[a] && labelled[places[b]] == picked[b];
    }
    PlacesFit(places, |labelled|);
    TopHasLargestTotal(keys, places);
    TotalIsSum(keys, places, Targets(nodes, picked));
    TotalIsSum(keys, Ranked(keys)[..|picked|], Targets(nodes, TeacherAt(nodes, |picked|)));
  }

  lemma PlacesFit(places: seq<nat>, n: nat)
    requires NoRepeats(places) && Indices(places, n)
    ensures |places| <= n
  {
    var all := FirstN(n);
    forall p | 0 <= p < |places| ensures places[p] in all {
      assert all[places[p]] == places[p];
    }
    if |places| > n {
      var x := PickOutside(places, all);
    }
  }

  function FirstN(n: nat): (r: seq<nat>)
    ensures |r| == n && forall i :: 0 <= i < n ==> r[i] == i
  {
    if n == 0 then [] else FirstN(n - 1) + [n - 1]
  }

  /** The teacher's choice: the labelled nodes with the highest targets. */
  function TeacherAt(nodes: seq<Node>, k: nat): (r: seq<nat>)
    ensures |r| == Smaller(k, |LabelledAt(nodes)|) && Indices(r, |nodes|)
    ensures forall i :: i in r ==> i in LabelledAt(nodes)
  {
    var labelled := LabelledAt(nodes);
    var order := Ranked(Targets(nodes, labelled))[..Smaller(k, |labelled|)];
    var r := seq(|order|, i requires 0 <= i < |order| => labelled[order[i]]);
    assert forall i :: i in r ==> i in labelled;
    r
  }

  function NodeIds(nodes: seq<Node>, at: seq<nat>): set<string>
    requires Indices(at, |nodes|)
  {
    set i | 0 <= i < |at| :: nodes[at[i]].id
  }

  lemma {:induction false} NodeIdsCount(nodes: seq<Node>, at: seq<nat>)
    requires Indices(at, |nodes|)
    ensures |NodeIds(nodes, at)| <= |at|
  {
    if at != [] {
      var front := at[..|at| - 1];
      NodeIdsCount(nodes, front);
      assert NodeIds(nodes, at) == NodeIds(nodes, front) + {nodes[at[|at| - 1]].id};
    }
  }

  /** What one frontier contributes. */
  datatype Quality = Quality(recall: Option<real>, regret: Option<real>, meanGap: Option<real>)

  /** `r` is the total divided evenly by the count. */
  predicate Evenly(r: real, total: real, count: real) {
    r * count == total
  }

  /** The share of the teacher's nodes that are selected; none without labelled nodes. */
  ghost predicate IsRecall(nodes: seq<Node>, selected: seq<nat>, recall: Option<real>)
    requires Indices(selected, |nodes|)
  {
    var teacher := TeacherAt(nodes, |selected|);
    if LabelledAt(nodes) == [] then recall.None?
    else recall.Some? && 0.0 <= recall.value <= 1.0
         && Evenly(recall.value, |NodeIds(nodes, teacher) * NodeIds(nodes, selected)| as real, |teacher| as real)
  }

  method Recall(nodes: seq<Node>, selected: seq<nat>) returns (recall: Option<real>)
    requires Indices(selected, |nodes|) && selected != []
    ensures IsRecall(nodes, selected, recall)
  {
    var teacher := TeacherAt(nodes, |selected|);
    if teacher == [] {
      return None;
    }
    var hits := |NodeIds(nodes, teacher) * NodeIds(nodes, selected)|;
    RecallBounds(nodes, teacher, selected);
    var share := Share(hits as real, |teacher| as real);
    recall := Some(share);
  }

  ghost predicate AllLabelled(nodes: seq<Node>, selected: seq<nat>) {
    forall i :: i in selected ==> i in LabelledAt(nodes)
  }

  /** How far the best selected target, and the selected targets on average, fall short of the
      teacher's; only when every selected node is labelled. */
  ghost predicate IsShortfall(nodes: seq<Node>, selected: seq<nat>, regret: Option<real>, meanGap: Option<real>)
    requires Indices(selected, |nodes|) && selected != []
  {
    if !AllLabelled(nodes, selected) then regret.None? && meanGap.None?
    else
      && regret.Some? && regret.value >= 0.0 && meanGap.Some? && meanGap.value >= 0.0
      && selected[0] in selected && LabelledAt(nodes) != []
      && regret.value == MaxOf(Targets(nodes, LabelledAt(nodes))) - MaxOf(Targets(nodes, selected))
      && Evenly(meanGap.value, SumOf(Targets(nodes, TeacherAt(nodes, |selected|))) - SumOf(Targets(nodes, selected)),
                |selected| as real)
  }

  /** Selected nodes that are all labelled can neither beat the best labelled one nor the teacher's
      choice. */
  lemma NothingLost(nodes: seq<Node>, selected: seq<nat>)
    requires Indices(selected, |nodes|) && NoRepeats(selected) && selected != [] && AllLabelled(nodes, selected)
    ensures |selected| <= |LabelledAt(nodes)| && LabelledAt(nodes) != []
    ensures MaxOf(Targets(nodes, LabelledAt(nodes))) >= MaxOf(Targets(nodes, selected))
    ensures SumOf(Targets(nodes, TeacherAt(nodes, |selected|))) >= SumOf(Targets(nodes, selected))
  {
    TeacherIsBest(nodes, selected);
    SelectedMaxBelow(nodes, selected, LabelledAt(nodes));
  }

  method Shortfall(nodes: seq<Node>, selected: seq<nat>) returns (regret: Option<real>, meanGap: Option<real>)
    requires Indices(selected, |nodes|) && NoRepeats(selected) && selected != []
    ensures IsShortfall(nodes, selected, regret, meanGap)
  {
    var labelled := LabelledAt(nodes);
    if |labelled| < |selected| || exists j :: 0 <= j < |selected| && nodes[selected[j]].target.None? {
      NotAllLabelled(nodes, selected);
      return None, None;
    }
    assert AllLabelled(nodes, selected) && selected[0] in selected;
    NothingLost(nodes, selected);
    regret := Some(MaxOf(Targets(nodes, labelled)) - MaxOf(Targets(nodes, selected)));
    var gap := SumOf(Targets(nodes, TeacherAt(nodes, |selected|))) - SumOf(Targets(nodes, selected));
    var mean := Share(gap, |selected| as real);
    meanGap := Some(mean);
  }

  /** The metrics of one frontier under any scoring. Every node takes part in the ranking and
      takes a place; recall is a proportion, and regret and mean gap are never negative. */
  method EvaluateFrontier(nodes: seq<Node>, width: nat, keys: seq<real>) returns (q: Quality)
    requires |keys| == |nodes| > 0 && width > 0
    ensures var selected := SelectedAt(keys, Smaller(width, |nodes|));
      IsRecall(nodes, selected, q.recall) && IsShortfall(nodes, selected, q.regret, q.meanGap)
  {
    var selected := SelectedAt(keys, Smaller(width, |nodes|));
    SelectedDistinct(keys, Smaller(width, |nodes|));
    var recall := Recall(nodes, selected);
    var regret, meanGap := Shortfall(nodes, selected);
    q := Quality(recall, regret, meanGap);
  }

  lemma NotAllLabelled(nodes: seq<Node>, selected: seq<nat>)
    requires Indices(selected, |nodes|) && NoRepeats(selected)
    requires |LabelledAt(nodes)| < |selected| || exists j :: 0 <= j < |selected| && nodes[selected[j]].target.None?
    ensures !forall i :: i in selected ==> i in LabelledAt(nodes)
  {
    if |LabelledAt(nodes)| < |selected| {
      var x := PickOutside(selected, LabelledAt(nodes));
      assert selected[x] in selected;
    } else {
      var j :| 0 <= j < |selected| && nodes[selected[j]].target.None?;
      assert selected[j] in selected;
    }
  }

  lemma RecallBounds(nodes: seq<Node>, teacher: seq<nat>, selected: seq<nat>)
    requires Indices(teacher, |nodes|) && Indices(selected, |nodes|)
    ensures |NodeIds(nodes, teacher) * NodeIds(nodes, selected)| <= |teacher|
  {
    NodeIdsCount(nodes, teacher);
    var both, all := NodeIds(nodes, teacher) * NodeIds(nodes, selected), NodeIds(nodes, teacher);
    assert all == both + (all - both);
  }

  /** A total divided evenly; at most one when the total is at most the count. */
  method Share(total: real, count: real) returns (r: real)
    requires total >= 0.0 && count > 0.0
    ensures Evenly(r, total, count) && r >= 0.0 && (total <= count ==> r <= 1.0)
  {
    r := total / count;
    ShareBounds(r, count);
  }

  lemma ShareBounds(r: real, count: real)
    requires count > 0.0
    ensures r * count >= 0.0 ==> r >= 0.0
    ensures r * count <= count ==> r <= 1.0
  {
    assert (r - 1.0) * count == r * count - count;
  }

  lemma SelectedMaxBelow(nodes: seq<Node>, selected: seq<nat>, labelled: seq<nat>)
    requires Indices(selected, |nodes|) && Indices(labelled, |nodes|) && selected != [] && labelled != []
    requires forall i :: i in labelled ==> nodes[i].target.Some?
    requires forall i :: i in selected ==> i in labelled
    ensures MaxOf(Targets(nodes, selected)) <= MaxOf(Targets(nodes, labelled))
  {
    var a := MaxIsMember(Targets(nodes, selected));
    assert selected[a] in selected;
    var b :| 0 <= b < |labelled| && labelled[b] == selected[a];
    assert Targets(nodes, labelled)[b] == Targets(nodes, selected)[a];
  }
}
