/** Joining the root's targets with the states the root's actions lead to: the samples a value
    model is trained on. */
module ValueSamples {
  import opened Wrappers
  import opened OracleTargets
  import opened RootTargets

  // ----- the states an action leads to -------------------------------------------------

  /** A freshly scored state of one action and stream whose content was kept. */
  predicate Retained(n: TraceNode, k: Key, kept: set<string>) {
    HasKey(n, k) && n.freshScore && n.id in kept
  }

  /** Of those, the ones at the least combat depth: what the action leads to at the root. */
  ghost predicate RootState(t: Trace, k: Key, kept: set<string>, n: TraceNode) {
    && n in t.resolved && Retained(n, k, kept)
    && forall m :: m in t.resolved && Retained(m, k, kept) ==> n.combatDepth <= m.combatDepth
  }

  ghost predicate StatesOf(t: Trace, k: Key, kept: set<string>, states: seq<TraceNode>) {
    forall n :: n in states <==> RootState(t, k, kept, n)
  }

  method RootStates(t: Trace, k: Key, kept: set<string>) returns (states: seq<TraceNode>)
    ensures StatesOf(t, k, kept, states)
  {
    var least: Option<nat> := None;
    for i := 0 to |t.resolved|
      invariant least.None? ==> forall j :: 0 <= j < i ==> !Retained(t.resolved[j], k, kept)
      invariant least.Some? ==> forall j :: 0 <= j < i && Retained(t.resolved[j], k, kept) ==>
        least.value <= t.resolved[j].combatDepth
      invariant least.Some? ==> exists j :: 0 <= j < i && Retained(t.resolved[j], k, kept)
                                            && t.resolved[j].combatDepth == least.value
    {
      var n := t.resolved[i];
      if Retained(n, k, kept) && (least.None? || n.combatDepth < least.value) {
        least := Some(n.combatDepth);
      }
    }
    states := [];
    for i := 0 to |t.resolved|
      invariant forall n :: n in states <==>
        n in t.resolved[..i] && Retained(n, k, kept) && least == Some(n.combatDepth)
    {
      var n := t.resolved[i];
      assert t.resolved[..i + 1] == t.resolved[..i] + [n];
      if Retained(n, k, kept) && least == Some(n.combatDepth) {
        states := states + [n];
      }
    }
    assert t.resolved[..|t.resolved|] == t.resolved;
  }

  // ----- the state on the way to the best leaf -----------------------------------------

  ghost predicate AtOrAbove(t: Trace, x: string, y: string) {
    && Lookup(t.resolved, x).Some? && Lookup(t.resolved, y).Some?
    && (x == y || Below(t, x, y))
  }

  /** What lies above a recorded node is its recorded parent or lies above that. */
  lemma AboveParent(t: Trace, x: string, y: string)
    requires UniqueIds(t) && AtOrAbove(t, x, y) && x != y
    ensures AtOrAbove(t, x, Lookup(t.resolved, y).value.parent)
  {
    var path :| PathFromTo(t, path, x, y);
    var last := |path| - 1;
    assert Edge(t, path[last - 1], path[last]);
    EdgeIsParent(t, path[last - 1], path[last]);
    if last > 1 {
      var front := path[..last];
      forall i | 0 <= i < |front| - 1 ensures Edge(t, front[i], front[i + 1]) {
        assert Edge(t, path[i], path[i + 1]);
      }
      assert PathFromTo(t, front, x, path[last - 1]);
      assert Edge(t, path[last - 2], path[last - 1]);
    }
  }

  /** The climb so far: what was passed is no state to choose, everything at or above the start
      was passed or is at or above where the climb stands, and the parents of what was passed
      were passed or are next. */
  ghost predicate Climbing(t: Trace, start: string, states: seq<TraceNode>, current: string, seen: set<string>) {
    && (forall x :: x in seen ==> Lookup(t.resolved, x).Some? && forall n :: n in states ==> n.id != x)
    && (forall x :: AtOrAbove(t, x, start) ==> x in seen || AtOrAbove(t, x, current))
    && (Lookup(t.resolved, current).Some? ==> AtOrAbove(t, current, start))
    && (forall y :: y in seen ==>
          Lookup(t.resolved, y).value.parent in seen || Lookup(t.resolved, y).value.parent == current)
  }

  lemma ClimbOn(t: Trace, start: string, states: seq<TraceNode>, current: string, seen: set<string>)
    requires UniqueIds(t) && Climbing(t, start, states, current, seen) && Lookup(t.resolved, current).Some?
    requires forall n :: n in states ==> n.id != current
    ensures Climbing(t, start, states, Lookup(t.resolved, current).value.parent, seen + {current})
  {
    var parent := Lookup(t.resolved, current).value.parent;
    forall x | AtOrAbove(t, x, start) && x !in seen + {current} ensures AtOrAbove(t, x, parent) {
      AboveParent(t, x, current);
    }
    if Lookup(t.resolved, parent).Some? {
      ParentIsEdge(t, current);
      ChildIsBelow(t, parent, current);
      if current != start {
        BelowIsTransitive(t, parent, current, start);
      }
    }
  }

  lemma ClimbedOut(t: Trace, start: string, states: seq<TraceNode>, current: string, seen: set<string>)
    requires UniqueIds(t) && Climbing(t, start, states, current, seen)
    requires Lookup(t.resolved, current).None? || current in seen
    ensures forall n :: n in states ==> !AtOrAbove(t, n.id, start)
  {
    forall n | n in states ensures !AtOrAbove(t, n.id, start) {
      if AtOrAbove(t, n.id, start) && current in seen && n.id != current {
        var path :| PathFromTo(t, path, n.id, current);
        ClosedHasAbove(t, n.id, path, current, seen);
      }
    }
  }

  /** Lexicographic order of code points. */
  predicate TextLess(a: string, b: string) {
    b != [] && (a == [] || a[0] < b[0] || (a[0] == b[0] && TextLess(a[1..], b[1..])))
  }

  lemma {:induction false} TextLessTrans(a: string, b: string, c: string)
    requires TextLess(a, b) && TextLess(b, c)
    ensures TextLess(a, c)
  {
    if a != [] && a[0] == b[0] && b[0] == c[0] {
      TextLessTrans(a[1..], b[1..], c[1..]);
    }
  }

  lemma {:induction false} TextLessTotal(a: string, b: string)
    requires a != b
    ensures TextLess(a, b) || TextLess(b, a)
  {
    if a != [] && b != [] && a[0] == b[0] {
      assert a == [a[0]] + a[1..] && b == [b[0]] + b[1..];
      TextLessTotal(a[1..], b[1..]);
    }
  }

  predicate Earlier(a: TraceNode, b: TraceNode) {
    a.depth < b.depth || (a.depth == b.depth && TextLess(a.id, b.id))
  }

  lemma EarlierTrans(a: TraceNode, b: TraceNode, c: TraceNode)
    requires Earlier(a, b) && Earlier(b, c)
    ensures Earlier(a, c)
  {
    if a.depth == b.depth == c.depth {
      TextLessTrans(a.id, b.id, c.id);
    }
  }

  ghost predicate OwnIds(states: seq<TraceNode>) {
    forall m, n :: m in states && n in states && m.id == n.id ==> m == n
  }

  /** The shallowest state, by id among equals. */
  method FirstState(states: seq<TraceNode>) returns (first: TraceNode)
    requires states != [] && OwnIds(states)
    ensures first in states && forall n :: n in states && n != first ==> Earlier(first, n)
  {
    first := states[0];
    for i := 1 to |states|
      invariant first in states[..i]
      invariant forall j :: 0 <= j < i && states[j] != first ==> Earlier(first, states[j])
    {
      var n := states[i];
      if Earlier(n, first) {
        forall j | 0 <= j < i && states[j] != n ensures Earlier(n, states[j]) {
          if states[j] != first {
            EarlierTrans(n, first, states[j]);
          }
        }
        first := n;
      } else if n != first {
        TextLessTotal(n.id, first.id);
      }
    }
  }

  /** The state chosen for an outcome: on the line of its best leaf when one is, and then the
      nearest to it; otherwise the shallowest. */
  ghost predicate ChosenState(t: Trace, best: Option<string>, states: seq<TraceNode>, n: TraceNode) {
    && n in states
    && if best.Some? && exists m :: m in states && AtOrAbove(t, m.id, best.value)
       then AtOrAbove(t, n.id, best.value)
            && forall m :: m in states && AtOrAbove(t, m.id, best.value) ==> AtOrAbove(t, m.id, n.id)
       else forall m :: m in states && m != n ==> Earlier(n, m)
  }

  function WithId(states: seq<TraceNode>, id: string): (r: Option<TraceNode>)
    ensures r.Some? ==> r.value in states && r.value.id == id
    ensures r.None? ==> forall n :: n in states ==> n.id != id
  {
    Lookup(states, id)
  }

  /** The walk up from the best leaf. It ends on every recorded graph, also on one with cycles. */
  method StateOnLine(t: Trace, best: string, states: seq<TraceNode>, byId: map<string, TraceNode>)
    returns (r: Option<TraceNode>)
    requires UniqueIds(t) && (forall n :: n in states ==> n in t.resolved)
    requires forall id :: Lookup(t.resolved, id) == if id in byId then Some(byId[id]) else None
    ensures r.None? ==> forall m :: m in states ==> !AtOrAbove(t, m.id, best)
    ensures r.Some? ==> r.value in states && AtOrAbove(t, r.value.id, best)
    ensures r.Some? ==> forall m :: m in states && AtOrAbove(t, m.id, best) ==> AtOrAbove(t, m.id, r.value.id)
  {
    var current := best;
    var seen: set<string> := {};
    while current in byId && current !in seen
      invariant Climbing(t, best, states, current, seen)
      decreases IdsOf(t.resolved) - seen
    {
      assert current in IdsOf(t.resolved) - seen;
      var hit := WithId(states, current);
      if hit.Some? {
        return hit;
      }
      ClimbOn(t, best, states, current, seen);
      seen := seen + {current};
      current := byId[current].parent;
    }
    ClimbedOut(t, best, states, current, seen);
    r := None;
  }

  method SelectRootState(t: Trace, best: Option<string>, states: seq<TraceNode>, byId: map<string, TraceNode>)
    returns (r: Option<TraceNode>)
    requires UniqueIds(t) && OwnIds(states) && (forall n :: n in states ==> n in t.resolved)
    requires forall id :: Lookup(t.resolved, id) == if id in byId then Some(byId[id]) else None
    ensures r.None? <==> states == []
    ensures r.Some? ==> ChosenState(t, best, states, r.value)
  {
    if states == [] {
      return None;
    }
    if best.Some? {
      r := StateOnLine(t, best.value, states, byId);
      if r.Some? {
        return;
      }
    }
    var first := FirstState(states);
    r := Some(first);
  }

  // ----- samples -----------------------------------------------------------------------

  datatype SampleReason = AsOutcome(reason: CensorReason) | SelfBootstrap

  datatype Sample = Sample(
    key: Key, state: string, value: Option<real>, source: Option<ScoreSource>, terminalReached: bool,
    deepest: nat, censored: bool, reason: SampleReason, best: Option<string>)

  /** The outcome's only support is the bootstrap value of the very state to be learned. */
  predicate BootstrapsItself(o: RngOutcome, n: TraceNode) {
    o.source == Some(ValueBootstrap) && o.best == Some(n.id) && !n.terminal
  }

  function SampleFor(k: Key, o: RngOutcome, n: TraceNode): Sample {
    if BootstrapsItself(o, n) then
      Sample(k, n.id, None, None, false, o.deepest, true, SelfBootstrap, None)
    else Sample(k, n.id, o.value, o.source, o.terminalReached, o.deepest, o.censored, AsOutcome(o.reason), o.best)
  }

  /** The sample of an outcome: none without a state, otherwise the outcome attributed to the
      chosen state. */
  ghost predicate SampleOf(t: Trace, kept: set<string>, k: Key, o: RngOutcome, s: Option<Sample>) {
    match s
    case None => forall n :: !RootState(t, k, kept, n)
    case Some(sample) => exists n, states :: StatesOf(t, k, kept, states) && ChosenState(t, o.best, states, n)
                                             && Carries(sample, k, o, n)
  }

  /** The sample is about this state, key and outcome; it keeps the outcome's label unless that is
      nothing but the bootstrap value of the state itself. */
  ghost predicate Carries(s: Sample, k: Key, o: RngOutcome, n: TraceNode) {
    && s.key == k && s.state == n.id && s.deepest == o.deepest
    && if o.source == Some(ValueBootstrap) && o.best == Some(n.id) && !n.terminal
       then s.value.None? && s.source.None? && s.best.None? && s.censored && s.reason.SelfBootstrap?
            && !s.terminalReached
       else s.value == o.value && s.source == o.source && s.best == o.best && s.censored == o.censored
            && s.reason == AsOutcome(o.reason) && s.terminalReached == o.terminalReached
  }

  lemma SampleCarries(k: Key, o: RngOutcome, n: TraceNode)
    ensures Carries(SampleFor(k, o, n), k, o, n)
  {
  }

  lemma ChosenSample(t: Trace, kept: set<string>, k: Key, o: RngOutcome, states: seq<TraceNode>, n: TraceNode)
    requires StatesOf(t, k, kept, states) && ChosenState(t, o.best, states, n)
    ensures SampleOf(t, kept, k, o, Some(SampleFor(k, o, n)))
  {
    SampleCarries(k, o, n);
  }

  method BuildSample(t: Trace, kept: set<string>, k: Key, o: RngOutcome, byId: map<string, TraceNode>)
    returns (s: Option<Sample>)
    requires UniqueIds(t)
    requires forall id :: Lookup(t.resolved, id) == if id in byId then Some(byId[id]) else None
    ensures SampleOf(t, kept, k, o, s)
  {
    var states := RootStates(t, k, kept);
    forall m, n | m in states && n in states && m.id == n.id ensures m == n {
      LookupUnique(t.resolved, m);
      LookupUnique(t.resolved, n);
    }
    var chosen := SelectRootState(t, o.best, states, byId);
    if chosen.None? {
      forall n ensures !RootState(t, k, kept, n) {
        assert n !in states;
      }
      return None;
    }
    ChosenSample(t, kept, k, o, states, chosen.value);
    s := Some(SampleFor(k, o, chosen.value));
  }

  /** The samples of an action: one for each outcome that has a state, in order. */
  method BuildSamples(t: Trace, kept: set<string>, action: string, outcomes: seq<RngOutcome>)
    returns (samples: seq<Sample>, ghost all: seq<Option<Sample>>)
    requires UniqueIds(t)
    ensures |all| == |outcomes| && samples == Present(all)
    ensures forall i :: 0 <= i < |all| ==> SampleOf(t, kept, (action, outcomes[i].rngId), outcomes[i], all[i])
  {
    var byId, _ := BuildIndex(t.resolved);
    samples, all := [], [];
    for i := 0 to |outcomes|
      invariant |all| == i && samples == Present(all)
      invariant forall j :: 0 <= j < i ==> SampleOf(t, kept, (action, outcomes[j].rngId), outcomes[j], all[j])
    {
      var s := BuildSample(t, kept, (action, outcomes[i].rngId), outcomes[i], byId);
      assert (all + [s])[..i] == all;
      all := all + [s];
      if s.Some? {
        samples := samples + [s.value];
      }
    }
  }

  function Present(all: seq<Option<Sample>>): seq<Sample> {
    if all == [] then []
    else
      var front, last := Present(all[..|all| - 1]), all[|all| - 1];
      if last.Some? then front + [last.value] else front
  }

  // ----- what a label is worth ---------------------------------------------------------

  /** A bootstrapped label of a state that the game goes on from never comes from that state: when
      the chosen state is on the line of the best leaf, the leaf lies strictly below it. */
  lemma LabelComesFromBelow(t: Trace, kept: set<string>, k: Key, o: RngOutcome, states: seq<TraceNode>, n: TraceNode)
    requires ChosenState(t, o.best, states, n) && o.best.Some?
    requires exists m :: m in states && AtOrAbove(t, m.id, o.best.value)
    requires SampleFor(k, o, n).value.Some? && SampleFor(k, o, n).source == Some(ValueBootstrap) && !n.terminal
    ensures Below(t, n.id, o.best.value)
  {
    assert !BootstrapsItself(o, n);
  }

  /** And it is exactly the target the state itself would have as a node of a prune step: joining
      root targets with states loses nothing. */
  lemma LabelIsStableTarget(t: Trace, kept: set<string>, k: Key, o: RngOutcome, states: seq<TraceNode>, n: TraceNode,
                            r: StableTarget)
    requires UniqueIds(t) && KeysInherited(t) && OutcomeOf(t, k, o) && TargetOf(t, n.id, r)
    requires StatesOf(t, k, kept, states) && ChosenState(t, o.best, states, n) && o.best.Some?
    requires exists m :: m in states && AtOrAbove(t, m.id, o.best.value)
    requires SampleFor(k, o, n).value.Some? && SampleFor(k, o, n).source == Some(ValueBootstrap) && !n.terminal
    ensures r.score == SampleFor(k, o, n).value
  {
    LabelComesFromBelow(t, kept, k, o, states, n);
    assert RootState(t, k, kept, n);
    BestBelowIsTarget(t, k, o, n, r);
  }

  lemma BestBelowIsTarget(t: Trace, k: Key, o: RngOutcome, n: TraceNode, r: StableTarget)
    requires UniqueIds(t) && KeysInherited(t) && OutcomeOf(t, k, o) && TargetOf(t, n.id, r)
    requires n in t.resolved && HasKey(n, k) && o.value.Some? && o.best.Some? && Below(t, n.id, o.best.value)
    ensures r.score == o.value
  {
    var leaf :| KeyLeaf(t, k, leaf) && leaf.score == o.value.value && o.best == Some(leaf.id);
    LookupUnique(t.resolved, leaf);
    assert LeafBelow(t, n.id, leaf);
    UnfaultedStreamIsFaultFree(t, n, k);
    RootCoversStable(t, n, k, r, o);
  }
}
