/** Targets of the root's actions: for each random stream of an action the best eligible leaf,
    and their mean as the action's estimate. */
module RootTargets {
  import opened Wrappers
  import opened OracleTargets
  import SelectionMetrics

  // ----- what belongs to an action and a random stream ---------------------------------

  type Key = (string, int)

  predicate HasKey(n: TraceNode, k: Key) {
    n.rootAction == Some(k.0) && n.rngId == k.1
  }

  predicate FaultHasKey(f: Fault, k: Key) {
    f.rootAction == Some(k.0) && f.rngId == k.1
  }

  /** The recorded nodes under one action and stream, in order. */
  function KeyNodes(nodes: seq<TraceNode>, k: Key): (r: seq<TraceNode>)
    ensures forall n :: n in r <==> n in nodes && HasKey(n, k)
  {
    if nodes == [] then []
    else
      assert nodes == nodes[..|nodes| - 1] + [nodes[|nodes| - 1]];
      var front := KeyNodes(nodes[..|nodes| - 1], k);
      if HasKey(nodes[|nodes| - 1], k) then front + [nodes[|nodes| - 1]] else front
  }

  /** The kind of the first fault under one action and stream. */
  function KeyFault(faults: seq<Fault>, k: Key): (r: Option<string>)
    ensures r.Some? <==> exists f :: f in faults && FaultHasKey(f, k)
  {
    if faults == [] then None
    else
      assert faults == faults[..|faults| - 1] + [faults[|faults| - 1]];
      var earlier := KeyFault(faults[..|faults| - 1], k);
      if earlier.Some? then earlier
      else if FaultHasKey(faults[|faults| - 1], k) then Some(faults[|faults| - 1].kind) else None
  }

  function KeyFaultDepth(faults: seq<Fault>, k: Key): (d: nat)
    ensures forall f :: f in faults && FaultHasKey(f, k) ==> f.combatDepth <= d
    ensures d == 0 || exists f :: f in faults && FaultHasKey(f, k) && f.combatDepth == d
  {
    if faults == [] then 0
    else
      assert faults == faults[..|faults| - 1] + [faults[|faults| - 1]];
      var front, last := KeyFaultDepth(faults[..|faults| - 1], k), faults[|faults| - 1];
      if FaultHasKey(last, k) && last.combatDepth > front then last.combatDepth else front
  }

  method GroupNodes(nodes: seq<TraceNode>) returns (byKey: map<Key, seq<TraceNode>>)
    ensures forall k :: KeyNodes(nodes, k) == if k in byKey then byKey[k] else []
    ensures forall k :: k in byKey ==> byKey[k] != []
  {
    byKey := map[];
    for i := 0 to |nodes|
      invariant forall k :: KeyNodes(nodes[..i], k) == if k in byKey then byKey[k] else []
      invariant forall k :: k in byKey ==> byKey[k] != []
    {
      var n := nodes[i];
      assert nodes[..i + 1][..i] == nodes[..i];
      if n.rootAction.Some? {
        var k := (n.rootAction.value, n.rngId);
        byKey := byKey[k := (if k in byKey then byKey[k] else []) + [n]];
      }
    }
    assert nodes[..|nodes|] == nodes;
  }

  ghost predicate KindsGrouped(faults: seq<Fault>, kinds: map<Key, string>) {
    forall k :: KeyFault(faults, k) == if k in kinds then Some(kinds[k]) else None
  }

  ghost predicate DepthsGrouped(faults: seq<Fault>, depths: map<Key, nat>) {
    forall k :: KeyFaultDepth(faults, k) == if k in depths then depths[k] else 0
  }

  lemma KindsGroupedStep(faults: seq<Fault>, f: Fault, kinds: map<Key, string>)
    requires KindsGrouped(faults, kinds)
    ensures KindsGrouped(faults + [f], if f.rootAction.None? || (f.rootAction.value, f.rngId) in kinds then kinds
                                       else kinds[(f.rootAction.value, f.rngId) := f.kind])
  {
    assert (faults + [f])[..|faults|] == faults;
  }

  lemma DepthsGroupedStep(faults: seq<Fault>, f: Fault, depths: map<Key, nat>, k: Key)
    requires DepthsGrouped(faults, depths)
    ensures f.rootAction.None? ==> DepthsGrouped(faults + [f], depths)
    ensures f.rootAction == Some(k.0) && f.rngId == k.1 ==>
      var depth := if k in depths then depths[k] else 0;
      DepthsGrouped(faults + [f], depths[k := if f.combatDepth > depth then f.combatDepth else depth])
  {
    assert (faults + [f])[..|faults|] == faults;
  }

  method GroupFaults(faults: seq<Fault>) returns (kinds: map<Key, string>, depths: map<Key, nat>)
    ensures KindsGrouped(faults, kinds) && DepthsGrouped(faults, depths)
  {
    kinds, depths := map[], map[];
    for i := 0 to |faults|
      invariant KindsGrouped(faults[..i], kinds) && DepthsGrouped(faults[..i], depths)
    {
      var f := faults[i];
      assert faults[..i + 1] == faults[..i] + [f];
      var k := (if f.rootAction.Some? then f.rootAction.value else "", f.rngId);
      KindsGroupedStep(faults[..i], f, kinds);
      DepthsGroupedStep(faults[..i], f, depths, k);
      if f.rootAction.Some? {
        if k !in kinds {
          kinds := kinds[k := f.kind];
        }
        var depth := if k in depths then depths[k] else 0;
        depths := depths[k := if f.combatDepth > depth then f.combatDepth else depth];
      }
    }
    assert faults[..|faults|] == faults;
  }

  // ----- one random stream -------------------------------------------------------------

  datatype RngOutcome = RngOutcome(
    rngId: int, value: Option<real>, source: Option<ScoreSource>, terminalReached: bool, deepest: nat,
    censored: bool, reason: CensorReason, best: Option<string>)

  ghost predicate KeyLeaf(t: Trace, k: Key, n: TraceNode) {
    n in t.resolved && HasKey(n, k) && Eligible(t, n)
  }

  ghost predicate KeyRawLeaf(t: Trace, k: Key, n: TraceNode) {
    n in t.resolved && HasKey(n, k) && RawLeaf(t, n)
  }

  ghost predicate KeyFaulted(t: Trace, k: Key) {
    exists f :: f in t.faults && FaultHasKey(f, k)
  }

  /** The value of a stream is the highest score of an eligible leaf under it; it has one exactly
      when there is such a leaf and no fault. */
  ghost predicate OutcomeOf(t: Trace, k: Key, o: RngOutcome) {
    && o.rngId == k.1
    && (o.value.Some? <==> !KeyFaulted(t, k) && exists n :: KeyLeaf(t, k, n))
    && (o.value.Some? ==> forall n :: KeyLeaf(t, k, n) ==> n.score <= o.value.value)
    && (o.value.Some? ==> exists n :: KeyLeaf(t, k, n) && n.score == o.value.value
                                      && o.best == Some(n.id) && o.source == Some(n.source))
    && (o.value.None? ==> o.source.None? && o.best.None?)
  }

  ghost predicate OutcomeCensoredAs(t: Trace, k: Key, o: RngOutcome) {
    && (o.censored <==> o.source != Some(Terminal)) && (o.censored <==> o.reason != Uncensored)
    && (o.reason.BranchFault? <==> KeyFaulted(t, k))
    && (o.reason.BranchFault? ==> KeyFault(t.faults, k) == Some(o.reason.kind))
    && (o.reason.BootstrapOnly? <==> o.source == Some(ValueBootstrap))
    && (o.terminalReached <==> exists n :: KeyLeaf(t, k, n) && n.terminal)
    && (o.value.None? && !KeyFaulted(t, k) ==>
          o.reason == if exists n :: KeyRawLeaf(t, k, n) && n.id in t.pruned then PrunedBeforeFollowup
                      else if exists n :: KeyRawLeaf(t, k, n) && n.id in t.expanded then ExpandedWithoutOutcome
                      else EndedBeforeFollowup)
  }

  /** How deep anything recorded under the stream got. */
  ghost predicate DeepestOf(t: Trace, k: Key, deepest: nat) {
    && (forall n :: n in t.resolved && HasKey(n, k) ==> n.combatDepth <= deepest)
    && (forall f :: f in t.faults && FaultHasKey(f, k) ==> f.combatDepth <= deepest)
    && (deepest == 0
        || (exists n :: n in t.resolved && HasKey(n, k) && n.combatDepth == deepest)
        || (exists f :: f in t.faults && FaultHasKey(f, k) && f.combatDepth == deepest))
  }

  /** Of several leaves with the highest score, the one recorded first is named. */
  ghost predicate NamesFirst(t: Trace, k: Key, o: RngOutcome) {
    o.value.Some? ==> exists n :: FirstBest(t, KeyNodes(t.resolved, k), n) && o.best == Some(n.id)
  }

  ghost predicate FullOutcome(t: Trace, k: Key, o: RngOutcome) {
    OutcomeOf(t, k, o) && OutcomeCensoredAs(t, k, o) && DeepestOf(t, k, o.deepest) && NamesFirst(t, k, o)
  }

  method DeepestNode(nodes: seq<TraceNode>, start: nat) returns (deepest: nat)
    ensures deepest >= start && forall n :: n in nodes ==> n.combatDepth <= deepest
    ensures deepest == start || exists n :: n in nodes && n.combatDepth == deepest
  {
    deepest := start;
    for i := 0 to |nodes|
      invariant deepest >= start && forall j :: 0 <= j < i ==> nodes[j].combatDepth <= deepest
      invariant deepest == start || exists j :: 0 <= j < i && nodes[j].combatDepth == deepest
    {
      if nodes[i].combatDepth > deepest {
        deepest := nodes[i].combatDepth;
      }
    }
  }

  method BestKeyLeaf(t: Trace, k: Key, nodes: seq<TraceNode>, children: map<string, seq<string>>)
    returns (best: Option<TraceNode>, terminal: bool, rawPruned: bool, rawExpanded: bool)
    requires forall id :: ChildIds(t.resolved, id) == if id in children then children[id] else []
    requires nodes == KeyNodes(t.resolved, k)
    ensures best.None? <==> forall n :: !KeyLeaf(t, k, n)
    ensures best.Some? ==> KeyLeaf(t, k, best.value)
    ensures best.Some? ==> forall n :: KeyLeaf(t, k, n) ==> n.score <= best.value.score
    ensures best.Some? ==> FirstBest(t, nodes, best.value)
    ensures terminal <==> exists n :: KeyLeaf(t, k, n) && n.terminal
    ensures rawPruned <==> exists n :: KeyRawLeaf(t, k, n) && n.id in t.pruned
    ensures rawExpanded <==> exists n :: KeyRawLeaf(t, k, n) && n.id in t.expanded
  {
    best, terminal, rawPruned, rawExpanded := BestLeaf(t, nodes, children);
    assert forall n :: KeyLeaf(t, k, n) <==> n in nodes && Eligible(t, n);
    assert forall n :: KeyRawLeaf(t, k, n) <==> n in nodes && RawLeaf(t, n);
  }

  method OutcomeFor(t: Trace, k: Key, nodes: seq<TraceNode>, fault: Option<string>, faultDepth: nat,
                    children: map<string, seq<string>>)
    returns (o: RngOutcome)
    requires forall id :: ChildIds(t.resolved, id) == if id in children then children[id] else []
    requires nodes == KeyNodes(t.resolved, k) && fault == KeyFault(t.faults, k)
    requires faultDepth == KeyFaultDepth(t.faults, k)
    ensures FullOutcome(t, k, o)
  {
    var best, terminal, rawPruned, rawExpanded := BestKeyLeaf(t, k, nodes, children);
    var deepest := DeepestNode(nodes, faultDepth);
    if fault.Some? {
      return RngOutcome(k.1, None, None, terminal, deepest, true, BranchFault(fault.value), None);
    }
    if best.None? {
      var reason := if rawPruned then PrunedBeforeFollowup else if rawExpanded then ExpandedWithoutOutcome
                    else EndedBeforeFollowup;
      return RngOutcome(k.1, None, None, false, deepest, true, reason, None);
    }
    var censored := best.value.source != Terminal;
    return RngOutcome(k.1, Some(best.value.score), Some(best.value.source), terminal, deepest, censored,
                      if censored then BootstrapOnly else Uncensored, Some(best.value.id));
  }

  // ----- one root action ---------------------------------------------------------------

  datatype RootReason =
    | OfOutcome(reason: CensorReason)
    | CandidateMissing
    | CandidateLimit
    | NotMaterialized

  datatype RootSource = NoTarget | AllTerminal | AllBootstrap | MixedSources

  datatype RootTarget = RootTarget(
    action: string, evaluated: bool, estimate: Option<real>, outcomes: seq<RngOutcome>, source: RootSource,
    terminalReached: bool, censored: bool, reason: Option<RootReason>)

  function RngsOf(keys: set<Key>, action: string): (r: set<int>)
    ensures forall g :: g in r <==> (action, g) in keys
  {
    set k | k in keys && k.0 == action :: k.1
  }

  /** Something was recorded for the action under this stream. */
  ghost predicate Materialized(t: Trace, k: Key) {
    KeyFaulted(t, k) || exists n :: n in t.resolved && HasKey(n, k)
  }

  lemma {:induction false} LeastExists(s: set<int>) returns (m: int)
    requires |s| > 0
    ensures m in s && forall x :: x in s ==> m <= x
  {
    assert (forall x :: x !in s) ==> s == {};
    m :| m in s;
    var rest := s - {m};
    if |rest| > 0 {
      var least := LeastExists(rest);
      assert forall x :: x in s ==> x == m || x in rest;
      if least < m {
        m := least;
      }
    }
  }

  /** The members of a set of integers in ascending order. */
  method Ascending(s: set<int>) returns (r: seq<int>)
    ensures forall x :: x in r <==> x in s
    ensures forall i, j :: 0 <= i < j < |r| ==> r[i] < r[j]
  {
    r := [];
    var left := s;
    while |left| > 0
      invariant left <= s && forall x :: x in r <==> x in s - left
      invariant forall i, j :: 0 <= i < j < |r| ==> r[i] < r[j]
      invariant forall i, y :: 0 <= i < |r| && y in left ==> r[i] < y
      decreases |left|
    {
      ghost var least := LeastExists(left);
      var m :| m in left && forall x :: x in left ==> m <= x;
      r := r + [m];
      left := left - {m};
    }
  }

  /** The scores of the outcomes that have one, in order. */
  function Scores(outcomes: seq<RngOutcome>): (r: seq<real>)
    ensures r != [] <==> exists o :: o in outcomes && o.value.Some?
    ensures forall i :: 0 <= i < |r| ==> exists o :: o in outcomes && o.value == Some(r[i])
  {
    if outcomes == [] then []
    else
      assert outcomes == outcomes[..|outcomes| - 1] + [outcomes[|outcomes| - 1]];
      var front, last := Scores(outcomes[..|outcomes| - 1]), outcomes[|outcomes| - 1];
      if last.value.Some? then front + [last.value.value] else front
  }

  function Mean(v: seq<real>): real
    requires v != []
  {
    SelectionMetrics.SumOf(v) / |v| as real
  }

  ghost predicate AnyFault(outcomes: seq<RngOutcome>) {
    exists o :: o in outcomes && o.reason.BranchFault?
  }

  function SourceOf(outcomes: seq<RngOutcome>): set<ScoreSource> {
    set o | o in outcomes && o.source.Some? :: o.source.value
  }

  /** The estimate of an action: the mean over its streams, unless one of them is faulted. */
  ghost predicate Estimated(target: RootTarget) {
    && (target.estimate.Some? <==> !AnyFault(target.outcomes) && Scores(target.outcomes) != [])
    && (target.estimate.Some? ==> target.estimate.value == Mean(Scores(target.outcomes)))
    && (target.source.NoTarget? <==> target.estimate.None?)
    && (target.source.AllTerminal? ==> SourceOf(target.outcomes) == {Terminal})
    && (target.source.AllBootstrap? ==> SourceOf(target.outcomes) == {ValueBootstrap})
    && (target.source.MixedSources? ==> SourceOf(target.outcomes) == {Terminal, ValueBootstrap})
    && (target.censored <==> !(target.estimate.Some? && forall o :: o in target.outcomes ==> !o.censored))
    && (target.censored ==> target.reason.Some?)
    && (AnyFault(target.outcomes) ==> target.reason.value.OfOutcome? && target.reason.value.reason.BranchFault?)
    && (target.terminalReached <==> exists o :: o in target.outcomes && o.terminalReached)
  }

  /** The outcomes of an action: one for each stream anything was recorded under, ascending. */
  ghost predicate OutcomesOf(t: Trace, action: string, outcomes: seq<RngOutcome>) {
    && (forall i, j :: 0 <= i < j < |outcomes| ==> outcomes[i].rngId < outcomes[j].rngId)
    && (forall g :: Materialized(t, (action, g)) <==> exists o :: o in outcomes && o.rngId == g)
    && (forall o :: o in outcomes ==> FullOutcome(t, (action, o.rngId), o))
  }

  method ScoresAndSources(outcomes: seq<RngOutcome>) returns (scores: seq<real>, sources: set<ScoreSource>)
    ensures scores == Scores(outcomes) && sources == SourceOf(outcomes)
  {
    scores, sources := [], {};
    for i := 0 to |outcomes|
      invariant scores == Scores(outcomes[..i]) && sources == SourceOf(outcomes[..i])
    {
      var o := outcomes[i];
      assert outcomes[..i + 1] == outcomes[..i] + [o];
      assert outcomes[..i + 1][..i] == outcomes[..i];
      if o.value.Some? {
        scores := scores + [o.value.value];
      }
      if o.source.Some? {
        sources := sources + {o.source.value};
      }
    }
    assert outcomes[..|outcomes|] == outcomes;
  }

  method Reasons(outcomes: seq<RngOutcome>)
    returns (fault: Option<CensorReason>, first: Option<CensorReason>, terminal: bool, censored: bool)
    ensures fault.Some? <==> AnyFault(outcomes)
    ensures fault.Some? ==> fault.value.BranchFault?
    ensures first.Some? <==> exists o :: o in outcomes && o.reason != Uncensored
    ensures terminal <==> exists o :: o in outcomes && o.terminalReached
    ensures censored <==> exists o :: o in outcomes && o.censored
  {
    fault, first, terminal, censored := None, None, false, false;
    for i := 0 to |outcomes|
      invariant fault.Some? <==> AnyFault(outcomes[..i])
      invariant fault.Some? ==> fault.value.BranchFault?
      invariant first.Some? <==> exists o :: o in outcomes[..i] && o.reason != Uncensored
      invariant terminal <==> exists o :: o in outcomes[..i] && o.terminalReached
      invariant censored <==> exists o :: o in outcomes[..i] && o.censored
    {
      var o := outcomes[i];
      assert outcomes[..i + 1] == outcomes[..i] + [o];
      if fault.None? && o.reason.BranchFault? {
        fault := Some(o.reason);
      }
      if first.None? && o.reason != Uncensored {
        first := Some(o.reason);
      }
      terminal := terminal || o.terminalReached;
      censored := censored || o.censored;
    }
    assert outcomes[..|outcomes|] == outcomes;
  }

  /** An outcome has a source exactly when it has a score, and a reason exactly when it is
      censored; a fault censors it. */
  ghost predicate Consistent(o: RngOutcome) {
    && (o.source.Some? <==> o.value.Some?) && (o.censored <==> o.reason != Uncensored)
    && (o.value.None? ==> o.censored)
  }

  method TargetFor(action: string, outcomes: seq<RngOutcome>) returns (target: RootTarget)
    requires outcomes != [] && forall o :: o in outcomes ==> Consistent(o)
    ensures Estimated(target) && target.outcomes == outcomes && target.evaluated && target.action == action
  {
    var scores, sources := ScoresAndSources(outcomes);
    var fault, first, terminal, censored := Reasons(outcomes);
    var estimate := None;
    var source := NoTarget;
    if fault.None? && scores != [] {
      estimate := Some(Mean(scores));
      source := if sources == {Terminal} then AllTerminal else if sources == {ValueBootstrap} then AllBootstrap
                else MixedSources;
      TwoSources(outcomes);
    }
    if scores == [] {
      assert outcomes[0] in outcomes && Consistent(outcomes[0]);
      assert outcomes[0].value.None?;
    }
    var reason := if fault.Some? then Some(OfOutcome(fault.value))
                  else if first.Some? then Some(OfOutcome(first.value)) else None;
    target := RootTarget(action, true, estimate, outcomes, source, terminal, censored || scores == [], reason);
  }

  lemma TwoSources(outcomes: seq<RngOutcome>)
    requires Scores(outcomes) != [] && forall o :: o in outcomes ==> Consistent(o)
    ensures SourceOf(outcomes) in {{Terminal}, {ValueBootstrap}, {Terminal, ValueBootstrap}}
  {
    var o :| o in outcomes && o.value.Some?;
    assert Consistent(o) && o.source.value in SourceOf(outcomes);
    forall s | s in SourceOf(outcomes) ensures s in {Terminal, ValueBootstrap} {
      match s
      case Terminal =>
      case ValueBootstrap =>
    }
    if Terminal !in SourceOf(outcomes) {
      assert SourceOf(outcomes) == {ValueBootstrap};
    } else if ValueBootstrap !in SourceOf(outcomes) {
      assert SourceOf(outcomes) == {Terminal};
    } else {
      assert SourceOf(outcomes) == {Terminal, ValueBootstrap};
    }
  }

  /** What the grouping of a trace gives. */
  ghost predicate Grouped(t: Trace, byKey: map<Key, seq<TraceNode>>, kinds: map<Key, string>, depths: map<Key, nat>,
                          children: map<string, seq<string>>) {
    && (forall k :: KeyNodes(t.resolved, k) == if k in byKey then byKey[k] else [])
    && (forall k :: k in byKey ==> byKey[k] != [])
    && KindsGrouped(t.faults, kinds) && DepthsGrouped(t.faults, depths)
    && (forall id :: ChildIds(t.resolved, id) == if id in children then children[id] else [])
  }

  lemma RngsAreMaterialized(t: Trace, action: string, byKey: map<Key, seq<TraceNode>>, kinds: map<Key, string>,
                            depths: map<Key, nat>, children: map<string, seq<string>>, g: int)
    requires Grouped(t, byKey, kinds, depths, children)
    ensures g in RngsOf(byKey.Keys, action) + RngsOf(kinds.Keys, action) <==> Materialized(t, (action, g))
  {
    var k: Key := (action, g);
    if k in byKey {
      assert byKey[k][0] in KeyNodes(t.resolved, k);
    }
    assert k in kinds <==> KeyFault(t.faults, k).Some?;
    if n :| n in t.resolved && HasKey(n, k) {
      assert n in KeyNodes(t.resolved, k);
    }
  }

  method OutcomesFor(t: Trace, action: string, rngs: seq<int>, byKey: map<Key, seq<TraceNode>>,
                     kinds: map<Key, string>, depths: map<Key, nat>, children: map<string, seq<string>>)
    returns (outcomes: seq<RngOutcome>)
    requires Grouped(t, byKey, kinds, depths, children)
    requires forall i, j :: 0 <= i < j < |rngs| ==> rngs[i] < rngs[j]
    requires forall g :: g in rngs <==> Materialized(t, (action, g))
    ensures OutcomesOf(t, action, outcomes) && |outcomes| == |rngs|
  {
    outcomes := [];
    for i := 0 to |rngs|
      invariant |outcomes| == i && forall j :: 0 <= j < i ==> outcomes[j].rngId == rngs[j]
      invariant forall j :: 0 <= j < i ==> FullOutcome(t, (action, rngs[j]), outcomes[j])
    {
      var o := OutcomeUnder(t, (action, rngs[i]), byKey, kinds, depths, children);
      outcomes := outcomes + [o];
    }
    OutcomesInOrder(t, action, rngs, outcomes);
  }

  method OutcomeUnder(t: Trace, k: Key, byKey: map<Key, seq<TraceNode>>, kinds: map<Key, string>,
                      depths: map<Key, nat>, children: map<string, seq<string>>)
    returns (o: RngOutcome)
    requires Grouped(t, byKey, kinds, depths, children)
    ensures FullOutcome(t, k, o) && o.rngId == k.1
  {
    o := OutcomeFor(t, k, if k in byKey then byKey[k] else [], if k in kinds then Some(kinds[k]) else None,
                    if k in depths then depths[k] else 0, children);
  }

  lemma OutcomesInOrder(t: Trace, action: string, rngs: seq<int>, outcomes: seq<RngOutcome>)
    requires |outcomes| == |rngs| && forall j :: 0 <= j < |rngs| ==> outcomes[j].rngId == rngs[j]
    requires forall j :: 0 <= j < |rngs| ==> FullOutcome(t, (action, rngs[j]), outcomes[j])
    requires forall i, j :: 0 <= i < j < |rngs| ==> rngs[i] < rngs[j]
    requires forall g :: g in rngs <==> Materialized(t, (action, g))
    ensures OutcomesOf(t, action, outcomes)
  {
    forall g | g in rngs ensures exists o :: o in outcomes && o.rngId == g {
      var i :| 0 <= i < |rngs| && rngs[i] == g;
      assert outcomes[i] in outcomes;
    }
  }

  datatype TraceAction = TraceAction(id: string, available: bool)

  /** The target of one available action, or an exception: with exhaustive collection every
      proposed action has to have been recorded. */
  ghost predicate RootTargetOf(t: Trace, proposed: set<string>, exhaustive: bool, action: string, target: RootTarget) {
    && target.action == action
    && (target.evaluated <==> action in proposed && exists g :: Materialized(t, (action, g)))
    && (target.evaluated ==> OutcomesOf(t, action, target.outcomes) && Estimated(target))
    && (!target.evaluated ==>
          && target.estimate.None? && target.outcomes == [] && target.source.NoTarget? && target.censored
          && target.reason == Some(if action in proposed then NotMaterialized
                                   else if exhaustive then CandidateMissing else CandidateLimit))
  }

  ghost predicate Unrecorded(t: Trace, proposed: set<string>, a: TraceAction) {
    a.available && a.id != "" && a.id in proposed && forall g :: !Materialized(t, (a.id, g))
  }

  lemma OutcomesConsistent(t: Trace, action: string, outcomes: seq<RngOutcome>)
    requires OutcomesOf(t, action, outcomes)
    ensures forall o :: o in outcomes ==> Consistent(o)
  {
    forall o | o in outcomes ensures Consistent(o) {
      assert FullOutcome(t, (action, o.rngId), o);
    }
  }

  method RootTargetFor(t: Trace, action: string, proposed: set<string>, exhaustive: bool,
                       byKey: map<Key, seq<TraceNode>>, kinds: map<Key, string>, depths: map<Key, nat>,
                       children: map<string, seq<string>>)
    returns (raised: bool, target: RootTarget)
    requires Grouped(t, byKey, kinds, depths, children)
    ensures raised <==> exhaustive && action in proposed && forall g :: !Materialized(t, (action, g))
    ensures !raised ==> RootTargetOf(t, proposed, exhaustive, action, target)
  {
    raised := false;
    var unevaluated := RootTarget(action, false, None, [], NoTarget, false, true, None);
    if action !in proposed {
      target := unevaluated.(reason := Some(if exhaustive then CandidateMissing else CandidateLimit));
      return;
    }
    forall g ensures g in RngsOf(byKey.Keys, action) + RngsOf(kinds.Keys, action) <==> Materialized(t, (action, g)) {
      RngsAreMaterialized(t, action, byKey, kinds, depths, children, g);
    }
    var rngs := Ascending(RngsOf(byKey.Keys, action) + RngsOf(kinds.Keys, action));
    if rngs == [] {
      raised := exhaustive;
      target := unevaluated.(reason := Some(NotMaterialized));
      return;
    }
    assert rngs[0] in rngs;
    var outcomes := OutcomesFor(t, action, rngs, byKey, kinds, depths, children);
    OutcomesConsistent(t, action, outcomes);
    target := TargetFor(action, outcomes);
  }

  /** The available actions with an id, in order. */
  function Listed(actions: seq<TraceAction>): (r: seq<TraceAction>)
    ensures forall a :: a in r <==> a in actions && a.available && a.id != ""
  {
    if actions == [] then []
    else
      assert actions == actions[..|actions| - 1] + [actions[|actions| - 1]];
      var front, last := Listed(actions[..|actions| - 1]), actions[|actions| - 1];
      if last.available && last.id != "" then front + [last] else front
  }

  /** One target for each available action with an id, in order. */
  ghost predicate TargetsOf(t: Trace, actions: seq<TraceAction>, proposed: set<string>, exhaustive: bool,
                            targets: seq<RootTarget>) {
    && |targets| == |Listed(actions)|
    && forall i :: 0 <= i < |targets| ==> RootTargetOf(t, proposed, exhaustive, Listed(actions)[i].id, targets[i])
  }

  lemma TargetsGrow(t: Trace, actions: seq<TraceAction>, proposed: set<string>, exhaustive: bool, x: nat,
                    targets: seq<RootTarget>, target: RootTarget)
    requires x < |actions| && TargetsOf(t, actions[..x], proposed, exhaustive, targets)
    requires actions[x].available && actions[x].id != ""
    requires RootTargetOf(t, proposed, exhaustive, actions[x].id, target)
    ensures TargetsOf(t, actions[..x + 1], proposed, exhaustive, targets + [target])
  {
    ListedNext(actions, x);
    var before, after := Listed(actions[..x]), Listed(actions[..x + 1]);
    forall i | 0 <= i < |targets| + 1
      ensures RootTargetOf(t, proposed, exhaustive, after[i].id, (targets + [target])[i])
    {
      if i < |targets| {
        assert after[i] == before[i];
      }
    }
  }

  lemma ListedNext(actions: seq<TraceAction>, x: nat)
    requires x < |actions|
    ensures Listed(actions[..x + 1])
            == Listed(actions[..x]) + if actions[x].available && actions[x].id != "" then [actions[x]] else []
  {
    assert actions[..x + 1][..x] == actions[..x];
  }

  ghost predicate AnyUnrecorded(t: Trace, proposed: set<string>, actions: seq<TraceAction>) {
    exists i :: 0 <= i < |actions| && Unrecorded(t, proposed, actions[i])
  }

  lemma UnrecordedGrows(t: Trace, proposed: set<string>, actions: seq<TraceAction>, x: nat)
    requires x < |actions| && !AnyUnrecorded(t, proposed, actions[..x])
    ensures AnyUnrecorded(t, proposed, actions[..x + 1]) <==> Unrecorded(t, proposed, actions[x])
    ensures Unrecorded(t, proposed, actions[x]) ==> AnyUnrecorded(t, proposed, actions)
  {
    assert actions[..x + 1] == actions[..x] + [actions[x]];
  }

  /** The targets of the root's available actions, in order. */
  method RootActionTargets(t: Trace, actions: seq<TraceAction>, proposed: set<string>, exhaustive: bool)
    returns (raised: bool, targets: seq<RootTarget>)
    ensures raised <==> exhaustive && AnyUnrecorded(t, proposed, actions)
    ensures !raised ==> TargetsOf(t, actions, proposed, exhaustive, targets)
  {
    raised, targets := false, [];
    var byId, children := BuildIndex(t.resolved);
    var byKey := GroupNodes(t.resolved);
    var kinds, depths := GroupFaults(t.faults);
    for x := 0 to |actions|
      invariant exhaustive ==> !AnyUnrecorded(t, proposed, actions[..x])
      invariant TargetsOf(t, actions[..x], proposed, exhaustive, targets)
    {
      if exhaustive {
        UnrecordedGrows(t, proposed, actions, x);
      }
      if actions[x].available && actions[x].id != "" {
        var target;
        raised, target := RootTargetFor(t, actions[x].id, proposed, exhaustive, byKey, kinds, depths, children);
        if raised {
          return;
        }
        TargetsGrow(t, actions, proposed, exhaustive, x, targets, target);
        targets := targets + [target];
      } else {
        ListedNext(actions, x);
      }
    }
    assert actions[..|actions|] == actions;
  }

  // ----- what the targets say together -------------------------------------------------

  lemma FaultIsReported(t: Trace, action: string, outcomes: seq<RngOutcome>, f: Fault)
    requires OutcomesOf(t, action, outcomes) && f in t.faults && f.rootAction == Some(action)
    ensures AnyFault(outcomes)
  {
    assert FaultHasKey(f, (action, f.rngId)) && Materialized(t, (action, f.rngId));
    var o :| o in outcomes && o.rngId == f.rngId;
    assert FullOutcome(t, (action, o.rngId), o);
  }

  lemma ReportedIsFault(t: Trace, action: string, outcomes: seq<RngOutcome>)
    requires OutcomesOf(t, action, outcomes) && AnyFault(outcomes)
    ensures exists f :: f in t.faults && f.rootAction == Some(action)
  {
    var o :| o in outcomes && o.reason.BranchFault?;
    assert FullOutcome(t, (action, o.rngId), o);
  }

  lemma LeafIsScored(t: Trace, action: string, outcomes: seq<RngOutcome>, n: TraceNode)
    requires OutcomesOf(t, action, outcomes) && !AnyFault(outcomes)
    requires n in t.resolved && n.rootAction == Some(action) && Eligible(t, n)
    ensures Scores(outcomes) != []
  {
    assert KeyLeaf(t, (action, n.rngId), n) && Materialized(t, (action, n.rngId));
    var o :| o in outcomes && o.rngId == n.rngId;
    assert FullOutcome(t, (action, o.rngId), o);
  }

  lemma ScoredIsLeaf(t: Trace, action: string, outcomes: seq<RngOutcome>)
    requires OutcomesOf(t, action, outcomes) && Scores(outcomes) != []
    ensures exists n :: n in t.resolved && n.rootAction == Some(action) && Eligible(t, n)
  {
    var o :| o in outcomes && o.value.Some?;
    assert FullOutcome(t, (action, o.rngId), o);
    var n :| KeyLeaf(t, (action, o.rngId), n);
  }

  /** An action has an estimate exactly when nothing under it faulted and some eligible leaf lies
      under it. */
  lemma EstimateIff(t: Trace, proposed: set<string>, exhaustive: bool, action: string, target: RootTarget)
    requires RootTargetOf(t, proposed, exhaustive, action, target) && target.evaluated
    ensures target.estimate.Some? <==>
      && (forall f :: f in t.faults ==> f.rootAction != Some(action))
      && exists n :: n in t.resolved && n.rootAction == Some(action) && Eligible(t, n)
  {
    forall f | f in t.faults && f.rootAction == Some(action) ensures AnyFault(target.outcomes) {
      FaultIsReported(t, action, target.outcomes, f);
    }
    if AnyFault(target.outcomes) {
      ReportedIsFault(t, action, target.outcomes);
    } else if Scores(target.outcomes) != [] {
      ScoredIsLeaf(t, action, target.outcomes);
    } else {
      forall n | n in t.resolved && n.rootAction == Some(action) ensures !Eligible(t, n) {
        if Eligible(t, n) {
          LeafIsScored(t, action, target.outcomes, n);
        }
      }
    }
  }

  lemma {:induction false} SumIsBetween(v: seq<real>, low: real, high: real)
    requires forall i :: 0 <= i < |v| ==> low <= v[i] <= high
    ensures |v| as real * low <= SelectionMetrics.SumOf(v) <= |v| as real * high
  {
    if v != [] {
      SumIsBetween(v[..|v| - 1], low, high);
    }
  }

  lemma Cancel(a: real, b: real, c: real)
    requires c > 0.0 && a * c <= b * c
    ensures a <= b
  {
  }

  /** The mean weighs every score once. */
  lemma MeanTimesCount(v: seq<real>)
    requires v != []
    ensures Mean(v) * |v| as real == SelectionMetrics.SumOf(v)
  {
  }

  lemma MeanIsBetween(v: seq<real>, low: real, high: real)
    requires v != [] && forall i :: 0 <= i < |v| ==> low <= v[i] <= high
    ensures low <= Mean(v) <= high
  {
    SumIsBetween(v, low, high);
    var count := |v| as real;
    assert Mean(v) * count == SelectionMetrics.SumOf(v);
    Cancel(low, Mean(v), count);
    Cancel(Mean(v), high, count);
  }

  lemma OutcomeBound(t: Trace, action: string, outcomes: seq<RngOutcome>, high: real)
    requires OutcomesOf(t, action, outcomes)
    requires forall n :: n in t.resolved && n.rootAction == Some(action) && Eligible(t, n) ==> n.score <= high
    ensures forall o :: o in outcomes && o.value.Some? ==> o.value.value <= high
  {
    forall o | o in outcomes && o.value.Some? ensures o.value.value <= high {
      assert FullOutcome(t, (action, o.rngId), o);
      var n :| KeyLeaf(t, (action, o.rngId), n) && n.score == o.value.value;
    }
  }

  /** No action is valued above its best eligible leaf. */
  lemma EstimateWithinBestLeaf(t: Trace, action: string, target: RootTarget, high: real)
    requires OutcomesOf(t, action, target.outcomes) && Estimated(target) && target.estimate.Some?
    requires forall n :: n in t.resolved && n.rootAction == Some(action) && Eligible(t, n) ==> n.score <= high
    ensures target.estimate.value <= high
  {
    OutcomeBound(t, action, target.outcomes, high);
    MeanOfScores(target.outcomes, high);
  }

  lemma MeanOfScores(outcomes: seq<RngOutcome>, high: real)
    requires Scores(outcomes) != [] && forall o :: o in outcomes && o.value.Some? ==> o.value.value <= high
    ensures Mean(Scores(outcomes)) <= high
  {
    var scores := Scores(outcomes);
    forall i | 0 <= i < |scores| ensures scores[i] <= high {
      var o :| o in outcomes && o.value == Some(scores[i]);
    }
    var least := Lowest(scores);
    MeanIsBetween(scores, scores[least], high);
  }

  lemma {:induction false} Lowest(v: seq<real>) returns (least: nat)
    requires v != []
    ensures least < |v| && forall i :: 0 <= i < |v| ==> v[least] <= v[i]
  {
    least := |v| - 1;
    if |v| > 1 {
      var front := Lowest(v[..|v| - 1]);
      assert forall i :: 0 <= i < |v| - 1 ==> v[i] == v[..|v| - 1][i];
      if v[front] < v[least] {
        least := front;
      }
    }
  }

  /** Nodes carry the root action and the random stream of the node above them, and so do faults:
      the search plans every child that way. */
  ghost predicate KeysInherited(t: Trace) {
    && (forall n, m :: n in t.resolved && m in t.resolved && m.parent == n.id ==>
          m.rootAction == n.rootAction && m.rngId == n.rngId)
    && (forall n, f :: n in t.resolved && f in t.faults && f.parent == n.id ==>
          f.rootAction == n.rootAction && f.rngId == n.rngId)
  }

  lemma {:induction false} KeyBelow(t: Trace, path: seq<string>, x: TraceNode, y: TraceNode, k: Key)
    requires UniqueIds(t) && KeysInherited(t) && x in t.resolved && y in t.resolved && HasKey(x, k)
    requires PathFromTo(t, path, x.id, y.id)
    ensures HasKey(y, k)
    decreases |path|
  {
    var last := |path| - 1;
    assert Edge(t, path[last - 1], path[last]);
    EdgeIsParent(t, path[last - 1], path[last]);
    LookupUnique(t.resolved, y);
    if last > 1 {
      var front := path[..last];
      forall i | 0 <= i < |front| - 1 ensures Edge(t, front[i], front[i + 1]) {
        assert Edge(t, path[i], path[i + 1]);
      }
      assert Edge(t, path[last - 2], path[last - 1]);
      EdgeIsParent(t, path[last - 2], path[last - 1]);
      KeyBelow(t, front, x, Lookup(t.resolved, path[last - 1]).value, k);
    } else {
      LookupUnique(t.resolved, x);
    }
  }

  lemma LeafBelowHasKey(t: Trace, x: TraceNode, n: TraceNode, k: Key)
    requires UniqueIds(t) && KeysInherited(t) && x in t.resolved && HasKey(x, k) && LeafBelow(t, x.id, n)
    ensures KeyLeaf(t, k, n)
  {
    var path :| PathFromTo(t, path, x.id, n.id);
    KeyBelow(t, path, x, n, k);
  }

  lemma FaultBelowHasKey(t: Trace, x: TraceNode, k: Key, f: Fault)
    requires UniqueIds(t) && KeysInherited(t) && x in t.resolved && HasKey(x, k)
    requires f in t.faults && FaultAtOrBelow(t, f, x.id)
    ensures FaultHasKey(f, k)
  {
    var p := Lookup(t.resolved, f.parent).value;
    if f.parent == x.id {
      LookupUnique(t.resolved, x);
    } else {
      var path :| PathFromTo(t, path, x.id, f.parent);
      KeyBelow(t, path, x, p, k);
    }
  }

  /** A stream without a recorded fault has no fault at or below any of its nodes. */
  lemma UnfaultedStreamIsFaultFree(t: Trace, x: TraceNode, k: Key)
    requires UniqueIds(t) && KeysInherited(t) && x in t.resolved && HasKey(x, k) && !KeyFaulted(t, k)
    ensures FaultFree(t, x.id)
  {
    forall i | 0 <= i < |t.faults| && FaultAtOrBelow(t, t.faults[i], x.id) ensures KeyFaulted(t, k) {
      FaultBelowHasKey(t, x, k, t.faults[i]);
    }
  }

  /** On a stream without a fault, its value is at least the target of every node on it, and it
      has a value whenever one of them has a target. */
  lemma RootCoversStable(t: Trace, x: TraceNode, k: Key, r: StableTarget, o: RngOutcome)
    requires UniqueIds(t) && KeysInherited(t) && x in t.resolved && HasKey(x, k) && !KeyFaulted(t, k)
    requires TargetOf(t, x.id, r) && OutcomeOf(t, k, o) && r.score.Some?
    ensures o.value.Some? && o.value.value >= r.score.value
  {
    var n :| LeafBelow(t, x.id, n) && n.score == r.score.value;
    LeafBelowHasKey(t, x, n, k);
  }
}
