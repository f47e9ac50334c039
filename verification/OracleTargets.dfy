/** Training targets read off one recorded search: which leaves lie below a node, which faults
    censor it, and what score it is given. */
module OracleTargets {
  import opened Wrappers

  datatype ScoreSource = Terminal | ValueBootstrap

  datatype TraceNode = TraceNode(
    id: string, parent: string, freshScore: bool, score: real, source: ScoreSource, terminal: bool,
    rootAction: Option<string>, rngId: int, depth: nat, combatDepth: nat)

  datatype Fault = Fault(parent: string, kind: string, rootAction: Option<string>, rngId: int, combatDepth: nat)

  /** One recorded search: the resolved nodes and the faults in the order they were recorded, the
      nodes a prune step dropped and the nodes with a recorded policy proposal. */
  datatype Trace = Trace(resolved: seq<TraceNode>, faults: seq<Fault>, pruned: set<string>, expanded: set<string>)

  /** Every node was recorded once. */
  ghost predicate UniqueIds(t: Trace) {
    forall i, j :: 0 <= i < j < |t.resolved| ==> t.resolved[i].id != t.resolved[j].id
  }

  // ----- the two indexes ---------------------------------------------------------------

  /** The node recorded last under an id. */
  function Lookup(nodes: seq<TraceNode>, id: string): (r: Option<TraceNode>)
    ensures r.Some? ==> r.value in nodes && r.value.id == id
    ensures r.None? ==> forall n :: n in nodes ==> n.id != id
  {
    if nodes == [] then None
    else if nodes[|nodes| - 1].id == id then Some(nodes[|nodes| - 1])
    else
      assert nodes == nodes[..|nodes| - 1] + [nodes[|nodes| - 1]];
      Lookup(nodes[..|nodes| - 1], id)
  }

  /** The ids of the nodes recorded below an id, in order. */
  function ChildIds(nodes: seq<TraceNode>, id: string): (r: seq<string>)
    ensures forall c :: c in r <==> exists n :: n in nodes && n.parent == id && n.id == c
  {
    if nodes == [] then []
    else
      assert nodes == nodes[..|nodes| - 1] + [nodes[|nodes| - 1]];
      var front := ChildIds(nodes[..|nodes| - 1], id);
      if nodes[|nodes| - 1].parent == id then front + [nodes[|nodes| - 1].id] else front
  }

  ghost predicate Indexed(nodes: seq<TraceNode>, byId: map<string, TraceNode>, children: map<string, seq<string>>) {
    && (forall id :: id in byId <==> Lookup(nodes, id).Some?)
    && (forall id :: id in byId ==> Lookup(nodes, id) == Some(byId[id]))
    && (forall id :: ChildIds(nodes, id) == if id in children then children[id] else [])
  }

  method BuildIndex(nodes: seq<TraceNode>)
    returns (byId: map<string, TraceNode>, children: map<string, seq<string>>)
    ensures Indexed(nodes, byId, children)
  {
    byId, children := map[], map[];
    for i := 0 to |nodes|
      invariant Indexed(nodes[..i], byId, children)
    {
      var n := nodes[i];
      assert nodes[..i + 1][..i] == nodes[..i];
      byId := byId[n.id := n];
      children := children[n.parent := (if n.parent in children then children[n.parent] else []) + [n.id]];
    }
    assert nodes[..|nodes|] == nodes;
  }

  // ----- the descendant relation -------------------------------------------------------

  predicate Edge(t: Trace, a: string, b: string) {
    b in ChildIds(t.resolved, a)
  }

  ghost predicate IsPath(t: Trace, p: seq<string>) {
    forall i :: 0 <= i < |p| - 1 ==> Edge(t, p[i], p[i + 1])
  }

  ghost predicate PathFromTo(t: Trace, p: seq<string>, a: string, b: string) {
    |p| >= 2 && p[0] == a && p[|p| - 1] == b && IsPath(t, p)
  }

  /** `b` lies strictly below `a`. */
  ghost predicate Below(t: Trace, a: string, b: string) {
    exists p :: PathFromTo(t, p, a, b)
  }

  lemma ChildIsBelow(t: Trace, a: string, b: string)
    requires Edge(t, a, b)
    ensures Below(t, a, b)
  {
    assert PathFromTo(t, [a, b], a, b);
  }

  lemma BelowIsTransitive(t: Trace, a: string, b: string, c: string)
    requires Below(t, a, b) && Below(t, b, c)
    ensures Below(t, a, c)
  {
    var p :| PathFromTo(t, p, a, b);
    var q :| PathFromTo(t, q, b, c);
    var joined := p + q[1..];
    forall i | 0 <= i < |joined| - 1 ensures Edge(t, joined[i], joined[i + 1]) {
      if i < |p| - 1 {
        assert Edge(t, p[i], p[i + 1]);
      } else {
        assert joined[i] == q[i - (|p| - 1)];
        assert Edge(t, q[i - (|p| - 1)], q[i - (|p| - 1) + 1]);
      }
    }
    assert PathFromTo(t, joined, a, c);
  }

  /** A set with the children of `a` that is closed under children has everything below `a`. */
  lemma {:induction false} ClosedHasBelow(t: Trace, a: string, p: seq<string>, b: string, s: set<string>)
    requires PathFromTo(t, p, a, b)
    requires forall c :: Edge(t, a, c) ==> c in s
    requires forall x, c :: x in s && Edge(t, x, c) ==> c in s
    ensures b in s
    decreases |p|
  {
    if |p| == 2 {
      assert Edge(t, p[0], p[1]);
    } else {
      var front := p[..|p| - 1];
      forall i | 0 <= i < |front| - 1 ensures Edge(t, front[i], front[i + 1]) {
        assert Edge(t, p[i], p[i + 1]);
      }
      ClosedHasBelow(t, a, front, front[|front| - 1], s);
      assert Edge(t, p[|p| - 2], p[|p| - 1]);
    }
  }

  /** Only recorded nodes lie below anything. */
  lemma BelowIsRecorded(t: Trace, a: string, b: string)
    requires Below(t, a, b)
    ensures Lookup(t.resolved, b).Some?
  {
    var p :| PathFromTo(t, p, a, b);
    assert Edge(t, p[|p| - 2], p[|p| - 1]);
  }

  // ----- walking down ------------------------------------------------------------------

  function IdsOf(nodes: seq<TraceNode>): set<string> {
    set n | n in nodes :: n.id
  }

  /** What the breadth-first walk knows: everything seen or queued lies below the start, and the
      children of the start and of everything seen are seen or queued. */
  ghost predicate WalkInv(t: Trace, start: string, queue: seq<string>, seen: set<string>) {
    && (forall x :: x in seen ==> Below(t, start, x))
    && (forall x :: x in queue ==> Below(t, start, x))
    && (forall c :: Edge(t, start, c) ==> c in seen || c in queue)
    && (forall x, c :: x in seen && Edge(t, x, c) ==> c in seen || c in queue)
  }

  /** The nodes collected so far are the recorded nodes of what was seen, each once. */
  ghost predicate Collected(t: Trace, seen: set<string>, result: seq<TraceNode>) {
    && (forall n :: n in result <==> n.id in seen && Lookup(t.resolved, n.id) == Some(n))
    && (forall i, j :: 0 <= i < j < |result| ==> result[i].id != result[j].id)
  }

  lemma WalkStep(t: Trace, start: string, queue: seq<string>, seen: set<string>)
    requires queue != [] && WalkInv(t, start, queue, seen)
    ensures WalkInv(t, start, queue[1..] + if queue[0] in seen then [] else ChildIds(t.resolved, queue[0]),
                    seen + {queue[0]})
  {
    assert queue == [queue[0]] + queue[1..];
    forall c | Edge(t, queue[0], c) ensures Below(t, start, c) {
      ChildIsBelow(t, queue[0], c);
      BelowIsTransitive(t, start, queue[0], c);
    }
  }

  lemma CollectStep(t: Trace, seen: set<string>, result: seq<TraceNode>, n: TraceNode)
    requires Collected(t, seen, result) && n.id !in seen && Lookup(t.resolved, n.id) == Some(n)
    ensures Collected(t, seen + {n.id}, result + [n])
  {
    forall i | 0 <= i < |result| ensures result[i].id != n.id {
      assert result[i] in result;
    }
  }

  lemma WalkEnd(t: Trace, start: string, seen: set<string>)
    requires WalkInv(t, start, [], seen)
    ensures forall b :: b in seen <==> Below(t, start, b)
  {
    forall b | Below(t, start, b) ensures b in seen {
      var p :| PathFromTo(t, p, start, b);
      ClosedHasBelow(t, start, p, b, seen);
    }
  }

  /** The nodes below a node, by breadth-first walk. The walk ends on every recorded graph, also
      on one with cycles, and finds each node below exactly once. */
  method DescendantNodes(t: Trace, start: string, byId: map<string, TraceNode>, children: map<string, seq<string>>)
    returns (result: seq<TraceNode>)
    requires Indexed(t.resolved, byId, children)
    ensures forall n :: n in result <==> Below(t, start, n.id) && Lookup(t.resolved, n.id) == Some(n)
    ensures forall i, j :: 0 <= i < j < |result| ==> result[i].id != result[j].id
  {
    result := [];
    var queue := if start in children then children[start] else [];
    var seen: set<string> := {};
    assert queue == ChildIds(t.resolved, start);
    forall x | x in queue ensures Below(t, start, x) {
      ChildIsBelow(t, start, x);
    }
    while queue != []
      invariant WalkInv(t, start, queue, seen) && Collected(t, seen, result)
      decreases IdsOf(t.resolved) - seen, |queue|
    {
      var child := queue[0];
      WalkStep(t, start, queue, seen);
      BelowIsRecorded(t, start, child);
      queue := queue[1..];
      if child !in seen {
        assert child in IdsOf(t.resolved) - seen;
        CollectStep(t, seen, result, byId[child]);
        seen := seen + {child};
        result := result + [byId[child]];
        queue := queue + if child in children then children[child] else [];
      } else {
        assert seen + {child} == seen && queue + [] == queue;
      }
    }
    WalkEnd(t, start, seen);
  }

  // ----- faults at or below ------------------------------------------------------------

  /** The fault hit a branch of a recorded node that is this node or lies below it. */
  ghost predicate FaultAtOrBelow(t: Trace, f: Fault, x: string) {
    && Lookup(t.resolved, x).Some? && Lookup(t.resolved, f.parent).Some?
    && (f.parent == x || Below(t, x, f.parent))
  }

  /** The kind of the first of the first `n` faults at or below a node. */
  ghost function FaultReason(t: Trace, n: nat, x: string): (r: Option<string>)
    requires n <= |t.faults|
    ensures r.Some? <==> exists i :: 0 <= i < n && FaultAtOrBelow(t, t.faults[i], x)
  {
    if n == 0 then None
    else
      var earlier := FaultReason(t, n - 1, x);
      if earlier.Some? then earlier
      else if FaultAtOrBelow(t, t.faults[n - 1], x) then Some(t.faults[n - 1].kind)
      else None
  }

  lemma {:induction false} LookupUnique(nodes: seq<TraceNode>, n: TraceNode)
    requires n in nodes && forall i, j :: 0 <= i < j < |nodes| ==> nodes[i].id != nodes[j].id
    ensures Lookup(nodes, n.id) == Some(n)
  {
    var front, last := nodes[..|nodes| - 1], nodes[|nodes| - 1];
    var k :| 0 <= k < |nodes| && nodes[k] == n;
    if k < |front| {
      assert front[k] == n;
      LookupUnique(front, n);
    }
  }

  lemma EdgeIsParent(t: Trace, a: string, b: string)
    requires UniqueIds(t) && Edge(t, a, b)
    ensures Lookup(t.resolved, b).Some? && Lookup(t.resolved, b).value.parent == a
  {
    var n :| n in t.resolved && n.parent == a && n.id == b;
    LookupUnique(t.resolved, n);
  }

  lemma ParentIsEdge(t: Trace, b: string)
    requires Lookup(t.resolved, b).Some?
    ensures Edge(t, Lookup(t.resolved, b).value.parent, b)
  {
  }

  /** A set with `p` that has the recorded parent of each of its members has every recorded node
      above `p`. */
  lemma {:induction false} ClosedHasAbove(t: Trace, x: string, path: seq<string>, p: string, s: set<string>)
    requires UniqueIds(t) && PathFromTo(t, path, x, p) && p in s && Lookup(t.resolved, x).Some?
    requires forall y :: y in s && Lookup(t.resolved, y).Some? ==>
      var above := Lookup(t.resolved, y).value.parent;
      Lookup(t.resolved, above).Some? ==> above in s
    ensures x in s
    decreases |path|
  {
    var above := path[|path| - 2];
    assert Edge(t, path[|path| - 2], path[|path| - 1]);
    EdgeIsParent(t, above, p);
    if |path| > 2 {
      assert Edge(t, path[|path| - 3], path[|path| - 2]);
      EdgeIsParent(t, path[|path| - 3], above);
      var front := path[..|path| - 1];
      forall i | 0 <= i < |front| - 1 ensures Edge(t, front[i], front[i + 1]) {
        assert Edge(t, path[i], path[i + 1]);
      }
      ClosedHasAbove(t, x, front, above, s);
    }
  }

  /** The walk up from a fault: what was seen is at or above it, and only the next node can be
      missing. */
  ghost predicate ClimbInv(t: Trace, f: Fault, ancestor: string, seen: set<string>) {
    && (forall x :: x in seen ==> FaultAtOrBelow(t, f, x))
    && (ancestor == f.parent || Below(t, ancestor, f.parent))
    && (f.parent in seen || ancestor == f.parent)
    && (forall y :: y in seen ==>
          Lookup(t.resolved, y).value.parent in seen || Lookup(t.resolved, y).value.parent == ancestor)
  }

  lemma ClimbStep(t: Trace, f: Fault, ancestor: string, seen: set<string>)
    requires ClimbInv(t, f, ancestor, seen) && Lookup(t.resolved, ancestor).Some?
    requires Lookup(t.resolved, f.parent).Some?
    ensures ClimbInv(t, f, Lookup(t.resolved, ancestor).value.parent, seen + {ancestor})
  {
    var parent := Lookup(t.resolved, ancestor).value.parent;
    ParentIsEdge(t, ancestor);
    ChildIsBelow(t, parent, ancestor);
    if ancestor != f.parent {
      BelowIsTransitive(t, parent, ancestor, f.parent);
    }
  }

  lemma ClimbEnd(t: Trace, f: Fault, ancestor: string, seen: set<string>)
    requires UniqueIds(t) && ClimbInv(t, f, ancestor, seen)
    requires Lookup(t.resolved, ancestor).None? || ancestor in seen
    ensures forall x :: x in seen <==> FaultAtOrBelow(t, f, x)
  {
    forall x | FaultAtOrBelow(t, f, x) ensures x in seen {
      if x != f.parent {
        var path :| PathFromTo(t, path, x, f.parent);
        ClosedHasAbove(t, x, path, f.parent, seen);
      }
    }
  }

  function MarkOne(reasons: map<string, string>, x: string, kind: string): map<string, string> {
    if x in reasons then reasons else reasons[x := kind]
  }

  lemma MarkOneMore(before: map<string, string>, after: map<string, string>, seen: set<string>, x: string, kind: string)
    requires MarkedAlso(before, after, seen, kind)
    ensures MarkedAlso(before, MarkOne(after, x, kind), seen + {x}, kind)
  {
  }

  /** Marks the recorded nodes at or above one fault, leaving earlier marks alone. */
  method MarkAncestors(t: Trace, f: Fault, byId: map<string, TraceNode>, children: map<string, seq<string>>,
                       reasons0: map<string, string>)
    returns (reasons: map<string, string>, ghost seen: set<string>)
    requires UniqueIds(t) && Indexed(t.resolved, byId, children)
    ensures MarkedAlso(reasons0, reasons, seen, f.kind)
    ensures forall x :: x in seen <==> FaultAtOrBelow(t, f, x)
  {
    reasons := reasons0;
    var ancestor := f.parent;
    var visited: set<string> := {};
    while ancestor in byId && ancestor !in visited
      invariant ClimbInv(t, f, ancestor, visited)
      invariant MarkedAlso(reasons0, reasons, visited, f.kind)
      decreases IdsOf(t.resolved) - visited
    {
      assert ancestor in IdsOf(t.resolved) - visited;
      ClimbStep(t, f, ancestor, visited);
      MarkOneMore(reasons0, reasons, visited, ancestor, f.kind);
      visited := visited + {ancestor};
      reasons := MarkOne(reasons, ancestor, f.kind);
      ancestor := byId[ancestor].parent;
    }
    ClimbEnd(t, f, ancestor, visited);
    seen := visited;
  }

  /** Marks the recorded nodes at or above every fault, first fault first. */
  method MarkFaults(t: Trace, byId: map<string, TraceNode>, children: map<string, seq<string>>)
    returns (reasons: map<string, string>)
    requires UniqueIds(t) && Indexed(t.resolved, byId, children)
    ensures forall x :: x in reasons <==> FaultReason(t, |t.faults|, x).Some?
    ensures forall x :: x in reasons ==> FaultReason(t, |t.faults|, x) == Some(reasons[x])
  {
    reasons := map[];
    for i := 0 to |t.faults|
      invariant Marked(t, i, reasons)
    {
      ghost var before := reasons;
      ghost var seen;
      reasons, seen := MarkAncestors(t, t.faults[i], byId, children, reasons);
      MarkedStep(t, i, before, reasons, seen);
    }
  }

  ghost predicate Marked(t: Trace, n: nat, reasons: map<string, string>)
    requires n <= |t.faults|
  {
    forall x :: if x in reasons then FaultReason(t, n, x) == Some(reasons[x]) else FaultReason(t, n, x) == None
  }

  ghost predicate MarkedAlso(before: map<string, string>, after: map<string, string>, seen: set<string>, kind: string) {
    after.Keys == before.Keys + seen
    && forall x :: x in after ==> after[x] == if x in before then before[x] else kind
  }

  lemma MarkedStep(t: Trace, i: nat, before: map<string, string>, after: map<string, string>, seen: set<string>)
    requires i < |t.faults| && Marked(t, i, before) && MarkedAlso(before, after, seen, t.faults[i].kind)
    requires forall x :: x in seen <==> FaultAtOrBelow(t, t.faults[i], x)
    ensures Marked(t, i + 1, after)
  {
  }

  // ----- targets -----------------------------------------------------------------------

  /** A final leaf: freshly scored, without children, neither pruned nor asked for a policy. */
  predicate Eligible(t: Trace, n: TraceNode) {
    RawLeaf(t, n) && n.id !in t.pruned && n.id !in t.expanded
  }

  predicate RawLeaf(t: Trace, n: TraceNode) {
    n.freshScore && ChildIds(t.resolved, n.id) == []
  }

  /** A freshly scored, childless node strictly below a node. */
  ghost predicate RawLeafBelow(t: Trace, x: string, n: TraceNode) {
    Below(t, x, n.id) && Lookup(t.resolved, n.id) == Some(n) && RawLeaf(t, n)
  }

  /** An eligible leaf strictly below a node. */
  ghost predicate LeafBelow(t: Trace, x: string, n: TraceNode) {
    Below(t, x, n.id) && Lookup(t.resolved, n.id) == Some(n) && Eligible(t, n)
  }

  ghost predicate FaultFree(t: Trace, x: string) {
    forall i :: 0 <= i < |t.faults| ==> !FaultAtOrBelow(t, t.faults[i], x)
  }

  datatype CensorReason =
    | Uncensored
    | BranchFault(kind: string)
    | PrunedBeforeFollowup
    | DescendantPruned
    | ExpandedWithoutOutcome
    | EndedBeforeFollowup
    | BootstrapOnly

  datatype StableTarget = StableTarget(
    score: Option<real>, source: Option<ScoreSource>, terminalReached: bool, censored: bool,
    reason: CensorReason, best: Option<string>)

  /** What a stable node's target says. It is numeric exactly when no fault lies at or below the
      node and some eligible leaf lies below it; then it is the highest score of such a leaf. */
  ghost predicate TargetOf(t: Trace, x: string, r: StableTarget) {
    && (r.score.Some? <==> FaultFree(t, x) && exists n :: LeafBelow(t, x, n))
    && (r.score.Some? ==> forall n :: LeafBelow(t, x, n) ==> n.score <= r.score.value)
    && (r.score.Some? ==> exists n :: LeafBelow(t, x, n) && n.score == r.score.value
                                      && r.best == Some(n.id) && r.source == Some(n.source))
  }

  /** How a target is censored: only a score reached at a terminal state is not. */
  ghost predicate CensoredAs(t: Trace, x: string, kept: bool, r: StableTarget) {
    && (r.censored <==> r.source != Some(Terminal)) && (r.censored <==> r.reason != Uncensored)
    && (r.reason.BranchFault? <==> !FaultFree(t, x))
    && (r.reason.BranchFault? ==> FaultReason(t, |t.faults|, x) == Some(r.reason.kind))
    && (r.reason.BootstrapOnly? <==> r.source == Some(ValueBootstrap))
    && (r.terminalReached <==> exists n :: LeafBelow(t, x, n) && n.terminal)
    && (r.score.None? && FaultFree(t, x) ==> r.reason == NoOutcomeReason(t, x, kept))
  }

  /** Why a fault-free node has no target. */
  ghost function NoOutcomeReason(t: Trace, x: string, kept: bool): CensorReason {
    if !kept then PrunedBeforeFollowup
    else if exists n :: RawLeafBelow(t, x, n) && n.id in t.pruned then DescendantPruned
    else if exists n :: RawLeafBelow(t, x, n) && n.id in t.expanded then ExpandedWithoutOutcome
    else EndedBeforeFollowup
  }

  /** The first of the eligible nodes with the highest score. */
  ghost predicate FirstBest(t: Trace, nodes: seq<TraceNode>, best: TraceNode) {
    exists i :: 0 <= i < |nodes| && nodes[i] == best && NothingBefore(t, nodes[..i], best.score)
  }

  ghost predicate NothingBefore(t: Trace, nodes: seq<TraceNode>, score: real) {
    forall n :: n in nodes && Eligible(t, n) ==> n.score < score
  }

  lemma StillFirstBest(t: Trace, nodes: seq<TraceNode>, n: TraceNode, best: TraceNode)
    requires FirstBest(t, nodes, best)
    ensures FirstBest(t, nodes + [n], best)
  {
    var i :| 0 <= i < |nodes| && nodes[i] == best && NothingBefore(t, nodes[..i], best.score);
    assert (nodes + [n])[..i] == nodes[..i] && (nodes + [n])[i] == best;
  }

  lemma NowFirstBest(t: Trace, nodes: seq<TraceNode>, n: TraceNode)
    requires NothingBefore(t, nodes, n.score)
    ensures FirstBest(t, nodes + [n], n)
  {
    assert (nodes + [n])[..|nodes|] == nodes && (nodes + [n])[|nodes|] == n;
  }

  /** The first of the eligible nodes with the highest score. */
  method BestEligible(t: Trace, nodes: seq<TraceNode>, children: map<string, seq<string>>)
    returns (best: Option<TraceNode>)
    requires forall id :: ChildIds(t.resolved, id) == if id in children then children[id] else []
    ensures best.None? <==> forall n :: n in nodes ==> !Eligible(t, n)
    ensures best.Some? ==> best.value in nodes && Eligible(t, best.value) && FirstBest(t, nodes, best.value)
    ensures best.Some? ==> forall n :: n in nodes && Eligible(t, n) ==> n.score <= best.value.score
  {
    best := None;
    for i := 0 to |nodes|
      invariant best.None? ==> forall n :: n in nodes[..i] ==> !Eligible(t, n)
      invariant best.Some? ==> best.value in nodes[..i] && Eligible(t, best.value)
      invariant best.Some? ==> forall n :: n in nodes[..i] && Eligible(t, n) ==> n.score <= best.value.score
      invariant best.Some? ==> FirstBest(t, nodes[..i], best.value)
    {
      var n := nodes[i];
      assert nodes[..i + 1] == nodes[..i] + [n];
      if best.Some? {
        StillFirstBest(t, nodes[..i], n, best.value);
      }
      var childless := n.id !in children || children[n.id] == [];
      assert childless <==> ChildIds(t.resolved, n.id) == [];
      if n.freshScore && childless && n.id !in t.pruned && n.id !in t.expanded {
        if best.None? || n.score > best.value.score {
          NowFirstBest(t, nodes[..i], n);
          best := Some(n);
        }
      }
    }
    assert nodes[..|nodes|] == nodes;
  }

  /** The best eligible node, and what else there is among the nodes. */
  method BestLeaf(t: Trace, nodes: seq<TraceNode>, children: map<string, seq<string>>)
    returns (best: Option<TraceNode>, terminal: bool, rawPruned: bool, rawExpanded: bool)
    requires forall id :: ChildIds(t.resolved, id) == if id in children then children[id] else []
    ensures best.None? <==> forall n :: n in nodes ==> !Eligible(t, n)
    ensures best.Some? ==> best.value in nodes && Eligible(t, best.value) && FirstBest(t, nodes, best.value)
    ensures best.Some? ==> forall n :: n in nodes && Eligible(t, n) ==> n.score <= best.value.score
    ensures terminal <==> exists n :: n in nodes && Eligible(t, n) && n.terminal
    ensures rawPruned <==> exists n :: n in nodes && RawLeaf(t, n) && n.id in t.pruned
    ensures rawExpanded <==> exists n :: n in nodes && RawLeaf(t, n) && n.id in t.expanded
  {
    best := BestEligible(t, nodes, children);
    terminal, rawPruned, rawExpanded := false, false, false;
    for i := 0 to |nodes|
      invariant terminal <==> exists n :: n in nodes[..i] && Eligible(t, n) && n.terminal
      invariant rawPruned <==> exists n :: n in nodes[..i] && RawLeaf(t, n) && n.id in t.pruned
      invariant rawExpanded <==> exists n :: n in nodes[..i] && RawLeaf(t, n) && n.id in t.expanded
    {
      var n := nodes[i];
      assert nodes[..i + 1] == nodes[..i] + [n];
      var childless := n.id !in children || children[n.id] == [];
      assert childless <==> ChildIds(t.resolved, n.id) == [];
      if n.freshScore && childless {
        rawPruned := rawPruned || n.id in t.pruned;
        rawExpanded := rawExpanded || n.id in t.expanded;
        terminal := terminal || (n.terminal && n.id !in t.pruned && n.id !in t.expanded);
      }
    }
    assert nodes[..|nodes|] == nodes;
  }

  method BestLeafBelow(t: Trace, x: string, byId: map<string, TraceNode>, children: map<string, seq<string>>)
    returns (best: Option<TraceNode>, terminal: bool, rawPruned: bool, rawExpanded: bool)
    requires UniqueIds(t) && Indexed(t.resolved, byId, children)
    ensures best.None? <==> forall n :: !LeafBelow(t, x, n)
    ensures best.Some? ==> LeafBelow(t, x, best.value)
    ensures best.Some? ==> forall n :: LeafBelow(t, x, n) ==> n.score <= best.value.score
    ensures terminal <==> exists n :: LeafBelow(t, x, n) && n.terminal
    ensures rawPruned <==> exists n :: RawLeafBelow(t, x, n) && n.id in t.pruned
    ensures rawExpanded <==> exists n :: RawLeafBelow(t, x, n) && n.id in t.expanded
  {
    var descendants := DescendantNodes(t, x, byId, children);
    best, terminal, rawPruned, rawExpanded := BestLeaf(t, descendants, children);
    assert forall n :: RawLeafBelow(t, x, n) <==> n in descendants && RawLeaf(t, n);
    assert forall n :: LeafBelow(t, x, n) <==> n in descendants && Eligible(t, n);
  }

  /** The target of one node of a prune step. */
  method StableTargetFor(t: Trace, x: string, kept: bool, byId: map<string, TraceNode>,
                         children: map<string, seq<string>>, reasons: map<string, string>)
    returns (r: StableTarget)
    requires UniqueIds(t) && Indexed(t.resolved, byId, children) && Marked(t, |t.faults|, reasons)
    ensures TargetOf(t, x, r) && CensoredAs(t, x, kept, r)
  {
    var best, terminal, rawPruned, rawExpanded := BestLeafBelow(t, x, byId, children);
    if x in reasons {
      return StableTarget(None, None, terminal, true, BranchFault(reasons[x]), None);
    }
    assert FaultReason(t, |t.faults|, x) == None;
    if best.None? {
      var reason := if !kept then PrunedBeforeFollowup else if rawPruned then DescendantPruned
                    else if rawExpanded then ExpandedWithoutOutcome else EndedBeforeFollowup;
      return StableTarget(None, None, false, true, reason, None);
    }
    var censored := best.value.source != Terminal;
    return StableTarget(Some(best.value.score), Some(best.value.source), terminal, censored,
                        if censored then BootstrapOnly else Uncensored, Some(best.value.id));
  }

  datatype PruneNode = PruneNode(id: string, kept: bool)

  /** The targets of all nodes of the recorded prune steps, in order. */
  method BuildStableTargets(t: Trace, nodes: seq<PruneNode>) returns (targets: seq<StableTarget>)
    requires UniqueIds(t)
    ensures |targets| == |nodes|
    ensures forall i :: 0 <= i < |nodes| ==>
      TargetOf(t, nodes[i].id, targets[i]) && CensoredAs(t, nodes[i].id, nodes[i].kept, targets[i])
  {
    var byId, children := BuildIndex(t.resolved);
    var reasons := MarkFaults(t, byId, children);
    targets := [];
    for i := 0 to |nodes|
      invariant |targets| == i
      invariant forall j :: 0 <= j < i ==>
        TargetOf(t, nodes[j].id, targets[j]) && CensoredAs(t, nodes[j].id, nodes[j].kept, targets[j])
    {
      var target := StableTargetFor(t, nodes[i].id, nodes[i].kept, byId, children, reasons);
      targets := targets + [target];
    }
  }

  /** A fault-free node never scores below a node underneath it, and it has a target whenever
      that one has: censoring and scores are monotone along the tree. */
  lemma AncestorsScoreAtLeast(t: Trace, x: string, y: string, above: StableTarget, below: StableTarget)
    requires Below(t, x, y) && TargetOf(t, x, above) && TargetOf(t, y, below)
    requires below.score.Some? && FaultFree(t, x)
    ensures above.score.Some? && above.score.value >= below.score.value
  {
    var n :| LeafBelow(t, y, n) && n.score == below.score.value;
    BelowIsTransitive(t, x, y, n.id);
    assert LeafBelow(t, x, n);
  }

  /** A fault below a node censors every recorded node above it as well. */
  lemma FaultsCensorAncestors(t: Trace, x: string, y: string)
    requires Below(t, x, y) && Lookup(t.resolved, x).Some? && FaultFree(t, x)
    ensures FaultFree(t, y)
  {
    forall i | 0 <= i < |t.faults| ensures !FaultAtOrBelow(t, t.faults[i], y) {
      if FaultAtOrBelow(t, t.faults[i], y) {
        FaultRises(t, t.faults[i], x, y);
      }
    }
  }

  lemma FaultRises(t: Trace, f: Fault, x: string, y: string)
    requires Below(t, x, y) && Lookup(t.resolved, x).Some? && FaultAtOrBelow(t, f, y)
    ensures FaultAtOrBelow(t, f, x)
  {
    if f.parent != y {
      BelowIsTransitive(t, x, y, f.parent);
    }
  }
}
