/** Planning a ply: candidate proposals for the beam, the cut to the active-branch budget, and
    the pruning of resolved frontiers. What policy and pruner answer is arbitrary; the methods
    here say when it raises and otherwise what becomes of it, in order. */
module BeamPlan {
  import opened Wrappers
  import opened WireContract
  import opened CombatDecision
  import opened BeamModel
  import opened BeamFrontier
  import opened Ranking

  // ----- proposals ---------------------------------------------------------------------

  /** Every planned branch belongs to a beam node, plays an action that node offers, and has an
      id that was never issued before. */
  ghost predicate SoundPlans(r: Rules, beam: seq<BeamNode>, plan: seq<Planned>, issued0: set<BranchId>,
                             issued: set<BranchId>)
  {
    && Distinct(PlanIds(plan))
    && forall i :: 0 <= i < |plan| ==>
         SoundPlan(r, plan[i]) && plan[i].node in beam
         && plan[i].branch in issued && plan[i].branch !in issued0
  }

  /** The beam nodes that have a planned branch. */
  function PlannedParents(plan: seq<Planned>): set<BranchId> {
    set i | 0 <= i < |plan| :: plan[i].node.branch
  }

  lemma PlannedParentsGrow(plan: seq<Planned>, p: Planned)
    ensures PlannedParents(plan + [p]) == PlannedParents(plan) + {p.node.branch}
  {
    forall i | 0 <= i < |plan| ensures plan[i].node.branch in PlannedParents(plan + [p]) {
      assert (plan + [p])[i] == plan[i];
    }
    assert (plan + [p])[|plan|] == p;
  }

  lemma IdsGrow(nodes: seq<BeamNode>, n: BeamNode)
    ensures Ids(nodes + [n]) == Ids(nodes) + {n.branch}
  {
    forall i | 0 <= i < |nodes| ensures nodes[i].branch in Ids(nodes + [n]) {
      assert (nodes + [n])[i] == nodes[i];
    }
    assert (nodes + [n])[|nodes|] == n;
  }

  /** What the planned branches play, in order. */
  function Moves(plan: seq<Planned>): seq<(BeamNode, string)> {
    seq(|plan|, i requires 0 <= i < |plan| => (plan[i].node, plan[i].action))
  }

  function MovesOf(n: BeamNode, actions: seq<string>): seq<(BeamNode, string)> {
    seq(|actions|, i requires 0 <= i < |actions| => (n, actions[i]))
  }

  /** The policy's answers for the first `k` nodes, node by node. */
  function Answered(beam: seq<BeamNode>, answers: seq<seq<string>>, k: nat): seq<(BeamNode, string)>
    requires k <= |beam| && k <= |answers|
  {
    if k == 0 then [] else Answered(beam, answers, k - 1) + MovesOf(beam[k - 1], answers[k - 1])
  }

  function AnswersBefore(answers: seq<seq<string>>, i: nat): nat
    requires i <= |answers|
  {
    if i == 0 then 0 else AnswersBefore(answers, i - 1) + |answers[i - 1]|
  }

  /** Every answer of every node is there once, node by node and in the order of the answer. */
  lemma {:induction false} AnsweredAt(beam: seq<BeamNode>, answers: seq<seq<string>>, k: nat, i: nat, j: nat)
    requires i < k <= |beam| && k <= |answers| && j < |answers[i]|
    ensures |Answered(beam, answers, k)| == AnswersBefore(answers, k)
    ensures AnswersBefore(answers, i) + j < |Answered(beam, answers, k)|
    ensures Answered(beam, answers, k)[AnswersBefore(answers, i) + j] == (beam[i], answers[i][j])
  {
    AnsweredCount(beam, answers, k - 1);
    if i < k - 1 {
      AnsweredAt(beam, answers, k - 1, i, j);
    }
  }

  lemma {:induction false} AnsweredCount(beam: seq<BeamNode>, answers: seq<seq<string>>, k: nat)
    requires k <= |beam| && k <= |answers|
    ensures |Answered(beam, answers, k)| == AnswersBefore(answers, k)
  {
    if k > 0 {
      AnsweredCount(beam, answers, k - 1);
    }
  }

  /** The nodes the policy has no candidate for. */
  function Unanswered(beam: seq<BeamNode>, answers: seq<seq<string>>, k: nat): seq<BeamNode>
    requires k <= |beam| && k <= |answers|
  {
    if k == 0 then []
    else Unanswered(beam, answers, k - 1) + if answers[k - 1] == [] then [beam[k - 1]] else []
  }

  /** An answer the engine accepts: not too long, and nothing that is not on offer. */
  predicate AcceptableAnswer(r: Rules, n: BeamNode, actions: seq<string>) {
    |actions| <= r.cfg.topK && forall i :: 0 <= i < |actions| ==> IsAvailable(n.dto, actions[i])
  }

  /** The candidates of one node. The policy is arbitrary; what it may not do raises, and
      anything else is planned as it stands. */
  method ProposeNode(alloc: BranchIdAllocator, r: Rules, ghost beam: seq<BeamNode>, n: BeamNode,
                     plan0: seq<Planned>, ghost issued0: set<BranchId>)
    returns (raised: bool, empty: bool, plan: seq<Planned>, ghost answer: seq<string>)
    requires alloc.Valid() && n in beam && SoundNode(r, n) && Searchable(n.dto, r.cfg.allowed)
    requires issued0 <= alloc.issued && SoundPlans(r, beam, plan0, issued0, alloc.issued)
    modifies alloc
    ensures alloc.Valid() && old(alloc.issued) <= alloc.issued
    ensures raised <==> !AcceptableAnswer(r, n, answer)
    ensures !raised ==> SoundPlans(r, beam, plan, issued0, alloc.issued)
    ensures !raised ==> (empty <==> answer == [])
    ensures !raised ==> PlannedParents(plan) == PlannedParents(plan0) + if empty then {} else {n.branch}
    ensures !raised ==> Moves(plan) == Moves(plan0) + MovesOf(n, answer)
  {
    raised, empty, plan := false, false, plan0;
    var candidates: seq<string> := *;
    answer := candidates;
    if |candidates| > r.cfg.topK {
      raised := true;
    } else if candidates == [] {
      empty := true;
      assert Moves(plan0) + MovesOf(n, []) == Moves(plan0);
    } else {
      raised, plan := PlanMoves(alloc, r, beam, n, candidates, plan0, issued0);
    }
  }

  method PlanMoves(alloc: BranchIdAllocator, r: Rules, ghost beam: seq<BeamNode>, n: BeamNode,
                   candidates: seq<string>, plan0: seq<Planned>, ghost issued0: set<BranchId>)
    returns (raised: bool, plan: seq<Planned>)
    requires alloc.Valid() && n in beam && SoundNode(r, n) && Searchable(n.dto, r.cfg.allowed)
    requires 0 < |candidates| <= r.cfg.topK
    requires issued0 <= alloc.issued && SoundPlans(r, beam, plan0, issued0, alloc.issued)
    modifies alloc
    ensures alloc.Valid() && old(alloc.issued) <= alloc.issued
    ensures raised <==> !AcceptableAnswer(r, n, candidates)
    ensures !raised ==> SoundPlans(r, beam, plan, issued0, alloc.issued)
    ensures !raised ==> PlannedParents(plan) == PlannedParents(plan0) + {n.branch}
    ensures !raised ==> Moves(plan) == Moves(plan0) + MovesOf(n, candidates)
  {
    raised, plan := false, plan0;
    for i := 0 to |candidates|
      invariant alloc.Valid() && old(alloc.issued) <= alloc.issued
      invariant AllAvailable(n.dto, candidates, i)
      invariant SoundPlans(r, beam, plan, issued0, alloc.issued)
      invariant PlannedParents(plan) == PlannedParents(plan0) + if i == 0 then {} else {n.branch}
      invariant Moves(plan) == Moves(plan0) + MovesOf(n, candidates[..i])
    {
      if !IsAvailable(n.dto, candidates[i]) {
        OneUnavailable(r, n, candidates, i);
        raised := true;
        return;
      }
      plan := PlanMove(alloc, r, beam, n, candidates[i], plan, issued0);
      NextMove(n, candidates, i, Moves(plan0));
    }
    NoneUnavailable(r, n, candidates);
    assert candidates[..|candidates|] == candidates;
  }

  /** One candidate: a fresh branch, and the node's own random stream unless the node is the
      root, which starts a new one. */
  method PlanMove(alloc: BranchIdAllocator, r: Rules, ghost beam: seq<BeamNode>, n: BeamNode, action: string,
                  plan0: seq<Planned>, ghost issued0: set<BranchId>)
    returns (plan: seq<Planned>)
    requires alloc.Valid() && n in beam && SoundNode(r, n) && Searchable(n.dto, r.cfg.allowed)
    requires IsAvailable(n.dto, action)
    requires issued0 <= alloc.issued && SoundPlans(r, beam, plan0, issued0, alloc.issued)
    modifies alloc
    ensures alloc.Valid() && old(alloc.issued) <= alloc.issued
    ensures SoundPlans(r, beam, plan, issued0, alloc.issued)
    ensures PlannedParents(plan) == PlannedParents(plan0) + {n.branch}
    ensures Moves(plan) == Moves(plan0) + [(n, action)]
  {
    var branch := alloc.NextBranchId();
    var rngId := n.rngId;
    if n.branch == ROOT_BRANCH_ID {
      rngId := alloc.NextRngId();
    }
    var p := Planned(n, action, branch, rngId);
    PlannedParentsGrow(plan0, p);
    SoundPlansGrow(r, beam, plan0, p, issued0, old(alloc.issued), alloc.issued);
    MovesGrow(plan0, p);
    plan := plan0 + [p];
  }

  predicate AllAvailable(dto: Dto, actions: seq<string>, k: nat)
    requires k <= |actions|
  {
    k == 0 || (AllAvailable(dto, actions, k - 1) && IsAvailable(dto, actions[k - 1]))
  }

  lemma {:induction false} Availables(dto: Dto, actions: seq<string>, k: nat)
    requires k <= |actions| && AllAvailable(dto, actions, k)
    ensures forall i :: 0 <= i < k ==> IsAvailable(dto, actions[i])
  {
    if k > 0 {
      Availables(dto, actions, k - 1);
    }
  }

  lemma NoneUnavailable(r: Rules, n: BeamNode, actions: seq<string>)
    requires |actions| <= r.cfg.topK && AllAvailable(n.dto, actions, |actions|)
    ensures AcceptableAnswer(r, n, actions)
  {
    Availables(n.dto, actions, |actions|);
  }

  lemma OneUnavailable(r: Rules, n: BeamNode, actions: seq<string>, i: nat)
    requires i < |actions| && !IsAvailable(n.dto, actions[i])
    ensures !AcceptableAnswer(r, n, actions)
  {
  }

  lemma NextMove(n: BeamNode, actions: seq<string>, i: nat, before: seq<(BeamNode, string)>)
    requires i < |actions|
    ensures before + MovesOf(n, actions[..i + 1]) == before + MovesOf(n, actions[..i]) + [(n, actions[i])]
  {
  }

  lemma MovesGrow(plan: seq<Planned>, p: Planned)
    ensures Moves(plan + [p]) == Moves(plan) + [(p.node, p.action)]
  {
  }

  lemma SoundPlansGrow(r: Rules, beam: seq<BeamNode>, plan: seq<Planned>, p: Planned,
                       issued0: set<BranchId>, before: set<BranchId>, after: set<BranchId>)
    requires SoundPlans(r, beam, plan, issued0, before) && before <= after && issued0 <= before
    requires SoundPlan(r, p) && p.node in beam && p.branch in after && p.branch !in before
    ensures SoundPlans(r, beam, plan + [p], issued0, after)
  {
    assert PlanIds(plan + [p]) == PlanIds(plan) + [p.branch];
    forall i | 0 <= i < |plan| ensures PlanIds(plan)[i] != p.branch {
      assert plan[i].branch in before;
    }
  }

  /** After `k` nodes of the beam: each has a planned branch or is exhausted, never both. */
  ghost predicate Divided(beam: seq<BeamNode>, k: nat, plan: seq<Planned>, exhausted: seq<BeamNode>)
    requires k <= |beam|
  {
    && PlannedParents(plan) !! Ids(exhausted)
    && PlannedParents(plan) + Ids(exhausted) == Ids(beam[..k])
    && DistinctNodes(exhausted) && forall n :: n in exhausted ==> n in beam
  }

  lemma DividedStep(beam: seq<BeamNode>, k: nat, plan0: seq<Planned>, plan: seq<Planned>,
                    exhausted: seq<BeamNode>, empty: bool)
    requires k < |beam| && DistinctNodes(beam) && Divided(beam, k, plan0, exhausted)
    requires PlannedParents(plan) == PlannedParents(plan0) + if empty then {} else {beam[k].branch}
    ensures Divided(beam, k + 1, plan, if empty then exhausted + [beam[k]] else exhausted)
  {
    assert beam[..k + 1] == beam[..k] + [beam[k]];
    IdsGrow(beam[..k], beam[k]);
    assert beam[k].branch !in Ids(beam[..k]);
    if empty {
      IdsGrow(exhausted, beam[k]);
      forall i | 0 <= i < |exhausted| ensures exhausted[i].branch != beam[k].branch {
        assert exhausted[i].branch in Ids(exhausted);
      }
    }
  }

  /** Proposes for every node of the beam. A node without candidates is exhausted: it becomes a
      leaf, and the others go on. Every accepted candidate is planned once, in the order of the
      beam and of the policy's answer. */
  method ProposeFrontier(alloc: BranchIdAllocator, r: Rules, beam: seq<BeamNode>)
    returns (raised: bool, plan: seq<Planned>, exhausted: seq<BeamNode>, ghost answers: seq<seq<string>>)
    requires alloc.Valid() && DistinctNodes(beam)
    requires forall i :: 0 <= i < |beam| ==> SoundNode(r, beam[i]) && Searchable(beam[i].dto, r.cfg.allowed)
    modifies alloc
    ensures alloc.Valid() && old(alloc.issued) <= alloc.issued && |answers| <= |beam|
    ensures raised <==> !AllAcceptable(r, beam, answers)
    ensures !raised ==> SoundPlans(r, beam, plan, old(alloc.issued), alloc.issued)
    ensures !raised ==> Divided(beam, |beam|, plan, exhausted)
    ensures !raised ==> |answers| == |beam| && Moves(plan) == Answered(beam, answers, |beam|)
    ensures !raised ==> |answers| == |beam| && exhausted == Unanswered(beam, answers, |beam|)
  {
    raised, plan, exhausted, answers := false, [], [], [];
    var k := 0;
    while k < |beam|
      invariant k <= |beam| && |answers| == k && alloc.Valid() && old(alloc.issued) <= alloc.issued
      invariant AllAcceptable(r, beam, answers)
      invariant SoundPlans(r, beam, plan, old(alloc.issued), alloc.issued)
      invariant Divided(beam, k, plan, exhausted)
      invariant Moves(plan) == Answered(beam, answers, k) && exhausted == Unanswered(beam, answers, k)
    {
      ghost var before := plan;
      var empty;
      ghost var answer;
      raised, empty, plan, answer := ProposeNode(alloc, r, beam, beam[k], plan, old(alloc.issued));
      AnswersGrow(beam, answers, answer, k);
      AcceptableGrow(r, beam, answers, answer);
      answers := answers + [answer];
      if raised {
        return;
      }
      DividedStep(beam, k, before, plan, exhausted, empty);
      if empty {
        exhausted := exhausted + [beam[k]];
      }
      k := k + 1;
    }
  }

  ghost predicate AllAcceptable(r: Rules, beam: seq<BeamNode>, answers: seq<seq<string>>)
    requires |answers| <= |beam|
  {
    forall i :: 0 <= i < |answers| ==> AcceptableAnswer(r, beam[i], answers[i])
  }

  lemma AcceptableGrow(r: Rules, beam: seq<BeamNode>, answers: seq<seq<string>>, answer: seq<string>)
    requires |answers| < |beam| && AllAcceptable(r, beam, answers)
    ensures AllAcceptable(r, beam, answers + [answer]) <==> AcceptableAnswer(r, beam[|answers|], answer)
  {
    assert (answers + [answer])[|answers|] == answer;
  }

  lemma AnswersGrow(beam: seq<BeamNode>, answers: seq<seq<string>>, answer: seq<string>, k: nat)
    requires k < |beam| && |answers| == k
    ensures Answered(beam, answers + [answer], k + 1) == Answered(beam, answers, k) + MovesOf(beam[k], answer)
    ensures Unanswered(beam, answers + [answer], k + 1)
            == Unanswered(beam, answers, k) + if answer == [] then [beam[k]] else []
  {
    AnswersKept(beam, answers, answer, k);
  }

  lemma {:induction false} AnswersKept(beam: seq<BeamNode>, answers: seq<seq<string>>, answer: seq<string>, k: nat)
    requires k <= |beam| && k <= |answers|
    ensures Answered(beam, answers + [answer], k) == Answered(beam, answers, k)
    ensures Unanswered(beam, answers + [answer], k) == Unanswered(beam, answers, k)
  {
    if k > 0 {
      AnswersKept(beam, answers, answer, k - 1);
    }
  }

  // ----- selecting nodes ---------------------------------------------------------------

  /** The nodes that satisfy `keep`, in order. */
  function Filtered(nodes: seq<BeamNode>, keep: BeamNode -> bool): (r: seq<BeamNode>)
    ensures forall n :: n in r <==> n in nodes && keep(n)
  {
    if nodes == [] then []
    else
      assert nodes == nodes[..|nodes| - 1] + [nodes[|nodes| - 1]];
      var front := Filtered(nodes[..|nodes| - 1], keep);
      if keep(nodes[|nodes| - 1]) then front + [nodes[|nodes| - 1]] else front
  }

  lemma {:induction false} FilteredDistinct(nodes: seq<BeamNode>, keep: BeamNode -> bool)
    requires DistinctNodes(nodes)
    ensures DistinctNodes(Filtered(nodes, keep))
  {
    if nodes != [] {
      var last := nodes[|nodes| - 1];
      var front := Filtered(nodes[..|nodes| - 1], keep);
      FilteredDistinct(nodes[..|nodes| - 1], keep);
      forall i | 0 <= i < |front| ensures front[i].branch != last.branch {
        assert front[i] in nodes[..|nodes| - 1];
      }
    }
  }

  lemma {:induction false} FilteredNone(nodes: seq<BeamNode>, keep: BeamNode -> bool)
    requires forall n :: n in nodes ==> !keep(n)
    ensures Filtered(nodes, keep) == []
  {
    if nodes != [] {
      FilteredNone(nodes[..|nodes| - 1], keep);
    }
  }

  function Outside(ids: set<BranchId>): BeamNode -> bool {
    (n: BeamNode) => n.branch !in ids
  }

  /** The nodes whose branch is not in `ids`. */
  function Excluding(nodes: seq<BeamNode>, ids: set<BranchId>): (r: seq<BeamNode>)
    ensures forall n :: n in r <==> n in nodes && n.branch !in ids
  {
    Filtered(nodes, Outside(ids))
  }

  /** The nodes that have a final state. */
  function ResolvedOnly(nodes: seq<BeamNode>): (r: seq<BeamNode>)
    ensures forall n :: n in r <==> n in nodes && MacroResolved(n)
  {
    Filtered(nodes, MacroResolved)
  }

  function Pick(nodes: seq<BeamNode>, order: seq<nat>): (r: seq<BeamNode>)
    requires Indices(order, |nodes|)
    ensures |r| == |order| && forall i :: 0 <= i < |r| ==> r[i] == nodes[order[i]]
  {
    seq(|order|, i requires 0 <= i < |order| => nodes[order[i]])
  }

  function Values(nodes: seq<BeamNode>): (r: seq<real>)
    ensures |r| == |nodes| && forall i :: 0 <= i < |r| ==> r[i] == nodes[i].value
  {
    seq(|nodes|, i requires 0 <= i < |nodes| => nodes[i].value)
  }

  lemma PickDistinct(nodes: seq<BeamNode>, order: seq<nat>)
    requires Indices(order, |nodes|) && NoRepeats(order) && DistinctNodes(nodes)
    ensures DistinctNodes(Pick(nodes, order))
    ensures forall n :: n in Pick(nodes, order) ==> n in nodes
  {
    var r := Pick(nodes, order);
    forall i, j | 0 <= i < j < |r| ensures r[i].branch != r[j].branch {
      assert order[i] != order[j];
      assert order[i] < order[j] || order[j] < order[i];
    }
  }

  /** The waiting nodes ranked by value and cut to `budget`: nothing is lost or doubled. */
  lemma RankedCut(waiting: seq<BeamNode>, budget: nat)
    requires DistinctNodes(waiting) && budget <= |waiting|
    ensures var order := Ranked(Values(waiting));
      var kept, pruned := Pick(waiting, order[..budget]), Pick(waiting, order[budget..]);
      && DistinctNodes(kept) && DistinctNodes(pruned)
      && (forall n :: n in waiting <==> n in kept || n in pruned)
      && Ids(kept) !! Ids(pruned) && Ids(kept) + Ids(pruned) == Ids(waiting)
      && forall i, j :: 0 <= i < |kept| && 0 <= j < |pruned| ==> kept[i].value >= pruned[j].value
  {
    var keys := Values(waiting);
    var order := Ranked(keys);
    RankedSorted(keys);
    forall a, b | 0 <= a < b < |order| ensures order[a] != order[b] {
      SortedDistinct(keys, order, a, b);
    }
    CutCovers(waiting, order, budget);
    CutSeparates(waiting, order, budget);
    forall i, j | 0 <= i < budget && 0 <= j < |waiting| - budget
      ensures waiting[order[..budget][i]].value >= waiting[order[budget..][j]].value
    {
      assert order[budget..][j] == order[budget + j] && Before(keys, order[i], order[budget + j]);
    }
  }

  lemma CutCovers(waiting: seq<BeamNode>, order: seq<nat>, budget: nat)
    requires Indices(order, |waiting|) && budget <= |order| && forall i: nat :: i < |waiting| ==> i in order
    ensures var kept, pruned := Pick(waiting, order[..budget]), Pick(waiting, order[budget..]);
      (forall n :: n in waiting <==> n in kept || n in pruned) && Ids(kept) + Ids(pruned) == Ids(waiting)
  {
    var kept, pruned := Pick(waiting, order[..budget]), Pick(waiting, order[budget..]);
    forall n | n in waiting ensures n in kept || n in pruned {
      var i: nat :| i < |waiting| && waiting[i] == n;
      assert i in order;
      var p :| 0 <= p < |order| && order[p] == i;
      if p < budget {
        assert kept[p] == n;
      } else {
        assert pruned[p - budget] == n;
      }
    }
    CutIds(waiting, kept, pruned);
  }

  lemma CutSeparates(waiting: seq<BeamNode>, order: seq<nat>, budget: nat)
    requires DistinctNodes(waiting) && Indices(order, |waiting|) && NoRepeats(order) && budget <= |order|
    ensures var kept, pruned := Pick(waiting, order[..budget]), Pick(waiting, order[budget..]);
      DistinctNodes(kept) && DistinctNodes(pruned) && Ids(kept) !! Ids(pruned)
  {
    var kept, pruned := Pick(waiting, order[..budget]), Pick(waiting, order[budget..]);
    PickDistinct(waiting, order[..budget]);
    PickDistinct(waiting, order[budget..]);
    forall i, j | 0 <= i < |kept| && 0 <= j < |pruned| ensures kept[i].branch != pruned[j].branch {
      var x, y := order[i], order[budget + j];
      assert order[budget..][j] == y && x != y;
      assert x < y || y < x;
    }
  }

  lemma CutIds(nodes: seq<BeamNode>, a: seq<BeamNode>, b: seq<BeamNode>)
    requires forall n :: n in nodes <==> n in a || n in b
    ensures Ids(a) + Ids(b) == Ids(nodes)
  {
    IdsMembers(nodes);
    IdsMembers(a);
    IdsMembers(b);
  }

  lemma IdsMembers(nodes: seq<BeamNode>)
    ensures forall x :: x in Ids(nodes) <==> exists n :: n in nodes && n.branch == x
  {
    forall x | x in Ids(nodes) ensures exists n :: n in nodes && n.branch == x {
      var i :| 0 <= i < |nodes| && nodes[i].branch == x;
      assert nodes[i] in nodes;
    }
  }

  // ----- the active-branch budget ------------------------------------------------------

  function PlansOf(plan: seq<Planned>, branch: BranchId): (r: seq<Planned>)
    ensures forall i :: 0 <= i < |r| ==> r[i] in plan && r[i].node.branch == branch
  {
    if plan == [] then []
    else
      var front := PlansOf(plan[..|plan| - 1], branch);
      if plan[|plan| - 1].node.branch == branch then front + [plan[|plan| - 1]] else front
  }

  function ParentCost(n: BeamNode): nat {
    if n.branch == ROOT_BRANCH_ID then 0 else 1
  }

  /** What counts against the budget: every node but the root. */
  function BranchCost(nodes: seq<BeamNode>): nat {
    if nodes == [] then 0
    else BranchCost(nodes[..|nodes| - 1]) + ParentCost(nodes[|nodes| - 1])
  }

  datatype Fit = Fit(beam: seq<BeamNode>, waiting: seq<BeamNode>, plan: seq<Planned>,
                     finished: seq<BeamNode>, limited: bool)

  /** What fitting promises. Nothing is invented and no resolved node is lost; with a budget,
      parents, children and waiting nodes stay inside it. */
  ghost predicate Fitted(beam: seq<BeamNode>, waiting: seq<BeamNode>, plan: seq<Planned>, f: Fit) {
    && DistinctNodes(f.beam) && DistinctNodes(f.waiting) && DistinctNodes(f.finished) && Distinct(PlanIds(f.plan))
    && (forall n :: n in f.beam ==> n in beam) && (forall n :: n in f.waiting ==> n in waiting)
    && (forall n :: n in f.finished ==> MacroResolved(n) && (n in beam || n in waiting))
    && Ids(f.finished) !! Ids(f.beam) && Ids(f.finished) !! Ids(f.waiting)
    && (forall n :: n in beam && MacroResolved(n) ==> n in f.beam || n in f.finished)
    && (forall n :: n in waiting && MacroResolved(n) ==> n in f.waiting || n in f.finished)
    && (forall p :: p in f.plan ==> p in plan && p.node.branch in Ids(f.beam))
    && (!f.limited ==> |f.plan| == |plan| && Ids(f.beam) == Ids(beam) && Ids(f.waiting) == Ids(waiting))
  }

  lemma {:induction false} PlansOfDistinct(plan: seq<Planned>, branch: BranchId)
    requires Distinct(PlanIds(plan))
    ensures Distinct(PlanIds(PlansOf(plan, branch)))
  {
    if plan != [] {
      var front, last := plan[..|plan| - 1], plan[|plan| - 1];
      assert PlanIds(front) == PlanIds(plan)[..|front|];
      PlansOfDistinct(front, branch);
      var r := PlansOf(front, branch);
      forall i | 0 <= i < |r| ensures r[i].branch != last.branch {
        var j :| 0 <= j < |front| && front[j] == r[i];
        assert PlanIds(plan)[j] == r[i].branch && PlanIds(plan)[|front|] == last.branch;
      }
      assert PlanIds(r + [last]) == PlanIds(r) + [last.branch];
    }
  }

  /** The selection so far: planned branches of selected nodes only, none twice. */
  ghost predicate Chosen(beam: seq<BeamNode>, plan: seq<Planned>, k: nat,
                         selected: seq<BeamNode>, chosen: seq<Planned>, used: nat)
    requires k <= |beam|
  {
    && DistinctNodes(selected) && (forall n :: n in selected ==> n in beam[..k])
    && Distinct(PlanIds(chosen))
    && (forall p :: p in chosen ==> p in plan && p.node.branch in Ids(selected))
    && used == BranchCost(selected) + |chosen|
  }

  lemma ChosenGrows(beam: seq<BeamNode>, plan: seq<Planned>, k: nat, selected: seq<BeamNode>,
                    chosen: seq<Planned>, used: nat, take: nat)
    requires k < |beam| && DistinctNodes(beam) && Distinct(PlanIds(plan))
    requires Chosen(beam, plan, k, selected, chosen, used)
    requires take <= |PlansOf(plan, beam[k].branch)|
    ensures Chosen(beam, plan, k + 1, selected + [beam[k]], chosen + PlansOf(plan, beam[k].branch)[..take],
                   used + ParentCost(beam[k]) + take)
  {
    var node := beam[k];
    var more := PlansOf(plan, node.branch)[..take];
    assert beam[..k + 1] == beam[..k] + [node];
    forall i | 0 <= i < |selected| ensures selected[i].branch != node.branch {
      assert selected[i] in beam[..k];
    }
    IdsGrow(selected, node);
    assert node.branch !in Ids(selected);
    ChosenDistinct(plan, chosen, Ids(selected), node.branch, take);
    assert (selected + [node])[..|selected|] == selected;
  }

  lemma ChosenDistinct(plan: seq<Planned>, chosen: seq<Planned>, parents: set<BranchId>, branch: BranchId, take: nat)
    requires Distinct(PlanIds(plan)) && Distinct(PlanIds(chosen)) && take <= |PlansOf(plan, branch)|
    requires forall p :: p in chosen ==> p in plan && p.node.branch in parents
    requires branch !in parents
    ensures Distinct(PlanIds(chosen + PlansOf(plan, branch)[..take]))
    ensures forall p :: p in PlansOf(plan, branch)[..take] ==> p in plan && p.node.branch == branch
  {
    var own := PlansOf(plan, branch);
    PlansOfDistinct(plan, branch);
    PlanIdsCut(own, take);
    forall i, j | 0 <= i < |chosen| && 0 <= j < take ensures PlanIds(chosen)[i] != PlanIds(own)[..take][j] {
      ChosenOrMore(plan, chosen, parents, branch, i, j);
    }
    PlanIdsAppend(chosen, own[..take]);
    DistinctAppend(PlanIds(chosen), PlanIds(own)[..take]);
  }

  lemma PlanIdsCut(plan: seq<Planned>, take: nat)
    requires take <= |plan|
    ensures PlanIds(plan[..take]) == PlanIds(plan)[..take]
  {
  }

  lemma PlanIdsAppend(a: seq<Planned>, b: seq<Planned>)
    ensures PlanIds(a + b) == PlanIds(a) + PlanIds(b)
  {
  }

  lemma ChosenOrMore(plan: seq<Planned>, chosen: seq<Planned>, parents: set<BranchId>, branch: BranchId, i: nat, j: nat)
    requires Distinct(PlanIds(plan)) && i < |chosen| && j < |PlansOf(plan, branch)|
    requires forall p :: p in chosen ==> p in plan && p.node.branch in parents
    requires branch !in parents
    ensures chosen[i].branch != PlansOf(plan, branch)[j].branch
  {
    assert chosen[i] in chosen;
    PlansDiffer(plan, chosen[i], PlansOf(plan, branch)[j]);
  }

  lemma PlansDiffer(plan: seq<Planned>, p: Planned, q: Planned)
    requires Distinct(PlanIds(plan)) && p in plan && q in plan && p != q
    ensures p.branch != q.branch
  {
    var x :| 0 <= x < |plan| && plan[x] == p;
    var y :| 0 <= y < |plan| && plan[y] == q;
    assert PlanIds(plan)[x] == p.branch && PlanIds(plan)[y] == q.branch;
    assert x < y || y < x;
  }

  lemma DistinctAppend(a: seq<BranchId>, b: seq<BranchId>)
    requires Distinct(a) && Distinct(b)
    requires forall i, j :: 0 <= i < |a| && 0 <= j < |b| ==> a[i] != b[j]
    ensures Distinct(a + b)
  {
  }

  lemma ChosenSkips(beam: seq<BeamNode>, plan: seq<Planned>, k: nat, selected: seq<BeamNode>,
                    chosen: seq<Planned>, used: nat)
    requires k < |beam| && Chosen(beam, plan, k, selected, chosen, used)
    ensures Chosen(beam, plan, k + 1, selected, chosen, used)
  {
    assert beam[..k + 1] == beam[..k] + [beam[k]];
  }

  /** The greedy pass so far; once it has stopped, no later parent is looked at. */
  datatype Greedy = Greedy(selected: seq<BeamNode>, chosen: seq<Planned>, used: nat, limited: bool, stopped: bool)

  /** One parent with as many of its planned branches as the budget has left. */
  function GreedyStep(g: Greedy, n: BeamNode, own: seq<Planned>, capacity: nat): Greedy {
    var room := capacity - g.used - ParentCost(n);
    if g.stopped then g
    else if own == [] then g.(limited := true)
    else if room <= 0 then g.(limited := true, stopped := true)
    else
      var take: nat := if |own| < room then |own| else room;
      Greedy(g.selected + [n], g.chosen + own[..take], g.used + ParentCost(n) + take,
             g.limited || take < |own|, take < |own|)
  }

  function GreedyFit(beam: seq<BeamNode>, plan: seq<Planned>, capacity: nat, k: nat): (g: Greedy)
    requires k <= |beam|
    ensures g.used <= capacity
  {
    if k == 0 then Greedy([], [], 0, false, false)
    else GreedyStep(GreedyFit(beam, plan, capacity, k - 1), beam[k - 1], PlansOf(plan, beam[k - 1].branch), capacity)
  }

  lemma GreedyNext(beam: seq<BeamNode>, plan: seq<Planned>, capacity: nat, k: nat)
    requires k < |beam|
    ensures GreedyFit(beam, plan, capacity, k + 1)
            == GreedyStep(GreedyFit(beam, plan, capacity, k), beam[k], PlansOf(plan, beam[k].branch), capacity)
  {
  }

  /** The selection is made of beam nodes and their own planned branches, none twice, and `used`
      counts it. */
  lemma {:induction false} GreedyIsChosen(beam: seq<BeamNode>, plan: seq<Planned>, capacity: nat, k: nat)
    returns (g: Greedy)
    requires k <= |beam| && DistinctNodes(beam) && Distinct(PlanIds(plan))
    ensures g == GreedyFit(beam, plan, capacity, k)
    ensures Chosen(beam, plan, k, g.selected, g.chosen, g.used)
  {
    g := GreedyStart(beam, plan, capacity);
    for i := 0 to k
      invariant g == GreedyFit(beam, plan, capacity, i)
      invariant Chosen(beam, plan, i, g.selected, g.chosen, g.used)
    {
      GreedyNext(beam, plan, capacity, i);
      g := StepIsChosen(beam, plan, capacity, i, g);
    }
  }

  lemma GreedyStart(beam: seq<BeamNode>, plan: seq<Planned>, capacity: nat) returns (g: Greedy)
    ensures g == GreedyFit(beam, plan, capacity, 0) && Chosen(beam, plan, 0, g.selected, g.chosen, g.used)
  {
    g := Greedy([], [], 0, false, false);
  }

  lemma StepIsChosen(beam: seq<BeamNode>, plan: seq<Planned>, capacity: nat, k: nat, g: Greedy) returns (h: Greedy)
    requires k < |beam| && DistinctNodes(beam) && Distinct(PlanIds(plan))
    requires Chosen(beam, plan, k, g.selected, g.chosen, g.used)
    ensures h == GreedyStep(g, beam[k], PlansOf(plan, beam[k].branch), capacity)
    ensures Chosen(beam, plan, k + 1, h.selected, h.chosen, h.used)
  {
    h := GreedyStep(g, beam[k], PlansOf(plan, beam[k].branch), capacity);
    var own := PlansOf(plan, beam[k].branch);
    var room := capacity - g.used - ParentCost(beam[k]);
    if g.stopped || own == [] || room <= 0 {
      ChosenSkips(beam, plan, k, g.selected, g.chosen, g.used);
    } else {
      var take: nat := if |own| < room then |own| else room;
      ChosenGrows(beam, plan, k, g.selected, g.chosen, g.used, take);
      assert h.selected == g.selected + [beam[k]] && h.chosen == g.chosen + own[..take];
      assert h.used == g.used + ParentCost(beam[k]) + take;
    }
  }

  /** The pass stops early only when the budget is used up, up to the one slot a further parent
      would need for itself. */
  lemma {:induction false} GreedyUsesBudget(beam: seq<BeamNode>, plan: seq<Planned>, capacity: nat, k: nat)
    requires k <= |beam|
    ensures GreedyFit(beam, plan, capacity, k).stopped ==> GreedyFit(beam, plan, capacity, k).used + 1 >= capacity
  {
    if k > 0 {
      GreedyUsesBudget(beam, plan, capacity, k - 1);
    }
  }

  /** Until it stops, the pass has every parent that has planned branches, with all of them. */
  lemma {:induction false} GreedyKeepsOrder(beam: seq<BeamNode>, plan: seq<Planned>, capacity: nat, k: nat, i: nat)
    requires i < k <= |beam| && !GreedyFit(beam, plan, capacity, k).stopped
    requires PlansOf(plan, beam[i].branch) != []
    ensures var g := GreedyFit(beam, plan, capacity, k);
      beam[i] in g.selected && forall p :: p in PlansOf(plan, beam[i].branch) ==> p in g.chosen
  {
    if i < k - 1 {
      GreedyKeepsOrder(beam, plan, capacity, k - 1, i);
    } else {
      var own := PlansOf(plan, beam[i].branch);
      assert own[..|own|] == own;
    }
  }

  /** What the first `k` parents with all their planned branches would take. */
  function Needed(beam: seq<BeamNode>, plan: seq<Planned>, k: nat): nat
    requires k <= |beam|
  {
    if k == 0 then 0
    else Needed(beam, plan, k - 1) + ParentCost(beam[k - 1]) + |PlansOf(plan, beam[k - 1].branch)|
  }

  /** When everything fits, everything is taken. */
  lemma {:induction false} GreedyTakesAll(beam: seq<BeamNode>, plan: seq<Planned>, capacity: nat, k: nat)
    requires k <= |beam| && Needed(beam, plan, k) <= capacity
    requires forall i :: 0 <= i < k ==> PlansOf(plan, beam[i].branch) != []
    ensures var g := GreedyFit(beam, plan, capacity, k);
      && g.selected == beam[..k] && g.used == Needed(beam, plan, k) && !g.limited && !g.stopped
      && |g.chosen| + BranchCost(beam[..k]) == g.used
  {
    if k > 0 {
      GreedyTakesAll(beam, plan, capacity, k - 1);
      StepTakesAll(GreedyFit(beam, plan, capacity, k - 1), beam[k - 1], PlansOf(plan, beam[k - 1].branch), capacity);
      CostOfNext(beam, k);
    } else {
      assert beam[..0] == [];
    }
  }

  lemma StepTakesAll(g: Greedy, n: BeamNode, own: seq<Planned>, capacity: nat)
    requires !g.stopped && own != [] && g.used + ParentCost(n) + |own| <= capacity
    ensures GreedyStep(g, n, own, capacity)
            == Greedy(g.selected + [n], g.chosen + own, g.used + ParentCost(n) + |own|, g.limited, false)
  {
    assert own[..|own|] == own;
  }

  lemma CostOfNext(beam: seq<BeamNode>, k: nat)
    requires 0 < k <= |beam|
    ensures beam[..k] == beam[..k - 1] + [beam[k - 1]]
    ensures BranchCost(beam[..k]) == BranchCost(beam[..k - 1]) + ParentCost(beam[k - 1])
  {
    assert beam[..k][..k - 1] == beam[..k - 1];
  }

  lemma PlansOfLast(plan: seq<Planned>, p: Planned, branch: BranchId)
    ensures PlansOf(plan + [p], branch) == PlansOf(plan, branch) + if p.node.branch == branch then [p] else []
  {
    assert (plan + [p])[..|plan|] == plan;
  }

  lemma {:induction false} NeededWithLast(beam: seq<BeamNode>, plan: seq<Planned>, p: Planned, k: nat)
    requires k <= |beam| && DistinctNodes(beam)
    ensures Needed(beam, plan + [p], k) == Needed(beam, plan, k) + if p.node.branch in Ids(beam[..k]) then 1 else 0
  {
    if k > 0 {
      NeededWithLast(beam, plan, p, k - 1);
      NextLeafIds(beam, k);
      PlansOfLast(plan, p, beam[k - 1].branch);
    } else {
      assert beam[..0] == [];
    }
  }

  lemma NextLeafIds(beam: seq<BeamNode>, k: nat)
    requires 0 < k <= |beam| && DistinctNodes(beam)
    ensures Ids(beam[..k]) == Ids(beam[..k - 1]) + {beam[k - 1].branch} && beam[k - 1].branch !in Ids(beam[..k - 1])
  {
    assert beam[..k] == beam[..k - 1] + [beam[k - 1]];
    IdsGrow(beam[..k - 1], beam[k - 1]);
  }

  lemma {:induction false} NeededWithoutPlan(beam: seq<BeamNode>, k: nat)
    requires k <= |beam|
    ensures Needed(beam, [], k) == BranchCost(beam[..k])
  {
    if k > 0 {
      NeededWithoutPlan(beam, k - 1);
      assert beam[..k][..k - 1] == beam[..k - 1];
    }
  }

  /** A whole frontier takes its parents and its planned branches. */
  lemma {:induction false} NeededIsTotal(beam: seq<BeamNode>, plan: seq<Planned>)
    requires DistinctNodes(beam) && forall i :: 0 <= i < |plan| ==> plan[i].node.branch in Ids(beam)
    ensures Needed(beam, plan, |beam|) == BranchCost(beam) + |plan|
    decreases |plan|
  {
    assert beam[..|beam|] == beam;
    if plan == [] {
      NeededWithoutPlan(beam, |beam|);
    } else {
      var front, last := plan[..|plan| - 1], plan[|plan| - 1];
      assert plan == front + [last];
      NeededIsTotal(beam, front);
      NeededWithLast(beam, front, last, |beam|);
    }
  }

  method TakeParent(g: Greedy, n: BeamNode, own: seq<Planned>, capacity: nat) returns (h: Greedy)
    requires !g.stopped
    ensures h == GreedyStep(g, n, own, capacity)
  {
    h := g;
    var room := capacity - g.used - ParentCost(n);
    if own == [] {
      return h.(limited := true);
    } else if room <= 0 {
      return h.(limited := true, stopped := true);
    }
    var take: nat := if |own| < room then |own| else room;
    h := h.(selected := g.selected + [n], chosen := g.chosen + own[..take], used := g.used + ParentCost(n) + take);
    if take < |own| {
      h := h.(limited := true, stopped := true);
    }
  }

  /** The greedy pass over the beam. */
  method SelectParents(beam: seq<BeamNode>, plan: seq<Planned>, capacity: nat) returns (g: Greedy)
    ensures g == GreedyFit(beam, plan, capacity, |beam|)
  {
    g := Greedy([], [], 0, false, false);
    var k := 0;
    while k < |beam| && !g.stopped
      invariant k <= |beam|
      invariant g == GreedyFit(beam, plan, capacity, k)
    {
      GreedyNext(beam, plan, capacity, k);
      g := TakeParent(g, beam[k], PlansOf(plan, beam[k].branch), capacity);
      k := k + 1;
    }
    StoppedStays(beam, plan, capacity, k);
  }

  lemma {:induction false} StoppedStays(beam: seq<BeamNode>, plan: seq<Planned>, capacity: nat, k: nat)
    requires k <= |beam| && (k == |beam| || GreedyFit(beam, plan, capacity, k).stopped)
    ensures GreedyFit(beam, plan, capacity, |beam|) == GreedyFit(beam, plan, capacity, k)
    decreases |beam| - k
  {
    if k < |beam| {
      StoppedStays(beam, plan, capacity, k + 1);
    }
  }

  lemma {:induction false} BranchCostBound(nodes: seq<BeamNode>)
    ensures BranchCost(nodes) <= |nodes|
  {
    if nodes != [] {
      BranchCostBound(nodes[..|nodes| - 1]);
    }
  }

  ghost predicate EverythingFits(capacity: Option<nat>, beam: seq<BeamNode>, waiting: seq<BeamNode>,
                                 plan: seq<Planned>)
  {
    && capacity.Some? && BranchCost(beam) + |plan| + |waiting| <= capacity.value
    && forall i :: 0 <= i < |beam| ==> PlansOf(plan, beam[i].branch) != []
  }

  lemma NothingToCut(capacity: Option<nat>, beam: seq<BeamNode>, waiting: seq<BeamNode>, plan: seq<Planned>)
    requires DistinctNodes(beam) && EverythingFits(capacity, beam, waiting, plan)
    requires forall i :: 0 <= i < |plan| ==> plan[i].node.branch in Ids(beam)
    ensures var g := GreedyFit(beam, plan, capacity.value, |beam|);
      && g.selected == beam && |g.chosen| == |plan| && !g.limited && |waiting| <= capacity.value - g.used
      && Excluding(beam, Ids(beam)) == []
  {
    NeededIsTotal(beam, plan);
    GreedyTakesAll(beam, plan, capacity.value, |beam|);
    assert beam[..|beam|] == beam;
    IdsMembers(beam);
    FilteredNone(beam, Outside(Ids(beam)));
  }

  /** The frontier cut to `capacity`: the greedy parents and children, then the waiting nodes
      with the highest values that still have room. */
  function CutTo(capacity: nat, beam: seq<BeamNode>, waiting: seq<BeamNode>, plan: seq<Planned>): Fit {
    var g := GreedyFit(beam, plan, capacity, |beam|);
    var order := Ranked(Values(waiting));
    var budget := if capacity - g.used < |waiting| then capacity - g.used else |waiting|;
    var prunedBeam := Excluding(beam, Ids(g.selected));
    var pruned := Pick(waiting, order[budget..]);
    Fit(g.selected, Pick(waiting, order[..budget]), g.chosen, ResolvedOnly(prunedBeam + pruned),
        g.limited || prunedBeam != [] || pruned != [] || |g.chosen| != |plan|)
  }

  /** The cut stays inside the capacity, keeps the waiting nodes of highest value, and hands
      every resolved node it drops on as finished. */
  lemma CutIsFitted(capacity: nat, beam: seq<BeamNode>, waiting: seq<BeamNode>, plan: seq<Planned>)
    requires DistinctNodes(beam) && DistinctNodes(waiting) && Ids(beam) !! Ids(waiting) && Distinct(PlanIds(plan))
    ensures var f := CutTo(capacity, beam, waiting, plan);
      && Fitted(beam, waiting, plan, f)
      && BranchCost(f.beam) + |f.plan| + |f.waiting| <= capacity
      && forall n, m :: n in f.waiting && m in waiting && m !in f.waiting ==> n.value >= m.value
  {
    var g := GreedyIsChosen(beam, plan, capacity, |beam|);
    assert beam[..|beam|] == beam;
    var prunedBeam := Excluding(beam, Ids(g.selected));
    var budget := if capacity - g.used < |waiting| then capacity - g.used else |waiting|;
    var order := Ranked(Values(waiting));
    RankedCut(waiting, budget);
    FitIsFitted(beam, waiting, plan, g.selected, g.chosen, prunedBeam,
                Pick(waiting, order[..budget]), Pick(waiting, order[budget..]),
                CutTo(capacity, beam, waiting, plan));
  }

  /** Nothing is cut when everything fits. */
  lemma NothingIsCut(capacity: Option<nat>, beam: seq<BeamNode>, waiting: seq<BeamNode>, plan: seq<Planned>)
    requires DistinctNodes(beam) && EverythingFits(capacity, beam, waiting, plan)
    requires forall i :: 0 <= i < |plan| ==> plan[i].node.branch in Ids(beam)
    ensures !CutTo(capacity.value, beam, waiting, plan).limited
  {
    NothingToCut(capacity, beam, waiting, plan);
  }

  method Cut(capacity: nat, beam: seq<BeamNode>, waiting: seq<BeamNode>, plan: seq<Planned>) returns (f: Fit)
    ensures f == CutTo(capacity, beam, waiting, plan)
  {
    var g := SelectParents(beam, plan, capacity);
    var prunedBeam := Excluding(beam, Ids(g.selected));
    var budget := capacity - g.used;
    if budget > |waiting| {
      budget := |waiting|;
    }
    var order := Ranked(Values(waiting));
    var kept, pruned := Pick(waiting, order[..budget]), Pick(waiting, order[budget..]);
    var finished := ResolvedOnly(prunedBeam + pruned);
    f := Fit(g.selected, kept, g.chosen, finished,
             g.limited || prunedBeam != [] || pruned != [] || |g.chosen| != |plan|);
  }

  /** Fits the frontier into the shared budget of active branches; without a budget nothing
      changes. */
  method FitToCapacity(capacity: Option<nat>, beam: seq<BeamNode>, waiting: seq<BeamNode>, plan: seq<Planned>)
    returns (f: Fit)
    requires DistinctNodes(beam) && DistinctNodes(waiting) && Ids(beam) !! Ids(waiting) && Distinct(PlanIds(plan))
    requires forall i :: 0 <= i < |plan| ==> plan[i].node.branch in Ids(beam)
    ensures Fitted(beam, waiting, plan, f)
    ensures capacity.None? ==> f == Fit(beam, waiting, plan, [], false)
    ensures capacity.Some? ==> f == CutTo(capacity.value, beam, waiting, plan)
    ensures capacity.Some? ==> BranchCost(f.beam) + |f.plan| + |f.waiting| <= capacity.value
    ensures EverythingFits(capacity, beam, waiting, plan) ==> !f.limited
  {
    if capacity.None? {
      return Fit(beam, waiting, plan, [], false);
    }
    CutIsFitted(capacity.value, beam, waiting, plan);
    if EverythingFits(capacity, beam, waiting, plan) {
      NothingIsCut(capacity, beam, waiting, plan);
    }
    f := Cut(capacity.value, beam, waiting, plan);
  }

  lemma FitIsFitted(beam: seq<BeamNode>, waiting: seq<BeamNode>, plan: seq<Planned>,
                    selected: seq<BeamNode>, chosen: seq<Planned>, prunedBeam: seq<BeamNode>,
                    kept: seq<BeamNode>, pruned: seq<BeamNode>, f: Fit)
    requires DistinctNodes(beam) && DistinctNodes(waiting) && Ids(beam) !! Ids(waiting)
    requires DistinctNodes(selected) && (forall n :: n in selected ==> n in beam) && Distinct(PlanIds(chosen))
    requires forall p :: p in chosen ==> p in plan && p.node.branch in Ids(selected)
    requires prunedBeam == Excluding(beam, Ids(selected))
    requires DistinctNodes(kept) && DistinctNodes(pruned)
    requires (forall n :: n in waiting <==> n in kept || n in pruned)
    requires Ids(kept) !! Ids(pruned) && Ids(kept) + Ids(pruned) == Ids(waiting)
    requires f.beam == selected && f.waiting == kept && f.plan == chosen
    requires f.finished == ResolvedOnly(prunedBeam + pruned)
    requires f.limited || (prunedBeam == [] && pruned == [] && |chosen| == |plan|)
    ensures Fitted(beam, waiting, plan, f)
  {
    IdsMembers(beam);
    IdsMembers(selected);
    IdsMembers(prunedBeam);
    IdsMembers(f.finished);
    IdsMembers(pruned);
    FilteredDistinct(beam, Outside(Ids(selected)));
    assert Ids(prunedBeam) <= Ids(beam) && Ids(pruned) <= Ids(waiting) && Ids(selected) <= Ids(beam);
    JoinDistinct(prunedBeam, pruned);
    FilteredDistinct(prunedBeam + pruned, MacroResolved);
    assert Ids(f.finished) <= Ids(prunedBeam) + Ids(pruned);
    forall n | n in beam && n !in prunedBeam ensures n in selected {
      SameBranchSameNode(beam, selected, n);
    }
  }

  lemma SameBranchSameNode(nodes: seq<BeamNode>, some: seq<BeamNode>, n: BeamNode)
    requires DistinctNodes(nodes) && n in nodes && n.branch in Ids(some)
    requires forall m :: m in some ==> m in nodes
    ensures n in some
  {
    var i :| 0 <= i < |some| && some[i].branch == n.branch;
    assert some[i] in nodes;
    var a: nat :| a < |nodes| && nodes[a] == n;
    var b: nat :| b < |nodes| && nodes[b] == some[i];
    assert a < b || b < a || a == b;
  }

  lemma JoinDistinct(a: seq<BeamNode>, b: seq<BeamNode>)
    requires DistinctNodes(a) && DistinctNodes(b) && Ids(a) !! Ids(b)
    ensures DistinctNodes(a + b)
  {
    forall i, j | 0 <= i < |a| && 0 <= j < |b| ensures a[i].branch != b[j].branch {
      assert a[i].branch in Ids(a) && b[j].branch in Ids(b);
    }
  }

  // ----- pruning -----------------------------------------------------------------------

  /** A selection the engine accepts: not too many indices, all in range, none twice. */
  ghost predicate AcceptableSelection(cfg: Config, selected: seq<int>, n: nat) {
    && |selected| <= cfg.beamWidth
    && (forall i :: 0 <= i < |selected| ==> 0 <= selected[i] < n)
    && (forall i, j :: 0 <= i < j < |selected| ==> selected[i] != selected[j])
  }

  /** Keeps what the pruner selects from a frontier of resolved states, in its order. The pruner
      is arbitrary; too many, repeated or unknown indices raise, and nothing else does. */
  method PruneStable(cfg: Config, frontier: seq<BeamNode>)
    returns (raised: bool, kept: seq<BeamNode>, ghost answer: seq<int>)
    requires DistinctNodes(frontier)
    ensures raised <==> !AcceptableSelection(cfg, answer, |frontier|)
    ensures !raised ==> |kept| == |answer| && forall i :: 0 <= i < |kept| ==> kept[i] == frontier[answer[i]]
    ensures DistinctNodes(kept) && |kept| <= cfg.beamWidth
    ensures forall n :: n in kept ==> n in frontier
  {
    raised, kept := false, [];
    var selected: seq<int> := *;
    answer := selected;
    if |selected| > cfg.beamWidth {
      raised := true;
      return;
    }
    var normalized: seq<nat> := [];
    for i := 0 to |selected|
      invariant |normalized| == i && forall j :: 0 <= j < i ==> normalized[j] == selected[j]
      invariant Indices(normalized, |frontier|) && NoRepeats(normalized)
    {
      if selected[i] < 0 || selected[i] >= |frontier| || selected[i] in normalized {
        raised := true;
        return;
      }
      normalized := normalized + [selected[i]];
    }
    kept := Pick(frontier, normalized);
    PickDistinct(frontier, normalized);
  }

  /** The baseline pruner: the first `k` positions of the ranking by value. */
  function ValueTopK(frontier: seq<BeamNode>, k: nat): seq<nat> {
    Ranked(Values(frontier))[..if k < |frontier| then k else |frontier|]
  }

  /** It passes the engine's index checks, and nothing it drops is worth more than anything it
      keeps. */
  lemma ValueTopKIsAccepted(frontier: seq<BeamNode>, k: nat)
    requires DistinctNodes(frontier)
    ensures var selected := ValueTopK(frontier, k);
      && |selected| <= k && Indices(selected, |frontier|) && NoRepeats(selected)
      && forall i: nat, j: nat :: i in selected && j < |frontier| && j !in selected ==>
           frontier[i].value >= frontier[j].value
  {
    var keys := Values(frontier);
    var order := Ranked(keys);
    var selected := ValueTopK(frontier, k);
    RankedSorted(keys);
    forall a, b | 0 <= a < b < |selected| ensures selected[a] != selected[b] {
      SortedDistinct(keys, order, a, b);
    }
    forall i: nat, j: nat | i in selected && j < |frontier| && j !in selected
      ensures frontier[i].value >= frontier[j].value
    {
      var a :| 0 <= a < |selected| && selected[a] == i;
      var b := WhereRanked(keys, j);
      assert forall x :: 0 <= x < |selected| ==> selected[x] == order[x];
      assert Before(keys, order[a], order[b]);
    }
  }
}
