/** What one ply adds to the search: the survivors and leaves of a depth batch, on branches of
    their own, hung below the beam nodes they were planned from. The frontier they make up is
    one level further on, and nobody waits behind an empty beam. */
module BeamPly {
  import opened Wrappers
  import opened WireContract
  import opened CombatDecision
  import opened BeamModel
  import opened BeamFrontier
  import opened BeamPlan
  import opened BeamEmulate
  import opened BeamState

  lemma LastId(meta: seq<Planned>)
    requires meta != [] && Distinct(PlanIds(meta))
    ensures var front, last := meta[..|meta| - 1], meta[|meta| - 1];
      && Distinct(PlanIds(front)) && last.branch !in SetOf(PlanIds(front))
      && SetOf(PlanIds(meta)) == SetOf(PlanIds(front)) + {last.branch}
  {
    var front, last := meta[..|meta| - 1], meta[|meta| - 1];
    assert PlanIds(meta) == PlanIds(front) + [last.branch];
    SetOfAppend(PlanIds(front), [last.branch]);
    assert last.branch == [last.branch][0];
    assert forall i :: 0 <= i < |front| ==> PlanIds(front)[i] == PlanIds(meta)[i] != PlanIds(meta)[|front|];
  }

  lemma {:induction false} FatesDistinct(r: Rules, meta: seq<Planned>, results: map<BranchId, BranchResult>)
    requires Distinct(PlanIds(meta))
    ensures var next, leaves := Expandables(r, meta, results), Leaves(r, meta, results);
      && DistinctNodes(next) && DistinctNodes(leaves) && Ids(next) !! Ids(leaves)
      && Ids(next) + Ids(leaves) <= SetOf(PlanIds(meta))
  {
    if meta != [] {
      var front, last := meta[..|meta| - 1], meta[|meta| - 1];
      LastId(meta);
      FatesDistinct(r, front, results);
      var next, leaves := Expandables(r, front, results), Leaves(r, front, results);
      match JudgeIn(r, last, results) {
        case Expandable(n) => AppendedNode(next, n);
        case Leaf(n, _) => AppendedNode(leaves, n);
        case _ =>
      }
    }
  }

  lemma AppendedNode(nodes: seq<BeamNode>, n: BeamNode)
    requires DistinctNodes(nodes) && n.branch !in Ids(nodes)
    ensures DistinctNodes(nodes + [n]) && Ids(nodes + [n]) == Ids(nodes) + {n.branch}
  {
    IdsGrow(nodes, n);
    forall i | 0 <= i < |nodes| ensures nodes[i].branch != n.branch {
      assert nodes[i].branch in Ids(nodes);
    }
  }

  /** An item of a depth batch is still one of the plan, on a branch created for it. */
  lemma AttemptIsSound(r: Rules, s: SearchState, plan: seq<Planned>, max: nat, meta: seq<Planned>, positions: seq<nat>,
                       results: map<BranchId, BranchResult>, created: seq<BranchId>, tries: multiset<nat>, i: nat)
    requires DepthBatch(plan, max, meta, positions, results, created, tries) && i < |meta|
    requires forall j :: 0 <= j < |plan| ==> SoundPlan(r, plan[j]) && plan[j].node in s.beam
    requires ROOT_BRANCH_ID !in SetOf(created)
    ensures SoundPlan(r, meta[i]) && meta[i].node in s.beam
  {
    assert SameItem(meta[i], plan[positions[i]]);
    var k :| 0 <= k < |created| && created[k] == meta[i].branch;
    assert meta[i].branch in SetOf(created);
  }

  lemma MetaIdsCreated(plan: seq<Planned>, max: nat, meta: seq<Planned>, positions: seq<nat>,
                       results: map<BranchId, BranchResult>, created: seq<BranchId>, tries: multiset<nat>)
    requires DepthBatch(plan, max, meta, positions, results, created, tries)
    ensures SetOf(PlanIds(meta)) <= SetOf(created)
  {
    forall x | x in SetOf(PlanIds(meta)) ensures x in SetOf(created) {
      var i :| 0 <= i < |meta| && PlanIds(meta)[i] == x;
      var k :| 0 <= k < |created| && created[k] == meta[i].branch;
    }
  }

  /** The ids a search already uses: those of its nodes are created ones or the root's. */
  lemma NodesAreCreated(r: Rules, s: SearchState)
    requires NodesInv(r, s)
    ensures Ids(s.beam) + Ids(s.waiting) + Ids(s.finished) <= SetOf(s.all) + {ROOT_BRANCH_ID}
  {
    IdsMembers(s.beam);
    IdsMembers(s.waiting);
    IdsMembers(s.finished);
    forall n | n in s.finished ensures n.branch == ROOT_BRANCH_ID || n.branch in SetOf(s.all) {
      assert FinishedNode(r, s, n);
    }
  }

  /** The attempts of a ply are sound, and from this beam. */
  ghost predicate SoundAttempts(r: Rules, s: SearchState, level: Level, meta: seq<Planned>, ids: set<BranchId>) {
    && Distinct(PlanIds(meta)) && SetOf(PlanIds(meta)) <= ids
    && forall i :: 0 <= i < |meta| ==>
         SoundPlan(r, meta[i]) && meta[i].node in s.beam && AtLevel(meta[i].node, level)
  }

  lemma SurvivorOrigin(r: Rules, meta: seq<Planned>, results: map<BranchId, BranchResult>, n: BeamNode)
    returns (i: nat)
    requires n in Expandables(r, meta, results)
    ensures i < |meta| && JudgeIn(r, meta[i], results) == Expandable(n)
  {
    ExpandableOrigin(r, meta, results);
    i :| i < |meta| && JudgeIn(r, meta[i], results) == Expandable(n);
  }

  lemma FinishedOrigin(r: Rules, meta: seq<Planned>, results: map<BranchId, BranchResult>, n: BeamNode)
    returns (i: nat)
    requires n in Leaves(r, meta, results)
    ensures i < |meta| && IsLeaf(JudgeIn(r, meta[i], results), n)
  {
    LeafOrigin(r, meta, results);
    i :| i < |meta| && IsLeaf(JudgeIn(r, meta[i], results), n);
  }

  ghost predicate Survivor(r: Rules, level: Level, n: BeamNode) {
    && SoundNode(r, n) && InScopeIfWholeRun(r, n) && n.branch != ROOT_BRANCH_ID
    && if IsContinuation(n.dto) then AtLevel(n, NextChoosing(level)) && OpenLevel(r.cfg, NextChoosing(level))
       else AtLevel(n, NextStable(level)) && OpenLevel(r.cfg, NextStable(level))
  }

  lemma SurvivorIsSound(r: Rules, s: SearchState, level: Level, meta: seq<Planned>,
                        results: map<BranchId, BranchResult>, ids: set<BranchId>, n: BeamNode)
    requires ValidRules(r) && OpenLevel(r.cfg, level) && SoundAttempts(r, s, level, meta, ids)
    requires ReadableUnmixed(results) && n in Expandables(r, meta, results)
    ensures Survivor(r, level, n)
  {
    var i := SurvivorOrigin(r, meta, results, n);
    ExpandableAdvances(r, meta[i], results, level);
  }

  lemma FinishedIsSound(r: Rules, s: SearchState, level: Level, meta: seq<Planned>,
                        results: map<BranchId, BranchResult>, ids: set<BranchId>, n: BeamNode)
    requires SoundAttempts(r, s, level, meta, ids) && ReadableUnmixed(results) && n in Leaves(r, meta, results)
    ensures SoundChild(r, n) && n.rngId > 0 && n.branch != ROOT_BRANCH_ID
  {
    var i := FinishedOrigin(r, meta, results, n);
    LeafIsSound(r, meta[i], results);
  }

  /** They run on branches created in this ply. */
  ghost predicate NewAttempts(r: Rules, s: SearchState, level: Level, tree: map<BranchId, BeamNode>,
                              meta: seq<Planned>, ids: set<BranchId>)
  {
    && SoundAttempts(r, s, level, meta, ids) && ids !! tree.Keys && ids <= Live(s)
    && ids !! Ids(s.beam) + Ids(s.waiting) + Ids(s.finished)
  }

  ghost predicate Attempted(r: Rules, s: SearchState, level: Level, tree: map<BranchId, BeamNode>,
                            meta: seq<Planned>, results: map<BranchId, BranchResult>)
  {
    ReadableUnmixed(results) && exists ids :: NewAttempts(r, s, level, tree, meta, ids)
  }

  /** The survivors and leaves of a ply are offspring of its beam. */
  lemma PlyOffspring(r: Rules, s: SearchState, level: Level, meta: seq<Planned>,
                     results: map<BranchId, BranchResult>, ids: set<BranchId>)
    requires ValidRules(r) && OpenLevel(r.cfg, level) && SoundAttempts(r, s, level, meta, ids)
    requires ReadableUnmixed(results)
    requires ids <= Live(s) && ids !! Ids(s.beam) + Ids(s.waiting) + Ids(s.finished)
    ensures Offspring(r, s, level, Expandables(r, meta, results), Leaves(r, meta, results), ids)
  {
    FatesDistinct(r, meta, results);
    forall n | n in Expandables(r, meta, results) ensures Survivor(r, level, n) {
      SurvivorIsSound(r, s, level, meta, results, ids, n);
    }
    forall n | n in Leaves(r, meta, results)
      ensures SoundChild(r, n) && n.rngId > 0 && n.branch != ROOT_BRANCH_ID
    {
      FinishedIsSound(r, s, level, meta, results, ids, n);
    }
  }

  // ----- the tree --------------------------------------------------------------------------

  function Graft(tree: map<BranchId, BeamNode>, nodes: seq<BeamNode>): map<BranchId, BeamNode> {
    if nodes == [] then tree
    else Graft(tree, nodes[..|nodes| - 1])[nodes[|nodes| - 1].branch := nodes[|nodes| - 1]]
  }

  lemma {:induction false} GraftLookup(tree: map<BranchId, BeamNode>, nodes: seq<BeamNode>)
    requires DistinctNodes(nodes)
    ensures Graft(tree, nodes).Keys == tree.Keys + Ids(nodes)
    ensures forall b :: b in tree && b !in Ids(nodes) ==> Graft(tree, nodes)[b] == tree[b]
    ensures forall n :: n in nodes ==> Graft(tree, nodes)[n.branch] == n
  {
    if nodes != [] {
      var front, last := nodes[..|nodes| - 1], nodes[|nodes| - 1];
      assert nodes == front + [last];
      GraftLookup(tree, front);
      IdsGrow(front, last);
    }
  }

  /** A node a ply adds continues the line of a node of the beam. */
  ghost predicate Continues(s: SearchState, n: BeamNode) {
    n.branch != ROOT_BRANCH_ID && n.action.Some?
    && exists p :: p in s.beam && n.parent == p.branch && n.depth == p.depth + 1
                   && (p.branch != ROOT_BRANCH_ID ==> n.rngId == p.rngId)
                   && n.rootAction == if p.rootAction.Some? then p.rootAction else n.action
  }

  lemma ContinuesItem(r: Rules, s: SearchState, p: Planned, result: BranchResult, n: BeamNode)
    requires SoundPlan(r, p) && p.node in s.beam
    requires Judge(r, p, result) == Expandable(n) || IsLeaf(Judge(r, p, result), n)
    ensures Continues(s, n)
  {
    assert n.parent == p.node.branch;
  }

  lemma NodesContinue(r: Rules, s: SearchState, level: Level, meta: seq<Planned>,
                      results: map<BranchId, BranchResult>, ids: set<BranchId>, n: BeamNode)
    requires SoundAttempts(r, s, level, meta, ids)
    requires n in Expandables(r, meta, results) || n in Leaves(r, meta, results)
    ensures Continues(s, n)
  {
    var i: nat;
    if n in Expandables(r, meta, results) {
      i := SurvivorOrigin(r, meta, results, n);
    } else {
      i := FinishedOrigin(r, meta, results, n);
    }
    ContinuesItem(r, s, meta[i], if meta[i].branch in results then results[meta[i].branch] else Unresolved, n);
  }

  lemma ContinuedNode(r: Rules, s: SearchState, tree: map<BranchId, BeamNode>, tree': map<BranchId, BeamNode>,
                      n: BeamNode)
    requires Continues(s, n) && TreeInv(s, tree) && forall m :: m in s.beam ==> SoundNode(r, m)
    requires n.branch in tree' && tree'[n.branch] == n
    requires forall b :: b in tree ==> b in tree' && tree'[b] == tree[b]
    ensures TreeNode(tree', n.branch)
  {
    var p :| p in s.beam && n.parent == p.branch && n.depth == p.depth + 1
             && (p.branch != ROOT_BRANCH_ID ==> n.rngId == p.rngId)
             && n.rootAction == if p.rootAction.Some? then p.rootAction else n.action;
    assert SoundNode(r, p) && p in s.beam + s.waiting;
  }

  /** Hanging the offspring of a ply into the tree keeps it a tree. */
  lemma PlyGrafted(r: Rules, s: SearchState, level: Level, tree: map<BranchId, BeamNode>, meta: seq<Planned>,
                   results: map<BranchId, BranchResult>, ids: set<BranchId>)
    requires SoundAttempts(r, s, level, meta, ids) && TreeInv(s, tree) && ids !! tree.Keys
    requires forall m :: m in s.beam ==> SoundNode(r, m)
    ensures var next, leaves := Expandables(r, meta, results), Leaves(r, meta, results);
      Grafted(s, tree, Graft(tree, next + leaves), next, leaves)
  {
    var next, leaves := Expandables(r, meta, results), Leaves(r, meta, results);
    var nodes := next + leaves;
    FatesDistinct(r, meta, results);
    JoinDistinct(next, leaves);
    IdsAppend(next, leaves);
    GraftLookup(tree, nodes);
    var tree' := Graft(tree, nodes);
    forall b | b in tree' ensures TreeNode(tree', b) {
      if b in tree {
        assert TreeNode(tree, b);
      } else {
        IdsMembers(nodes);
        var n :| n in nodes && n.branch == b;
        NodesContinue(r, s, level, meta, results, ids, n);
        ContinuedNode(r, s, tree, tree', n);
      }
    }
  }

  // ----- what the server answered --------------------------------------------------------

  /** The node is what the server answered when it was asked to play the node's action below its
      parent, with its random stream. */
  ghost predicate FromAnswer(n: BeamNode, answers: map<BranchId, Emulated>) {
    && n.branch in answers
    && answers[n.branch].item.parent == n.parent && answers[n.branch].item.branch == n.branch
    && answers[n.branch].item.rngId == n.rngId && n.action == Some(answers[n.branch].item.action)
    && answers[n.branch].result.Resolved? && answers[n.branch].result.dto == Some(n.dto)
    && answers[n.branch].result.decisionPoint == n.decisionPoint
  }

  ghost predicate TreeAnswered(tree: map<BranchId, BeamNode>, answers: map<BranchId, Emulated>) {
    forall b :: b in tree ==> tree[b].branch == b && FromAnswer(tree[b], answers)
  }

  lemma AnsweredLater(tree: map<BranchId, BeamNode>, before: map<BranchId, Emulated>, answers: map<BranchId, Emulated>)
    requires TreeAnswered(tree, before) && Extends(before, answers)
    ensures TreeAnswered(tree, answers)
  {
  }

  /** The results a ply is judged by are the server's answers. */
  ghost predicate MetaAnswered(meta: seq<Planned>, results: map<BranchId, BranchResult>,
                               answers: map<BranchId, Emulated>)
  {
    forall i :: 0 <= i < |meta| ==> meta[i].branch in results && OwnAnswer(meta[i], results[meta[i].branch], answers)
  }

  lemma JudgedAnswer(r: Rules, p: Planned, results: map<BranchId, BranchResult>, n: BeamNode,
                     answers: map<BranchId, Emulated>)
    requires p.branch in results && OwnAnswer(p, results[p.branch], answers)
    requires JudgeIn(r, p, results) == Expandable(n) || IsLeaf(JudgeIn(r, p, results), n)
    ensures FromAnswer(n, answers)
  {
  }

  lemma AttemptsDistinct(r: Rules, s: SearchState, level: Level, tree: map<BranchId, BeamNode>,
                         meta: seq<Planned>, results: map<BranchId, BranchResult>)
    requires Attempted(r, s, level, tree, meta, results)
    ensures Distinct(PlanIds(meta))
  {
  }

  /** So every node a ply adds is the server's answer to its own move. */
  lemma GraftAnswered(r: Rules, meta: seq<Planned>, results: map<BranchId, BranchResult>,
                      tree: map<BranchId, BeamNode>, answers: map<BranchId, Emulated>)
    requires TreeAnswered(tree, answers) && MetaAnswered(meta, results, answers) && Distinct(PlanIds(meta))
    ensures TreeAnswered(Graft(tree, Expandables(r, meta, results) + Leaves(r, meta, results)), answers)
  {
    var next, leaves := Expandables(r, meta, results), Leaves(r, meta, results);
    FatesDistinct(r, meta, results);
    JoinDistinct(next, leaves);
    GraftLookup(tree, next + leaves);
    IdsMembers(next + leaves);
    forall n | n in next + leaves ensures FromAnswer(n, answers) {
      var i: nat;
      if n in next {
        i := SurvivorOrigin(r, meta, results, n);
      } else {
        i := FinishedOrigin(r, meta, results, n);
      }
      JudgedAnswer(r, meta[i], results, n, answers);
    }
  }

  ghost predicate TreeWithin(tree: map<BranchId, BeamNode>, depth: nat) {
    forall b :: b in tree ==> tree[b].depth <= depth
  }

  /** A ply makes the tree at most one node deeper. */
  ghost predicate OneDeeper(tree: map<BranchId, BeamNode>, tree': map<BranchId, BeamNode>) {
    forall depth: nat :: TreeWithin(tree, depth) ==> TreeWithin(tree', depth + 1)
  }

  lemma ContinuedDepth(r: Rules, s: SearchState, tree: map<BranchId, BeamNode>, n: BeamNode, depth: nat)
    requires Continues(s, n) && TreeInv(s, tree) && TreeWithin(tree, depth)
    requires forall m :: m in s.beam ==> SoundNode(r, m)
    ensures n.depth <= depth + 1
  {
    var p :| p in s.beam && n.parent == p.branch && n.depth == p.depth + 1;
    assert SoundNode(r, p) && p in s.beam + s.waiting;
  }

  lemma PlyOneDeeper(r: Rules, s: SearchState, level: Level, tree: map<BranchId, BeamNode>, meta: seq<Planned>,
                     results: map<BranchId, BranchResult>, ids: set<BranchId>, tree': map<BranchId, BeamNode>)
    requires SoundAttempts(r, s, level, meta, ids) && TreeInv(s, tree)
    requires Grafted(s, tree, tree', Expandables(r, meta, results), Leaves(r, meta, results))
    requires forall m :: m in s.beam ==> SoundNode(r, m)
    ensures OneDeeper(tree, tree')
  {
    var next, leaves := Expandables(r, meta, results), Leaves(r, meta, results);
    IdsAppend(next, leaves);
    IdsMembers(next + leaves);
    forall depth: nat, b | TreeWithin(tree, depth) && b in tree' ensures tree'[b].depth <= depth + 1 {
      if b !in tree {
        var n: BeamNode :| n in next + leaves && n.branch == b;
        NodesContinue(r, s, level, meta, results, ids, n);
        ContinuedDepth(r, s, tree, n, depth);
      }
    }
  }

  // ----- the next frontier -----------------------------------------------------------------

  function Choice(choice: bool): BeamNode -> bool {
    (n: BeamNode) => IsContinuation(n.dto) == choice
  }

  /** The nodes that are choice states, or those that are not. */
  function WithChoices(nodes: seq<BeamNode>, choice: bool): (r: seq<BeamNode>)
    ensures forall n :: n in r <==> n in nodes && IsContinuation(n.dto) == choice
  {
    Filtered(nodes, Choice(choice))
  }

  lemma DistinctPart(nodes: seq<BeamNode>, a: seq<BeamNode>, b: seq<BeamNode>)
    requires DistinctNodes(nodes)
    requires (forall n :: n in a ==> n in nodes) && (forall n :: n in b ==> n in nodes)
    requires forall n :: n in a ==> n !in b
    ensures Ids(a) !! Ids(b)
  {
    forall i, j | 0 <= i < |a| && 0 <= j < |b| ensures a[i].branch != b[j].branch {
      assert a[i] in nodes && b[j] in nodes && a[i] in a && b[j] in b;
      var x: nat :| x < |nodes| && nodes[x] == a[i];
      var y: nat :| y < |nodes| && nodes[y] == b[j];
      assert x < y || y < x || x == y;
    }
  }

  /** Choices open: the first choice states are the beam, the resolved survivors join those
      that wait. */
  lemma OpenChoicesDrawn(s: SearchState, next: seq<BeamNode>, width: nat)
    requires DistinctNodes(next) && DistinctNodes(s.waiting) && Ids(next) !! Ids(s.waiting)
    ensures var choices := WithChoices(next, true);
      DrawnFrom(s, next, choices[..if width < |choices| then width else |choices|],
                s.waiting + WithChoices(next, false))
  {
    var choices, stable := WithChoices(next, true), WithChoices(next, false);
    var beam := choices[..if width < |choices| then width else |choices|];
    FilteredDistinct(next, Choice(true));
    FilteredDistinct(next, Choice(false));
    IdsSubset(stable, next);
    IdsSubset(beam, next);
    DistinctPart(next, beam, stable);
    JoinDistinct(s.waiting, stable);
    IdsAppend(s.waiting, stable);
  }

  /** No choices: whatever the pruner keeps of the survivors and the waiting nodes. */
  lemma PrunedDrawn(s: SearchState, next: seq<BeamNode>, kept: seq<BeamNode>)
    requires DistinctNodes(kept) && forall n :: n in kept ==> n in next + s.waiting
    ensures DrawnFrom(s, next, kept, [])
  {
  }

  // ----- planning and sending a ply --------------------------------------------------------

  lemma {:induction false} FilteredAll(nodes: seq<BeamNode>, keep: BeamNode -> bool)
    requires forall n :: n in nodes ==> keep(n)
    ensures Filtered(nodes, keep) == nodes
  {
    if nodes != [] {
      FilteredAll(nodes[..|nodes| - 1], keep);
    }
  }

  function InRules(r: Rules): BeamNode -> bool {
    (n: BeamNode) => InScope(r.wholeRun, n.dto, r.cfg.allowed)
  }

  function ResolvedOutside(r: Rules): BeamNode -> bool {
    (n: BeamNode) => !InScope(r.wholeRun, n.dto, r.cfg.allowed) && MacroResolved(n)
  }

  /** The beam nodes in scope, and the resolved ones that are not. */
  method SplitScope(r: Rules, nodes: seq<BeamNode>) returns (searchable: seq<BeamNode>, moved: seq<BeamNode>)
    ensures searchable == Filtered(nodes, InRules(r)) && moved == Filtered(nodes, ResolvedOutside(r))
    ensures forall n :: n in searchable <==>
      n in nodes && (r.wholeRun ==> n.dto.combatBoundary) && Searchable(n.dto, r.cfg.allowed)
    ensures forall n :: n in moved <==> n in nodes && n !in searchable && MacroResolved(n)
  {
    searchable, moved := [], [];
    for k := 0 to |nodes|
      invariant searchable == Filtered(nodes[..k], InRules(r)) && moved == Filtered(nodes[..k], ResolvedOutside(r))
    {
      assert nodes[..k + 1][..k] == nodes[..k];
      if InScope(r.wholeRun, nodes[k].dto, r.cfg.allowed) {
        searchable := searchable + [nodes[k]];
      } else if MacroResolved(nodes[k]) {
        moved := moved + [nodes[k]];
      }
    }
    assert nodes[..|nodes|] == nodes;
  }

  lemma FilteredTaken(r: Rules, s: SearchState, searchable: seq<BeamNode>, moved: seq<BeamNode>)
    requires DistinctNodes(s.beam) && DistinctNodes(s.waiting) && Ids(s.beam) !! Ids(s.waiting)
    requires searchable == Filtered(s.beam, InRules(r)) && moved == Filtered(s.beam, ResolvedOutside(r))
    ensures TakenFrom(s, searchable, s.waiting, moved)
  {
    FilteredDistinct(s.beam, InRules(r));
    FilteredDistinct(s.beam, ResolvedOutside(r));
    IdsSubset(searchable, s.beam);
    IdsSubset(moved, s.beam);
    DistinctPart(s.beam, searchable, moved);
  }

  lemma ExhaustedTaken(s: SearchState, exhausted: seq<BeamNode>)
    requires DistinctNodes(s.beam) && DistinctNodes(s.waiting) && Ids(s.beam) !! Ids(s.waiting)
    requires DistinctNodes(exhausted) && forall n :: n in exhausted ==> n in s.beam
    ensures TakenFrom(s, Excluding(s.beam, Ids(exhausted)), s.waiting, ResolvedOnly(exhausted))
  {
    var left, moved := Excluding(s.beam, Ids(exhausted)), ResolvedOnly(exhausted);
    FilteredDistinct(s.beam, Outside(Ids(exhausted)));
    FilteredDistinct(exhausted, MacroResolved);
    IdsSubset(left, s.beam);
    IdsSubset(moved, exhausted);
    IdsSubset(exhausted, s.beam);
    IdsMembers(left);
  }

  /** A beam node either has a planned branch and stays, or is exhausted. */
  lemma LeftOrDropped(beam: seq<BeamNode>, plan: seq<Planned>, exhausted: seq<BeamNode>)
    requires DistinctNodes(beam) && Divided(beam, |beam|, plan, exhausted)
    ensures forall n :: n in beam ==> n in Excluding(beam, Ids(exhausted)) || n in exhausted
  {
    forall n | n in beam && n.branch in Ids(exhausted) ensures n in exhausted {
      SameBranchSameNode(beam, exhausted, n);
    }
  }

  lemma PlanIsUnused(r: Rules, beam: seq<BeamNode>, plan: seq<Planned>, issued0: set<BranchId>, issued: set<BranchId>,
                     used: set<BranchId>)
    requires SoundPlans(r, beam, plan, issued0, issued) && used <= issued0
    ensures used !! SetOf(PlanIds(plan)) && SetOf(PlanIds(plan)) <= issued
  {
    forall b | b in SetOf(PlanIds(plan)) ensures b !in issued0 && b in issued {
      var i :| 0 <= i < |plan| && PlanIds(plan)[i] == b;
    }
  }

  /** The frontier after proposing: the planned parents stay, the exhausted resolved nodes are
      leaves. */
  lemma ProposedKeepsInv(r: Rules, s: SearchState, level: Level, tree: map<BranchId, BeamNode>, issued: set<BranchId>,
                         plan: seq<Planned>, exhausted: seq<BeamNode>, issued0: set<BranchId>)
    requires SearchInv(r, s, level, tree, issued)
    requires SoundPlans(r, s.beam, plan, issued0, issued) && Divided(s.beam, |s.beam|, plan, exhausted)
    ensures var left := Excluding(s.beam, Ids(exhausted));
      && SearchInv(r, Moved(s, left, s.waiting, ResolvedOnly(exhausted)), level, tree, issued)
      && SoundPlans(r, left, plan, issued0, issued) && Ids(left) == PlannedParents(plan)
      && Ids(left) == Ids(s.beam) - Ids(exhausted)
      && (forall n :: n in s.beam && MacroResolved(n) ==> n in left || n in ResolvedOnly(exhausted))
  {
    ExhaustedLeave(r, s.beam, plan, exhausted, issued0, issued);
    ExhaustedTaken(s, exhausted);
    MovedKeepsInv(r, s, level, tree, issued, Excluding(s.beam, Ids(exhausted)), s.waiting, ResolvedOnly(exhausted));
    LeftOrDropped(s.beam, plan, exhausted);
  }

  /** Taking the exhausted nodes out leaves exactly the planned parents. */
  lemma ExhaustedLeave(r: Rules, beam: seq<BeamNode>, plan: seq<Planned>, exhausted: seq<BeamNode>,
                       issued0: set<BranchId>, issued: set<BranchId>)
    requires SoundPlans(r, beam, plan, issued0, issued) && Divided(beam, |beam|, plan, exhausted)
    ensures var left := Excluding(beam, Ids(exhausted));
      SoundPlans(r, left, plan, issued0, issued) && Ids(left) == PlannedParents(plan)
      && Ids(left) == Ids(beam) - Ids(exhausted)
  {
    var left := Excluding(beam, Ids(exhausted));
    assert beam[..|beam|] == beam;
    IdsMembers(beam);
    IdsMembers(left);
    forall i | 0 <= i < |plan| ensures plan[i].node in left {
      assert plan[i].node.branch in PlannedParents(plan);
    }
  }

  /** The plan that fits is still sound for the parents that were kept. */
  lemma FittedPlan(r: Rules, beam: seq<BeamNode>, waiting: seq<BeamNode>, plan: seq<Planned>, f: Fit,
                   issued0: set<BranchId>, issued: set<BranchId>)
    requires DistinctNodes(beam) && SoundPlans(r, beam, plan, issued0, issued) && Fitted(beam, waiting, plan, f)
    ensures SoundPlans(r, f.beam, f.plan, issued0, issued)
  {
    forall i | 0 <= i < |f.plan|
      ensures SoundPlan(r, f.plan[i]) && f.plan[i].node in f.beam
        && f.plan[i].branch in issued && f.plan[i].branch !in issued0
    {
      var p := f.plan[i];
      assert p in plan;
      SameBranchSameNode(beam, f.beam, p.node);
    }
  }

  /** Cutting the frontier to its budget keeps the search in order. */
  lemma FittedKeepsInv(r: Rules, s: SearchState, level: Level, tree: map<BranchId, BeamNode>, issued: set<BranchId>,
                       plan: seq<Planned>, issued0: set<BranchId>, f: Fit)
    requires SearchInv(r, s, level, tree, issued) && SoundPlans(r, s.beam, plan, issued0, issued)
    requires Fitted(s.beam, s.waiting, plan, f) && SetOf(s.all) <= issued0
    ensures SearchInv(r, Moved(s, f.beam, f.waiting, f.finished), level, tree, issued)
    ensures SoundPlans(r, f.beam, f.plan, issued0, issued)
    ensures SetOf(PlanIds(f.plan)) <= issued && SetOf(s.all) !! SetOf(PlanIds(f.plan))
    ensures !f.limited ==> Ids(f.beam) == Ids(s.beam) && Ids(f.waiting) == Ids(s.waiting)
  {
    FittedPlan(r, s.beam, s.waiting, plan, f, issued0, issued);
    FittedIsTaken(s, plan, f);
    MovedKeepsInv(r, s, level, tree, issued, f.beam, f.waiting, f.finished);
    PlanIsUnused(r, f.beam, f.plan, issued0, issued, SetOf(s.all));
  }

  lemma PlanIdsUnused(plan: seq<Planned>, used: set<BranchId>)
    requires used !! SetOf(PlanIds(plan))
    ensures forall i :: 0 <= i < |plan| ==> plan[i].branch !in used
  {
    forall i | 0 <= i < |plan| ensures plan[i].branch !in used {
      assert PlanIds(plan)[i] in SetOf(PlanIds(plan));
    }
  }

  lemma SoundPlansLater(r: Rules, beam: seq<BeamNode>, plan: seq<Planned>, issued0: set<BranchId>,
                        issued: set<BranchId>, issued': set<BranchId>)
    requires SoundPlans(r, beam, plan, issued0, issued) && issued <= issued'
    ensures SoundPlans(r, beam, plan, issued0, issued')
  {
  }

  lemma FittedIsTaken(s: SearchState, plan: seq<Planned>, f: Fit)
    requires Fitted(s.beam, s.waiting, plan, f) && Ids(s.beam) !! Ids(s.waiting)
    ensures TakenFrom(s, f.beam, f.waiting, f.finished)
  {
    IdsSubset(f.beam, s.beam);
    IdsSubset(f.waiting, s.waiting);
  }

  /** A sound plan for the beam can be submitted. */
  lemma PlanIsSubmittable(r: Rules, s: SearchState, level: Level, tree: map<BranchId, BeamNode>, issued: set<BranchId>,
                          plan: seq<Planned>, issued0: set<BranchId>, others: set<BranchId>)
    requires SearchInv(r, s, level, tree, issued) && SoundPlans(r, s.beam, plan, issued0, issued)
    requires "" !in issued && ROOT_BRANCH_ID !in issued && others <= issued0
    requires SetOf(s.all) !! SetOf(PlanIds(plan))
    ensures Submittable(plan, others + Live(s))
  {
    forall i | 0 <= i < |plan|
      ensures ItemWellFormed(ItemFor(plan[i])) && plan[i].branch !in others + Live(s)
        && (plan[i].node.branch == ROOT_BRANCH_ID || plan[i].node.branch in Live(s))
    {
      assert HeldNode(r, Live(s), plan[i].node);
      assert PlanIds(plan)[i] in SetOf(PlanIds(plan));
    }
  }

  /** What a depth batch creates is new to the search. */
  lemma BatchCreatesNew(s: SearchState, plan: seq<Planned>, max: nat, meta: seq<Planned>, positions: seq<nat>,
                        results: map<BranchId, BranchResult>, created: seq<BranchId>, tries: multiset<nat>,
                        live0: set<BranchId>, issued0: set<BranchId>, issued: set<BranchId>)
    requires DepthBatch(plan, max, meta, positions, results, created, tries)
    requires FreshIds(created, plan, live0, issued0, issued)
    requires SetOf(s.all) <= issued0 && SetOf(s.all) !! SetOf(PlanIds(plan))
    ensures NewBranches(s, created, issued) && SetOf(created) !! live0
  {
    forall b | b in SetOf(created) ensures b !in SetOf(s.all) && b in issued && b != ROOT_BRANCH_ID && b !in live0 {
      assert b in created;
      if b in PlanIds(plan) {
        assert b in SetOf(PlanIds(plan));
      }
    }
  }

  /** The attempts of a ply are sound, and were planned from this beam. */
  lemma BatchIsSound(r: Rules, s: SearchState, level: Level, tree: map<BranchId, BeamNode>, issued: set<BranchId>,
                     plan: seq<Planned>, issued0: set<BranchId>, max: nat, meta: seq<Planned>, positions: seq<nat>,
                     results: map<BranchId, BranchResult>, created: seq<BranchId>, tries: multiset<nat>)
    requires SearchInv(r, s, level, tree, issued) && SoundPlans(r, s.beam, plan, issued0, issued)
    requires DepthBatch(plan, max, meta, positions, results, created, tries)
    requires NewBranches(s, created, issued)
    ensures SoundAttempts(r, s, level, meta, SetOf(created))
    ensures SetOf(created) !! tree.Keys
    ensures SetOf(created) !! Ids(s.beam) + Ids(s.waiting) + Ids(s.finished)
  {
    MetaIdsCreated(plan, max, meta, positions, results, created, tries);
    NodesAreCreated(r, s);
    forall i | 0 <= i < |meta|
      ensures SoundPlan(r, meta[i]) && meta[i].node in s.beam && AtLevel(meta[i].node, level)
    {
      AttemptIsSound(r, s, plan, max, meta, positions, results, created, tries, i);
    }
  }

  /** Putting a depth batch on record leaves the search in order, with new attempts of its beam. */
  lemma BatchKeepsInv(r: Rules, s: SearchState, level: Level, tree: map<BranchId, BeamNode>, issued: set<BranchId>,
                      plan: seq<Planned>, issued0: set<BranchId>, meta: seq<Planned>, positions: seq<nat>,
                      results: map<BranchId, BranchResult>, created: seq<BranchId>, tries: multiset<nat>,
                      ever0: set<BranchId>, issued': set<BranchId>)
    requires SearchInv(r, s, level, tree, issued) && SoundPlans(r, s.beam, plan, issued0, issued) && issued <= issued'
    requires DepthBatch(plan, r.cfg.maxAttempts, meta, positions, results, created, tries)
    requires FreshIds(created, plan, ever0, issued, issued') && SetOf(s.all) !! SetOf(PlanIds(plan))
    ensures var s' := Created(s, created);
      && SearchInv(r, s', level, tree, issued') && NewAttempts(r, s', level, tree, meta, SetOf(created))
      && Live(s') == Live(s) + SetOf(created) && SoundPlans(r, s.beam, plan, issued0, issued')
      && SetOf(created) !! ever0
  {
    BatchCreatesNew(s, plan, r.cfg.maxAttempts, meta, positions, results, created, tries, ever0, issued, issued');
    CreatedOwnership(s, issued, created, issued');
    OnTheSideKeepsInv(r, s, level, tree, issued, Created(s, created), issued');
    SoundPlansLater(r, s.beam, plan, issued0, issued, issued');
    OnTheSideKeepsInv(r, s, level, tree, issued, s, issued');
    BatchIsSound(r, s, level, tree, issued', plan, issued0, r.cfg.maxAttempts, meta, positions, results, created,
                 tries);
  }

  lemma SubsetCardinality(a: set<BranchId>, b: set<BranchId>)
    requires a <= b
    ensures |a| <= |b|
  {
    assert b == a + (b - a);
  }

  lemma {:induction false} SetOfCardinality(ids: seq<BranchId>)
    ensures |SetOf(ids)| <= |ids|
  {
    if ids != [] {
      var front, last := ids[..|ids| - 1], ids[|ids| - 1];
      assert ids == front + [last];
      SetOfLast(front, last);
      SetOfCardinality(front);
    }
  }

  lemma {:induction false} BranchCostCounts(nodes: seq<BeamNode>)
    ensures |Ids(nodes) - {ROOT_BRANCH_ID}| <= BranchCost(nodes)
  {
    if nodes != [] {
      var front, last := nodes[..|nodes| - 1], nodes[|nodes| - 1];
      assert nodes == front + [last];
      IdsGrow(front, last);
      BranchCostCounts(front);
      var a, b := Ids(front) - {ROOT_BRANCH_ID}, Ids(nodes) - {ROOT_BRANCH_ID};
      if last.branch == ROOT_BRANCH_ID {
        assert a == b;
      } else {
        SubsetCardinality(b, a + {last.branch});
      }
    }
  }

  lemma {:induction false} IdsCardinality(nodes: seq<BeamNode>)
    ensures |Ids(nodes)| <= |nodes|
  {
    if nodes != [] {
      var front, last := nodes[..|nodes| - 1], nodes[|nodes| - 1];
      assert nodes == front + [last];
      IdsGrow(front, last);
      IdsCardinality(front);
    }
  }

  /** What exists after a ply is at most the parents, the waiting nodes, what was spared and the
      branches just created. */
  lemma LiveAfterPly(s: SearchState, spare: seq<BeamNode>, created: seq<BranchId>)
    requires Near(s, Ids(spare)) && ROOT_BRANCH_ID !in SetOf(s.all)
    ensures |Live(s) + SetOf(created)| <= BranchCost(s.beam) + |s.waiting| + |spare| + |created|
  {
    var parents, rest := Ids(s.beam) - {ROOT_BRANCH_ID}, Ids(s.waiting) + Ids(spare);
    SubsetCardinality(Live(s) + SetOf(created), parents + rest + SetOf(created));
    assert |rest| <= |Ids(s.waiting)| + |Ids(spare)|;
    assert |parents + rest| <= |parents| + |rest|;
    BranchCostCounts(s.beam);
    IdsCardinality(s.waiting);
    IdsCardinality(spare);
    SetOfCardinality(created);
  }

  /** The choice states that go on, cut to the beam width. */
  function FirstChoices(next: seq<BeamNode>, width: nat): seq<BeamNode> {
    var choices := WithChoices(next, true);
    choices[..if width < |choices| then width else |choices|]
  }

  /** A ply with choices open keeps the search in order. */
  lemma ChoicesAdvance(r: Rules, s: SearchState, level: Level, tree: map<BranchId, BeamNode>, issued: set<BranchId>,
                       next: seq<BeamNode>, leaves: seq<BeamNode>, ids: set<BranchId>, tree': map<BranchId, BeamNode>)
    requires SearchInv(r, s, level, tree, issued) && Offspring(r, s, level, next, leaves, ids)
    requires Grafted(s, tree, tree', next, leaves) && WithChoices(next, true) != []
    ensures SearchInv(r, Advanced(s, FirstChoices(next, r.cfg.beamWidth), s.waiting + WithChoices(next, false), leaves),
                      NextChoosing(level), tree', issued)
    ensures OpenLevel(r.cfg, NextChoosing(level))
  {
    OpenChoicesDrawn(s, next, r.cfg.beamWidth);
    assert WithChoices(next, true)[0] in next;
    forall n | n in s.waiting + WithChoices(next, false) ensures !IsContinuation(n.dto) {
      assert n in s.waiting ==> AtLevel(n, Stable(level.depth));
    }
    AdvancedKeepsInv(r, s, level, tree, issued, next, leaves, ids, tree', FirstChoices(next, r.cfg.beamWidth),
                     s.waiting + WithChoices(next, false), NextChoosing(level));
  }

  function PrunedLevel(level: Level, kept: seq<BeamNode>): Level {
    if kept == [] then level else NextStable(level)
  }

  /** A ply without choices keeps it too, whatever the pruner keeps. */
  lemma PrunedAdvance(r: Rules, s: SearchState, level: Level, tree: map<BranchId, BeamNode>, issued: set<BranchId>,
                      next: seq<BeamNode>, leaves: seq<BeamNode>, ids: set<BranchId>, tree': map<BranchId, BeamNode>,
                      kept: seq<BeamNode>)
    requires SearchInv(r, s, level, tree, issued) && Offspring(r, s, level, next, leaves, ids)
    requires Grafted(s, tree, tree', next, leaves) && WithChoices(next, true) == []
    requires DistinctNodes(kept) && forall n :: n in kept ==> n in WithChoices(next, false) + s.waiting
    ensures SearchInv(r, Advanced(s, kept, [], leaves), PrunedLevel(level, kept), tree', issued)
    ensures kept != [] ==> OpenLevel(r.cfg, NextStable(level))
  {
    PrunedDrawn(s, next, kept);
    forall n | n in kept ensures !IsContinuation(n.dto) {
      assert n in s.waiting ==> AtLevel(n, Stable(level.depth));
    }
    if kept != [] {
      assert kept[0] in next || kept[0] in s.waiting;
    }
    AdvancedKeepsInv(r, s, level, tree, issued, next, leaves, ids, tree', kept, [], PrunedLevel(level, kept));
  }

  lemma FrontierDistinct(r: Rules, s: SearchState, level: Level, next: seq<BeamNode>, leaves: seq<BeamNode>,
                         ids: set<BranchId>)
    requires NodesInv(r, s) && Offspring(r, s, level, next, leaves, ids)
    ensures DistinctNodes(WithChoices(next, false) + s.waiting)
  {
    FilteredDistinct(next, Choice(false));
    IdsSubset(WithChoices(next, false), next);
    JoinDistinct(WithChoices(next, false), s.waiting);
  }

  /** Whether some result is a readable state outside the scope of a whole-run search. */
  predicate HasOutOfScope(r: Rules, results: map<BranchId, BranchResult>) {
    exists b :: b in results && results[b].Resolved? && results[b].dto.Some?
                && OutOfScope(r.wholeRun, results[b].dto.value, r.cfg.allowed)
  }

  /** Some branch of a whole run came back in a state that is neither terminal nor a combat state
      with searchable actions only. */
  ghost predicate SomeOutOfScope(r: Rules, results: map<BranchId, BranchResult>) {
    r.wholeRun
    && exists b :: b in results && results[b].Resolved? && results[b].dto.Some? && !IsTerminal(results[b].dto.value)
                   && !(results[b].dto.value.combatBoundary && Searchable(results[b].dto.value, r.cfg.allowed))
  }

  /** What a ply comes to: nothing usable, or the next frontier with the leaves it found. */
  datatype PlyResult =
    | NothingInScope
    | AllBranchesFaulted
    | PrunerRaised
    | NextFrontier(beam: seq<BeamNode>, waiting: seq<BeamNode>, leaves: seq<BeamNode>, tally: Tally)

  /** The frontier a ply leads to. With choices open, the first choice states are the beam and
      the resolved survivors wait; otherwise the beam is what the pruner keeps of the resolved
      and the waiting nodes, and nobody waits. */
  ghost predicate FrontierOf(r: Rules, meta: seq<Planned>, results: map<BranchId, BranchResult>,
                             waiting: seq<BeamNode>, p: PlyResult)
    requires p.NextFrontier?
  {
    var next := Expandables(r, meta, results);
    var choices := WithChoices(next, true);
    && p.leaves == Leaves(r, meta, results) && p.tally == Lost(r, meta, results)
    && if choices != []
       then p.beam <= choices && |p.beam| == (if r.cfg.beamWidth < |choices| then r.cfg.beamWidth else |choices|)
            && p.waiting == waiting + WithChoices(next, false)
       else p.waiting == [] && |p.beam| <= r.cfg.beamWidth && forall n :: n in p.beam ==> n in next || n in waiting
  }

  /** Moves the frontier one level on. A beam left empty leaves nobody waiting. */
  method MoveFrontier(r: Rules, next: seq<BeamNode>, leaves: seq<BeamNode>, waiting: seq<BeamNode>, tally: Tally,
                      ghost s: SearchState, ghost level: Level, ghost tree: map<BranchId, BeamNode>,
                      ghost issued: set<BranchId>, ghost ids: set<BranchId>, ghost grown: map<BranchId, BeamNode>)
    returns (p: PlyResult, ghost level': Level)
    requires SearchInv(r, s, level, tree, issued) && waiting == s.waiting && ValidRules(r)
    requires Offspring(r, s, level, next, leaves, ids) && Grafted(s, tree, grown, next, leaves)
    ensures p.PrunerRaised? || p.NextFrontier?
    ensures p.NextFrontier? ==> SearchInv(r, Advanced(s, p.beam, p.waiting, leaves), level', grown, issued)
    ensures p.NextFrontier? ==> p.leaves == leaves && p.tally == tally
    ensures p.NextFrontier? && p.beam == [] ==> p.waiting == []
    ensures p.NextFrontier? && p.beam != [] ==> PliesLeft(r.cfg, level') < PliesLeft(r.cfg, level)
    ensures p.NextFrontier? ==>
      if WithChoices(next, true) != []
      then p.beam == FirstChoices(next, r.cfg.beamWidth) && p.waiting == waiting + WithChoices(next, false)
      else p.waiting == [] && |p.beam| <= r.cfg.beamWidth && forall n :: n in p.beam ==> n in next || n in waiting
  {
    level' := level;
    if WithChoices(next, true) != [] {
      ChoicesAdvance(r, s, level, tree, issued, next, leaves, ids, grown);
      PliesDecrease(r.cfg, level, NextChoosing(level));
      level' := NextChoosing(level);
      var beam := FirstChoices(next, r.cfg.beamWidth);
      return NextFrontier(beam, waiting + WithChoices(next, false), leaves, tally), level';
    }
    FrontierDistinct(r, s, level, next, leaves, ids);
    var raised, kept, _ := PruneStable(r.cfg, WithChoices(next, false) + waiting);
    if raised {
      return PrunerRaised, level;
    }
    PrunedAdvance(r, s, level, tree, issued, next, leaves, ids, grown, kept);
    if kept != [] {
      PliesDecrease(r.cfg, level, NextStable(level));
    }
    level' := PrunedLevel(level, kept);
    p := NextFrontier(kept, [], leaves, tally);
  }

  /** What a ply adds, and the tree it leads to. */
  lemma PlyGrows(r: Rules, s: SearchState, level: Level, tree: map<BranchId, BeamNode>, issued: set<BranchId>,
                 meta: seq<Planned>, results: map<BranchId, BranchResult>)
    returns (ids: set<BranchId>, tree': map<BranchId, BeamNode>)
    requires ValidRules(r) && SearchInv(r, s, level, tree, issued) && Attempted(r, s, level, tree, meta, results)
    ensures var next, leaves := Expandables(r, meta, results), Leaves(r, meta, results);
      && tree' == Graft(tree, next + leaves) && Grafted(s, tree, tree', next, leaves)
      && Offspring(r, s, level, next, leaves, ids)
    ensures OneDeeper(tree, tree')
  {
    ids :| NewAttempts(r, s, level, tree, meta, ids);
    PlyOffspring(r, s, level, meta, results, ids);
    PlyGrafted(r, s, level, tree, meta, results, ids);
    tree' := Graft(tree, Expandables(r, meta, results) + Leaves(r, meta, results));
    PlyOneDeeper(r, s, level, tree, meta, results, ids, tree');
  }

  /** Scores a ply and moves the frontier on. When nothing usable came back, a whole-run search
      that only fell out of scope ends quietly; anything else raises. */
  method JudgePly(r: Rules, meta: seq<Planned>, results: map<BranchId, BranchResult>, waiting: seq<BeamNode>,
                  ghost s: SearchState, ghost level: Level, ghost tree: map<BranchId, BeamNode>,
                  ghost issued: set<BranchId>)
    returns (p: PlyResult, ghost level': Level, ghost tree': map<BranchId, BeamNode>)
    requires ValidRules(r) && SearchInv(r, s, level, tree, issued) && waiting == s.waiting
    requires Attempted(r, s, level, tree, meta, results)
    ensures p.NextFrontier? ==> SearchInv(r, Advanced(s, p.beam, p.waiting, p.leaves), level', tree', issued)
    ensures p.NextFrontier? ==> FrontierOf(r, meta, results, waiting, p)
    ensures p.NextFrontier? && p.beam == [] ==> p.waiting == []
    ensures p.NextFrontier? && p.beam != [] ==> PliesLeft(r.cfg, level') < PliesLeft(r.cfg, level)
    ensures p.NothingInScope? || p.AllBranchesFaulted? <==>
      meta != [] && Lost(r, meta, results).faulted + Lost(r, meta, results).outOfScope == |meta|
    ensures p.NothingInScope? ==> SomeOutOfScope(r, results)
    ensures p.AllBranchesFaulted? ==> !SomeOutOfScope(r, results)
    ensures p.NextFrontier? ==> OneDeeper(tree, tree')
    ensures p.NextFrontier? ==> tree' == Graft(tree, Expandables(r, meta, results) + Leaves(r, meta, results))
  {
    var next, leaves, tally := ScoreFrontier(r, meta, results);
    level', tree' := level, tree;
    FatesPartition(r, meta, results);
    if meta != [] && next == [] && leaves == [] && tally.limited == 0 {
      return if HasOutOfScope(r, results) then NothingInScope else AllBranchesFaulted, level, tree;
    }
    ghost var ids;
    ids, tree' := PlyGrows(r, s, level, tree, issued, meta, results);
    p, level' := MoveFrontier(r, next, leaves, waiting, tally, s, level, tree, issued, ids, tree');
  }

  lemma SomePliesLeft(cfg: Config, level: Level)
    requires OpenLevel(cfg, level)
    ensures PliesLeft(cfg, level) > 0
  {
  }

  lemma CollectedTaken(s: SearchState)
    requires DistinctNodes(s.beam) && DistinctNodes(s.waiting) && Ids(s.beam) !! Ids(s.waiting)
    ensures TakenFrom(s, [], [], s.waiting + ResolvedOnly(s.beam))
  {
    FilteredDistinct(s.beam, MacroResolved);
    IdsSubset(ResolvedOnly(s.beam), s.beam);
    JoinDistinct(s.waiting, ResolvedOnly(s.beam));
  }
}
