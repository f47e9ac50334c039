/** The state of one search and what every phase of a ply keeps: who owns each branch, which
    nodes are where, and how each node hangs below the root. Each phase has one function for
    the state it leads to and one lemma that this state keeps the invariant. */
module BeamState {
  import opened Wrappers
  import opened WireContract
  import opened CombatDecision
  import opened BeamModel
  import opened BeamFrontier
  import opened BeamPlan

  /** The lists a search mutates: the beam, the resolved nodes waiting for choices to resolve,
      the finished leaves, the leaves already submitted for settling, every branch ever created
      and the released ones. */
  datatype SearchState = SearchState(
    beam: seq<BeamNode>, waiting: seq<BeamNode>, finished: seq<BeamNode>,
    settled: set<BranchId>, all: seq<BranchId>, released: set<BranchId>)

  /** The branches that still exist. */
  function Live(s: SearchState): set<BranchId> {
    SetOf(s.all) - s.released
  }

  /** Branch accounting: every branch is created once, under a fresh id that is not the root's,
      and only created branches are released. */
  ghost predicate OwnershipInv(s: SearchState, issued: set<BranchId>) {
    && Distinct(s.all) && ROOT_BRANCH_ID !in SetOf(s.all)
    && s.released <= SetOf(s.all) <= issued
  }

  /** A node that may be expanded or kept: sound, in scope, and on a branch that exists. */
  ghost predicate HeldNode(r: Rules, live: set<BranchId>, n: BeamNode) {
    SoundNode(r, n) && InScopeIfWholeRun(r, n) && (n.branch == ROOT_BRANCH_ID || n.branch in live)
  }

  /** A finished leaf: the root itself, resolved, or a created node that still carries its own fresh
      score unless it was settled, and whose branch exists unless settling it is over. */
  ghost predicate FinishedNode(r: Rules, s: SearchState, n: BeamNode) {
    if n.branch == ROOT_BRANCH_ID then n.rootAction.None? && MacroResolved(n) && n.dto == r.rootDto && !n.terminal
    else
      && n.branch in SetOf(s.all) && n.rngId > 0
      && n.rootAction.Some? && IsAvailable(r.rootDto, n.rootAction.value)
      && n.terminal == IsTerminal(n.dto)
      && (MacroResolved(n) ==> n.value == r.score(n.dto) || (r.cfg.turnBoundary && n.branch in s.settled))
      && (r.cfg.turnBoundary ==> n.branch in s.settled || n.branch in Live(s))
  }

  ghost predicate NodesInv(r: Rules, s: SearchState) {
    && DistinctNodes(s.beam) && DistinctNodes(s.waiting) && DistinctNodes(s.finished)
    && Ids(s.beam) !! Ids(s.waiting) && Ids(s.finished) !! Ids(s.beam) + Ids(s.waiting)
    && s.settled <= Ids(s.finished)
    && (forall n :: n in s.beam ==> HeldNode(r, Live(s), n))
    && (forall n :: n in s.waiting ==> HeldNode(r, Live(s), n))
    && (forall n :: n in s.finished ==> FinishedNode(r, s, n))
  }

  /** All beam nodes stand at one level; nodes wait only while choices are open, at the level
      the choices lead to. */
  ghost predicate LevelInv(r: Rules, s: SearchState, level: Level) {
    && OpenLevel(r.cfg, level)
    && (forall n :: n in s.beam ==> AtLevel(n, level))
    && (level.Stable? ==> s.waiting == [])
    && (s.waiting != [] ==> level.depth < r.cfg.maxDepth)
    && (forall n :: n in s.waiting ==> AtLevel(n, Stable(level.depth)))
  }

  /** The tree of created nodes: a child of the root starts its own root action and random
      stream, any other node inherits its parent's. */
  ghost predicate TreeNode(tree: map<BranchId, BeamNode>, b: BranchId)
    requires b in tree
  {
    var n := tree[b];
    && n.branch == b && b != ROOT_BRANCH_ID && n.action.Some? && n.depth > 0
    && if n.parent == ROOT_BRANCH_ID then n.depth == 1 && n.rootAction == n.action
       else n.parent in tree && n.depth == tree[n.parent].depth + 1 && n.rngId == tree[n.parent].rngId
            && n.rootAction == tree[n.parent].rootAction
  }

  ghost predicate TreeInv(s: SearchState, tree: map<BranchId, BeamNode>) {
    && (forall b :: b in tree ==> TreeNode(tree, b))
    && tree.Keys <= SetOf(s.all)
    && (forall n :: n in s.beam + s.waiting && n.branch != ROOT_BRANCH_ID ==> n.branch in tree && tree[n.branch] == n)
    && (forall n :: n in s.finished && n.branch != ROOT_BRANCH_ID ==>
          n.branch in tree && tree[n.branch] == n.(value := tree[n.branch].value))
  }

  /** The first action on the parent chain of a created node. */
  ghost function FirstAction(tree: map<BranchId, BeamNode>, b: BranchId): Option<string>
    requires (forall x :: x in tree ==> TreeNode(tree, x)) && b in tree
    decreases tree[b].depth
  {
    if tree[b].parent == ROOT_BRANCH_ID then tree[b].action else FirstAction(tree, tree[b].parent)
  }

  /** A node's root action is the action its parent chain starts with. */
  lemma {:induction false} RootActionStartsChain(tree: map<BranchId, BeamNode>, b: BranchId)
    requires (forall x :: x in tree ==> TreeNode(tree, x)) && b in tree
    ensures tree[b].rootAction == FirstAction(tree, b)
    decreases tree[b].depth
  {
    if tree[b].parent != ROOT_BRANCH_ID {
      RootActionStartsChain(tree, tree[b].parent);
    }
  }

  ghost predicate SearchInv(r: Rules, s: SearchState, level: Level, tree: map<BranchId, BeamNode>,
                            issued: set<BranchId>)
  {
    OwnershipInv(s, issued) && NodesInv(r, s) && LevelInv(r, s, level) && TreeInv(s, tree)
  }

  // ----- moving nodes ------------------------------------------------------------------

  function Moved(s: SearchState, beam: seq<BeamNode>, waiting: seq<BeamNode>, moved: seq<BeamNode>): SearchState {
    s.(beam := beam, waiting := waiting, finished := s.finished + moved)
  }

  /** Nodes taken from the beam or the waiting list, without inventing or doubling any; from the
      beam only resolved ones are moved. */
  ghost predicate TakenFrom(s: SearchState, beam: seq<BeamNode>, waiting: seq<BeamNode>, moved: seq<BeamNode>) {
    && DistinctNodes(beam) && DistinctNodes(waiting) && DistinctNodes(moved)
    && Ids(beam) !! Ids(waiting) && Ids(moved) !! Ids(beam) + Ids(waiting)
    && (forall n :: n in beam ==> n in s.beam) && (forall n :: n in waiting ==> n in s.waiting)
    && (forall n :: n in moved ==> (n in s.beam && MacroResolved(n)) || n in s.waiting)
  }

  lemma IdsSubset(some: seq<BeamNode>, all: seq<BeamNode>)
    requires forall n :: n in some ==> n in all
    ensures Ids(some) <= Ids(all)
  {
    IdsMembers(some);
    IdsMembers(all);
  }

  lemma IdsAppend(a: seq<BeamNode>, b: seq<BeamNode>)
    ensures Ids(a + b) == Ids(a) + Ids(b)
  {
    IdsMembers(a);
    IdsMembers(b);
    IdsMembers(a + b);
  }

  lemma MovedNodes(r: Rules, s: SearchState, beam: seq<BeamNode>, waiting: seq<BeamNode>, moved: seq<BeamNode>)
    requires NodesInv(r, s) && TakenFrom(s, beam, waiting, moved) && forall n :: n in s.waiting ==> MacroResolved(n)
    ensures NodesInv(r, Moved(s, beam, waiting, moved))
  {
    IdsMembers(s.beam);
    IdsMembers(s.waiting);
    IdsMembers(moved);
    IdsSubset(beam, s.beam);
    IdsSubset(waiting, s.waiting);
    assert Ids(moved) <= Ids(s.beam) + Ids(s.waiting);
    IdsAppend(s.finished, moved);
    JoinDistinct(s.finished, moved);
    var s' := Moved(s, beam, waiting, moved);
    forall n | n in s'.finished ensures FinishedNode(r, s', n) {
      if n in s.finished {
        assert FinishedNode(r, s, n);
      } else {
        assert HeldNode(r, Live(s), n);
      }
    }
  }

  lemma MovedTree(s: SearchState, tree: map<BranchId, BeamNode>,
                  beam: seq<BeamNode>, waiting: seq<BeamNode>, moved: seq<BeamNode>)
    requires TreeInv(s, tree) && TakenFrom(s, beam, waiting, moved)
    ensures TreeInv(Moved(s, beam, waiting, moved), tree)
  {
  }

  /** Moving nodes to the finished list, or dropping them, keeps the search in order. */
  lemma MovedKeepsInv(r: Rules, s: SearchState, level: Level, tree: map<BranchId, BeamNode>, issued: set<BranchId>,
                      beam: seq<BeamNode>, waiting: seq<BeamNode>, moved: seq<BeamNode>)
    requires SearchInv(r, s, level, tree, issued) && TakenFrom(s, beam, waiting, moved)
    ensures SearchInv(r, Moved(s, beam, waiting, moved), level, tree, issued)
  {
    assert forall n :: n in s.waiting ==> AtLevel(n, Stable(level.depth));
    MovedNodes(r, s, beam, waiting, moved);
    MovedTree(s, tree, beam, waiting, moved);
    if waiting != [] {
      assert waiting[0] in s.waiting;
    }
  }

  // ----- creating, settling and releasing branches ---------------------------------------

  /** A step aside from the frontier: branches are created, and only those are released. */
  ghost predicate OnTheSide(s: SearchState, s': SearchState) {
    && s' == s.(all := s'.all, released := s'.released)
    && s.all <= s'.all && s'.released * SetOf(s.all) == s.released
  }

  lemma OnTheSideLive(s: SearchState, s': SearchState)
    requires OnTheSide(s, s')
    ensures SetOf(s.all) <= SetOf(s'.all) && Live(s) <= Live(s')
  {
    assert s'.all == s.all + s'.all[|s.all|..];
    SetOfAppend(s.all, s'.all[|s.all|..]);
  }

  lemma OnTheSideTwice(s: SearchState, s': SearchState, s'': SearchState)
    requires OnTheSide(s, s') && OnTheSide(s', s'')
    ensures OnTheSide(s, s'')
  {
    OnTheSideLive(s, s');
  }

  /** Such a step keeps the search in order. */
  lemma OnTheSideKeepsInv(r: Rules, s: SearchState, level: Level, tree: map<BranchId, BeamNode>,
                          issued: set<BranchId>, s': SearchState, issued': set<BranchId>)
    requires SearchInv(r, s, level, tree, issued) && OwnershipInv(s', issued') && OnTheSide(s, s')
    ensures SearchInv(r, s', level, tree, issued')
  {
    OnTheSideLive(s, s');
    forall n | n in s'.finished ensures FinishedNode(r, s', n) {
      assert FinishedNode(r, s, n);
    }
  }

  function Created(s: SearchState, ids: seq<BranchId>): SearchState {
    s.(all := s.all + ids)
  }

  /** Ids this search has never used, and now has. */
  ghost predicate NewBranches(s: SearchState, ids: seq<BranchId>, issued: set<BranchId>) {
    && Distinct(ids) && ROOT_BRANCH_ID !in SetOf(ids)
    && SetOf(ids) !! SetOf(s.all) && SetOf(ids) <= issued
  }

  /** Creating branches is a step aside. */
  lemma CreatedOwnership(s: SearchState, issued: set<BranchId>, ids: seq<BranchId>, issued': set<BranchId>)
    requires OwnershipInv(s, issued) && issued <= issued' && NewBranches(s, ids, issued')
    ensures OwnershipInv(Created(s, ids), issued') && OnTheSide(s, Created(s, ids))
    ensures Live(Created(s, ids)) == Live(s) + SetOf(ids)
  {
    SetOfAppend(s.all, ids);
    var all := s.all + ids;
    forall i, j | 0 <= i < j < |all| ensures all[i] != all[j] {
      if i < |s.all| <= j {
        assert s.all[i] in SetOf(s.all) && ids[j - |s.all|] in SetOf(ids);
      }
    }
  }

  function Released(s: SearchState, ids: set<BranchId>): SearchState {
    s.(released := s.released + ids)
  }

  /** Releasing keeps the search in order when it spares the nodes still in play, and the
      leaves still to be settled. */
  lemma ReleasedKeepsInv(r: Rules, s: SearchState, level: Level, tree: map<BranchId, BeamNode>,
                         issued: set<BranchId>, ids: set<BranchId>)
    requires SearchInv(r, s, level, tree, issued)
    requires ids <= Live(s) && ids !! Ids(s.beam) + Ids(s.waiting)
    requires r.cfg.turnBoundary ==> Ids(s.finished) * ids <= s.settled
    ensures SearchInv(r, Released(s, ids), level, tree, issued)
    ensures Live(Released(s, ids)) == Live(s) - ids
  {
    var s' := Released(s, ids);
    IdsMembers(s.beam);
    IdsMembers(s.waiting);
    IdsMembers(s.finished);
    forall n | n in s'.finished ensures FinishedNode(r, s', n) {
      assert FinishedNode(r, s, n);
    }
  }

  /** Every leaf found so far counts as submitted for settling from now on. */
  function Marked(s: SearchState): SearchState {
    s.(settled := s.settled + Ids(s.finished))
  }

  lemma MarkedKeepsInv(r: Rules, s: SearchState, level: Level, tree: map<BranchId, BeamNode>, issued: set<BranchId>)
    requires SearchInv(r, s, level, tree, issued)
    ensures SearchInv(r, Marked(s), level, tree, issued)
  {
    var s' := Marked(s);
    forall n | n in s'.finished ensures FinishedNode(r, s', n) {
      assert FinishedNode(r, s, n);
    }
  }

  /** The same leaves in the same order; only settled ones may carry another value. */
  ghost predicate Rescored(s: SearchState, finished: seq<BeamNode>) {
    && |finished| == |s.finished|
    && forall i :: 0 <= i < |finished| ==>
         finished[i] == s.finished[i].(value := finished[i].value)
         && (finished[i] == s.finished[i] || finished[i].branch in s.settled)
  }

  lemma RescoredNodes(r: Rules, s: SearchState, finished: seq<BeamNode>)
    requires NodesInv(r, s) && r.cfg.turnBoundary && Rescored(s, finished)
    ensures NodesInv(r, s.(finished := finished))
  {
    var s' := s.(finished := finished);
    assert Ids(finished) == Ids(s.finished) by {
      assert forall i :: 0 <= i < |finished| ==> finished[i].branch == s.finished[i].branch;
    }
    forall n | n in s'.finished ensures FinishedNode(r, s', n) {
      var i :| 0 <= i < |finished| && finished[i] == n;
      assert FinishedNode(r, s, s.finished[i]);
    }
  }

  lemma RescoredTree(s: SearchState, tree: map<BranchId, BeamNode>, finished: seq<BeamNode>)
    requires TreeInv(s, tree) && Rescored(s, finished)
    ensures TreeInv(s.(finished := finished), tree)
  {
    forall n | n in finished && n.branch != ROOT_BRANCH_ID
      ensures n.branch in tree && tree[n.branch] == n.(value := tree[n.branch].value)
    {
      var i :| 0 <= i < |finished| && finished[i] == n;
      assert s.finished[i] in s.finished;
    }
  }

  /** Giving settled leaves their settled scores keeps the search in order. */
  lemma RescoredKeepsInv(r: Rules, s: SearchState, level: Level, tree: map<BranchId, BeamNode>,
                         issued: set<BranchId>, finished: seq<BeamNode>)
    requires SearchInv(r, s, level, tree, issued) && r.cfg.turnBoundary && Rescored(s, finished)
    ensures SearchInv(r, s.(finished := finished), level, tree, issued)
  {
    RescoredNodes(r, s, finished);
    RescoredTree(s, tree, finished);
  }

  // ----- one ply further -----------------------------------------------------------------

  /** What a ply adds: surviving nodes and leaves on branches created in this ply. */
  ghost predicate Offspring(r: Rules, s: SearchState, level: Level, next: seq<BeamNode>, leaves: seq<BeamNode>,
                            ids: set<BranchId>)
  {
    && DistinctNodes(next) && DistinctNodes(leaves) && Ids(next) !! Ids(leaves)
    && Ids(next) + Ids(leaves) <= ids <= Live(s)
    && ids !! Ids(s.beam) + Ids(s.waiting) + Ids(s.finished)
    && (forall n :: n in next ==>
          SoundNode(r, n) && InScopeIfWholeRun(r, n) && n.branch != ROOT_BRANCH_ID
          && if IsContinuation(n.dto) then AtLevel(n, NextChoosing(level)) && OpenLevel(r.cfg, NextChoosing(level))
             else AtLevel(n, NextStable(level)) && OpenLevel(r.cfg, NextStable(level)))
    && (forall n :: n in leaves ==> SoundChild(r, n) && n.rngId > 0 && n.branch != ROOT_BRANCH_ID)
  }

  /** The tree with the offspring hung below the nodes they were planned from. */
  ghost predicate Grafted(s: SearchState, tree: map<BranchId, BeamNode>, tree': map<BranchId, BeamNode>,
                          next: seq<BeamNode>, leaves: seq<BeamNode>)
  {
    && (forall b :: b in tree' ==> TreeNode(tree', b))
    && tree'.Keys == tree.Keys + Ids(next) + Ids(leaves)
    && (forall b :: b in tree ==> tree'[b] == tree[b])
    && (forall n :: n in next + leaves ==> n.branch in tree' && tree'[n.branch] == n)
  }

  function Advanced(s: SearchState, beam: seq<BeamNode>, waiting: seq<BeamNode>, leaves: seq<BeamNode>): SearchState {
    s.(beam := beam, waiting := waiting, finished := s.finished + leaves)
  }

  /** The next frontier is drawn from the survivors and the nodes that waited. */
  ghost predicate DrawnFrom(s: SearchState, next: seq<BeamNode>, beam: seq<BeamNode>, waiting: seq<BeamNode>) {
    && DistinctNodes(beam) && DistinctNodes(waiting) && Ids(beam) !! Ids(waiting)
    && (forall n :: n in beam ==> n in next || n in s.waiting)
    && (forall n :: n in waiting ==> n in next || n in s.waiting)
  }

  lemma DrawnIds(s: SearchState, next: seq<BeamNode>, some: seq<BeamNode>)
    requires forall n :: n in some ==> n in next || n in s.waiting
    ensures Ids(some) <= Ids(next) + Ids(s.waiting)
  {
    IdsMembers(some);
    IdsMembers(next);
    IdsMembers(s.waiting);
  }

  lemma AdvancedNodes(r: Rules, s: SearchState, level: Level, next: seq<BeamNode>, leaves: seq<BeamNode>,
                      ids: set<BranchId>, beam: seq<BeamNode>, waiting: seq<BeamNode>)
    requires NodesInv(r, s) && Offspring(r, s, level, next, leaves, ids) && DrawnFrom(s, next, beam, waiting)
    ensures NodesInv(r, Advanced(s, beam, waiting, leaves))
  {
    DrawnIds(s, next, beam);
    DrawnIds(s, next, waiting);
    IdsAppend(s.finished, leaves);
    JoinDistinct(s.finished, leaves);
    IdsMembers(next);
    IdsMembers(leaves);
    var s' := Advanced(s, beam, waiting, leaves);
    forall n | n in s'.finished ensures FinishedNode(r, s', n) {
      if n in s.finished {
        assert FinishedNode(r, s, n);
      } else {
        assert n in leaves && n.branch in Ids(leaves) && n.branch in Live(s);
      }
    }
  }

  lemma AdvancedTree(s: SearchState, tree: map<BranchId, BeamNode>, tree': map<BranchId, BeamNode>,
                     next: seq<BeamNode>, leaves: seq<BeamNode>, beam: seq<BeamNode>, waiting: seq<BeamNode>)
    requires TreeInv(s, tree) && Grafted(s, tree, tree', next, leaves)
    requires DrawnFrom(s, next, beam, waiting) && Ids(next) + Ids(leaves) <= Live(s)
    ensures TreeInv(Advanced(s, beam, waiting, leaves), tree')
  {
    var s' := Advanced(s, beam, waiting, leaves);
    forall n | n in s'.beam + s'.waiting && n.branch != ROOT_BRANCH_ID
      ensures n.branch in tree' && tree'[n.branch] == n
    {
      assert n in next || n in s.waiting;
      assert n in next ==> n in next + leaves;
      assert n in s.waiting ==> n in s.beam + s.waiting;
    }
    forall n | n in s'.finished && n.branch != ROOT_BRANCH_ID
      ensures n.branch in tree' && tree'[n.branch] == n.(value := tree'[n.branch].value)
    {
      assert n in s.finished || n in next + leaves;
    }
  }

  /** A ply that ends with choices open: the choice states become the beam, and the resolved
      ones wait. Without them, the resolved and the waiting nodes together make the next beam.
      Either way the search stays in order, one level on. */
  lemma AdvancedKeepsInv(r: Rules, s: SearchState, level: Level, tree: map<BranchId, BeamNode>,
                         issued: set<BranchId>, next: seq<BeamNode>, leaves: seq<BeamNode>, ids: set<BranchId>,
                         tree': map<BranchId, BeamNode>, beam: seq<BeamNode>, waiting: seq<BeamNode>, level': Level)
    requires SearchInv(r, s, level, tree, issued) && Offspring(r, s, level, next, leaves, ids)
    requires Grafted(s, tree, tree', next, leaves) && DrawnFrom(s, next, beam, waiting)
    requires OpenLevel(r.cfg, level')
    requires (level' == NextChoosing(level) || (level' == NextStable(level) && waiting == []))
             || (level' == level && beam == [] && waiting == [])
    requires forall n :: n in beam ==> IsContinuation(n.dto) == level'.Choosing?
    requires forall n :: n in waiting ==> !IsContinuation(n.dto)
    ensures SearchInv(r, Advanced(s, beam, waiting, leaves), level', tree', issued)
  {
    AdvancedNodes(r, s, level, next, leaves, ids, beam, waiting);
    AdvancedTree(s, tree, tree', next, leaves, beam, waiting);
    var s' := Advanced(s, beam, waiting, leaves);
    forall n | n in s'.beam ensures AtLevel(n, level') {
      assert n in next || n in s.waiting;
    }
    forall n | n in s'.waiting ensures AtLevel(n, Stable(level'.depth)) && level'.depth < r.cfg.maxDepth {
      assert n in next || n in s.waiting;
    }
    if waiting != [] {
      assert waiting[0] in s'.waiting;
    }
  }

  // ----- what is still needed ------------------------------------------------------------

  /** The ids not in `gone`, in order. */
  function Remaining(ids: seq<BranchId>, gone: set<BranchId>): (r: seq<BranchId>)
    ensures SetOf(r) == SetOf(ids) - gone
  {
    if ids == [] then []
    else
      assert ids == ids[..|ids| - 1] + [ids[|ids| - 1]];
      SetOfLast(ids[..|ids| - 1], ids[|ids| - 1]);
      var front := Remaining(ids[..|ids| - 1], gone);
      SetOfLast(front, ids[|ids| - 1]);
      if ids[|ids| - 1] in gone then front else front + [ids[|ids| - 1]]
  }

  lemma SetOfLast(ids: seq<BranchId>, b: BranchId)
    ensures SetOf(ids + [b]) == SetOf(ids) + {b}
  {
    SetOfAppend(ids, [b]);
    assert [b][0] == b;
  }

  lemma {:induction false} RemainingDistinct(ids: seq<BranchId>, gone: set<BranchId>)
    requires Distinct(ids)
    ensures Distinct(Remaining(ids, gone))
  {
    if ids != [] {
      var last := ids[|ids| - 1];
      var front := Remaining(ids[..|ids| - 1], gone);
      RemainingDistinct(ids[..|ids| - 1], gone);
      forall i | 0 <= i < |front| ensures front[i] != last {
        assert front[i] in SetOf(front) && front[i] in SetOf(ids[..|ids| - 1]);
      }
    }
  }

  /** The nodes still in play hold every branch that exists, except those to spare. */
  ghost predicate Near(s: SearchState, spare: set<BranchId>) {
    Live(s) <= Ids(s.beam) + Ids(s.waiting) + spare
  }

  ghost predicate Tight(s: SearchState) {
    Near(s, {})
  }

  /** The branches the next plies do not need. */
  function Unneeded(s: SearchState): (r: seq<BranchId>)
    ensures SetOf(r) == Live(s) - (Ids(s.beam) + Ids(s.waiting))
  {
    Remaining(s.all, Ids(s.beam) + Ids(s.waiting) + s.released)
  }

  lemma ReleasingUnneeded(r: Rules, s: SearchState, level: Level, tree: map<BranchId, BeamNode>, issued: set<BranchId>)
    requires SearchInv(r, s, level, tree, issued) && (r.cfg.turnBoundary ==> Ids(s.finished) <= s.settled)
    ensures var s' := Released(s, SetOf(Unneeded(s)));
      SearchInv(r, s', level, tree, issued) && Tight(s')
    ensures Distinct(Unneeded(s))
    ensures Unneeded(s) == [] ==> Tight(s)
  {
    RemainingDistinct(s.all, Ids(s.beam) + Ids(s.waiting) + s.released);
    ReleasedKeepsInv(r, s, level, tree, issued, SetOf(Unneeded(s)));
    if Unneeded(s) == [] {
      forall b | b in Live(s) ensures b in Ids(s.beam) + Ids(s.waiting) {
        assert b in Ids(s.beam) + Ids(s.waiting) || b in SetOf(Unneeded(s));
      }
    }
  }
}
