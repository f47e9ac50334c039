/** The beam search: a loop of plies over a mutable frontier, with settling of leaves, release
    of branches that are no longer needed, and cleanup on every way out. The class below has
    the lists the loop mutates as fields; each of its methods is one phase. */
module BeamSearch {
  import opened Wrappers
  import opened WireContract
  import opened CombatDecision
  import opened BeamModel
  import opened BeamFrontier
  import opened BeamPlan
  import opened BeamEmulate
  import opened BeamState
  import opened BeamPly
  import opened BeamSettle
  import opened BranchLog

  datatype Reason =
    | EmulateNotSupported | NoLegalActions | NotBeamSearchable | TimeBudgetReached | NoCandidates
    | ActiveBranchCapacity | CleanupFailed | EmulationStopped(fatal: Fatal)
    | MaxContinuationSteps | MaxDepth | BeamExhausted

  /** How a step of the search goes on: to the next step, out of the loop, or by an exception. */
  datatype Flow = Go | Stop(reason: Reason) | Raise

  /** What one ply did: nodes without candidates, branches retried, whether every item got its
      result, and how many branches of the search existed once it was emulated. */
  datatype PlyRecord = PlyRecord(exhausted: nat, retries: nat, complete: bool, live: nat)

  /** Parents, children and waiting nodes are inside the budget of active branches. */
  ghost predicate FitsBudget(capacity: Option<nat>, beam: seq<BeamNode>, waiting: seq<BeamNode>, plan: seq<Planned>) {
    capacity.Some? ==> BranchCost(beam) + |plan| + |waiting| <= capacity.value
  }

  /** After a complete ply, the branches of the search exceed the budget by no more than the
      nodes without candidates and the branches that were retried. */
  ghost predicate WithinCapacity(capacity: Option<nat>, p: PlyRecord) {
    capacity.Some? && p.complete ==> p.live <= capacity.value + p.exhausted + p.retries
  }

  /** Where the search goes after a ply. A beam left empty never leaves anyone waiting, so there
      is no waiting frontier to fall back to. */
  function AfterPly(p: PlyResult, fatal: Option<Fatal>): (f: Flow)
    requires p.NextFrontier? && p.beam == [] ==> p.waiting == []
    ensures f.Go? <==> p.NextFrontier? && p.beam != [] && fatal.None?
  {
    match p
    case NothingInScope => Stop(NotBeamSearchable)
    case AllBranchesFaulted => Raise
    case PrunerRaised => Raise
    case NextFrontier(beam, _, _, tally) =>
      if fatal.Some? then Stop(EmulationStopped(fatal.value))
      else if beam != [] then Go
      else if tally.limited > 0 then Stop(MaxContinuationSteps)
      else if tally.atMaxDepth > 0 then Stop(MaxDepth)
      else Stop(BeamExhausted)
  }

  /** Why the loop ends after a ply: all it has is out of scope, or its emulation stopped early, or
      the frontier ran empty because some line was out of choices, or else because some line was at
      the depth limit, or else for neither of these. */
  ghost predicate StopsFor(r: Rules, meta: seq<Planned>, results: map<BranchId, BranchResult>, fatal: Option<Fatal>,
                           flow: Flow)
  {
    flow.Stop? ==>
      if flow.reason == NotBeamSearchable then SomeOutOfScope(r, results)
      else if fatal.Some? then flow.reason == EmulationStopped(fatal.value)
      else if SomeLimited(r, meta, results) then flow.reason == MaxContinuationSteps
      else if SomeAtMaxDepth(r, meta, results) then flow.reason == MaxDepth
      else flow.reason == BeamExhausted
  }

  lemma PlyStopsFor(r: Rules, meta: seq<Planned>, results: map<BranchId, BranchResult>, waiting: seq<BeamNode>,
                    p: PlyResult, fatal: Option<Fatal>)
    requires p.NextFrontier? && p.beam == [] ==> p.waiting == []
    requires p.NextFrontier? ==> FrontierOf(r, meta, results, waiting, p)
    requires p.NothingInScope? ==> SomeOutOfScope(r, results)
    ensures StopsFor(r, meta, results, fatal, AfterPly(p, fatal))
  {
    LostCounts(r, meta, results);
  }

  /** A ply that was counted, or whose emulation stopped early, made the tree at most one node
      deeper; any other left it as it was, and the loop does not go on. */
  ghost predicate Deepened(before: map<BranchId, BeamNode>, after: map<BranchId, BeamNode>, flow: Flow, counted: bool) {
    && flow != Stop(EmulationStopped(Raised))
    && if counted || (flow.Stop? && flow.reason.EmulationStopped?) then OneDeeper(before, after)
       else after == before && !flow.Go?
  }

  lemma NotDeepened(tree: map<BranchId, BeamNode>, flow: Flow)
    requires !flow.Go? && (flow.Stop? ==> !flow.reason.EmulationStopped?)
    ensures Deepened(tree, tree, flow, false)
  {
  }

  lemma PlyDeepens(p: PlyResult, fatal: Option<Fatal>, before: map<BranchId, BeamNode>, after: map<BranchId, BeamNode>)
    requires p.NextFrontier? && p.beam == [] ==> p.waiting == []
    requires fatal != Some(Raised)
    requires if p.NextFrontier? then OneDeeper(before, after) else after == before
    ensures Deepened(before, after, AfterPly(p, fatal), p.NextFrontier? && fatal.None?)
  {
  }

  function RootLevel(dto: Dto): Level {
    if IsContinuation(dto) then Choosing(0, 0) else Stable(0)
  }

  /** `depths` counts the plies that were completed. */
  datatype Outcome = SearchResult(best: Option<BeamNode>, reason: Reason, depths: nat) | SearchRaised

  /** How deep the tree can be: a ply whose emulation stopped early is not counted, but what it
      created is in the tree. */
  function DepthReached(reason: Reason, depths: nat): nat {
    if reason.EmulationStopped? then depths + 1 else depths
  }

  predicate Actionable(n: BeamNode) {
    n.rootAction.Some? && MacroResolved(n)
  }

  ghost predicate MaxAt(leaves: seq<BeamNode>, n: nat, at: nat)
    requires at < n <= |leaves|
  {
    && Actionable(leaves[at])
    && forall j :: 0 <= j < n && Actionable(leaves[j]) ==>
         leaves[j].value <= leaves[at].value && (j < at ==> leaves[j].value < leaves[at].value)
  }

  /** The best leaf is the first of the most valuable actionable ones; there is none exactly
      when no leaf is actionable. */
  ghost predicate FirstMax(leaves: seq<BeamNode>, best: Option<BeamNode>) {
    match best
    case None => forall j :: 0 <= j < |leaves| ==> !Actionable(leaves[j])
    case Some(n) => exists at: nat :: at < |leaves| && leaves[at] == n && MaxAt(leaves, |leaves|, at)
  }

  function RootLeaf(root: BeamNode, action: string, s: Settled): BeamNode {
    BeamNode(root.branch, root.branch, root.rngId, "", s.dto, root.depth + 1, s.score, Some(action), Some(action),
             root.combatDepth + 1, 0, IsTerminal(s.dto))
  }

  /** The leaf that ends the turn at the root. */
  ghost predicate EndsTurnAtRoot(r: Rules, n: BeamNode) {
    && n.branch == ROOT_BRANCH_ID && n.depth == 1 && r.rootDto.actions.Some?
    && n.rootAction.Some? && FirstEndTurn(r.rootDto.actions.value, n.rootAction.value)
    && IsAvailable(r.rootDto, n.rootAction.value)
    && n.value == r.score(n.dto) && n.terminal == IsTerminal(n.dto)
  }

  /** What a leaf with a root action promises: the action is available at the root; it is the
      first action on the leaf's line, or ends the turn at the root; and unless leaves are
      settled, the value of a resolved leaf is the fresh score of its own state. */
  ghost predicate SoundLeaf(r: Rules, tree: map<BranchId, BeamNode>, n: BeamNode)
    requires forall b :: b in tree ==> TreeNode(tree, b)
  {
    n.rootAction.Some? ==>
      && IsAvailable(r.rootDto, n.rootAction.value)
      && (if n.branch == ROOT_BRANCH_ID then r.cfg.turnBoundary && EndsTurnAtRoot(r, n)
          else n.branch in tree && FirstAction(tree, n.branch) == n.rootAction && n.depth == tree[n.branch].depth)
      && (!r.cfg.turnBoundary && MacroResolved(n) ==> n.value == r.score(n.dto))
  }

  ghost predicate SoundLeaves(r: Rules, tree: map<BranchId, BeamNode>, leaves: seq<BeamNode>) {
    && (forall b :: b in tree ==> TreeNode(tree, b))
    && forall n :: n in leaves ==> SoundLeaf(r, tree, n)
  }

  lemma RootLeafHasNoAction(r: Rules, s: SearchState)
    requires NodesInv(r, s)
    ensures forall n :: n in s.finished && n.branch == ROOT_BRANCH_ID ==> n.rootAction.None?
    ensures RootAsItIs(r, s.finished)
  {
    forall n | n in s.finished && n.branch == ROOT_BRANCH_ID
      ensures n.rootAction.None? && MacroResolved(n) && n.dto == r.rootDto && !n.terminal
    {
      assert FinishedNode(r, s, n);
    }
  }

  lemma LeavesAreSound(r: Rules, s: SearchState, tree: map<BranchId, BeamNode>)
    requires NodesInv(r, s) && TreeInv(s, tree)
    ensures SoundLeaves(r, tree, s.finished)
  {
    forall n | n in s.finished ensures SoundLeaf(r, tree, n) {
      assert FinishedNode(r, s, n);
      if n.branch != ROOT_BRANCH_ID {
        RootActionStartsChain(tree, n.branch);
      }
    }
  }

  /** No two leaves stand on one branch, except that the root can be a leaf as it is and, last, as
      the line that ends the turn at once. So no branch occurs twice but the root's, and that one
      at most twice. */
  ghost predicate LeavesOnce(r: Rules, leaves: seq<BeamNode>) {
    forall i, j :: 0 <= i < j < |leaves| && leaves[i].branch == leaves[j].branch ==>
      && j == |leaves| - 1 && leaves[j].branch == ROOT_BRANCH_ID
      && leaves[i].rootAction.None? && EndsTurnAtRoot(r, leaves[j])
  }

  ghost predicate BranchTwice(leaves: seq<BeamNode>) {
    exists i, j :: 0 <= i < j < |leaves| && leaves[i].branch == leaves[j].branch
  }

  /** The root is a leaf as it is: it left the beam resolved and without a successor. */
  ghost predicate RootIsLeaf(leaves: seq<BeamNode>) {
    exists n :: n in leaves && n.branch == ROOT_BRANCH_ID && n.rootAction.None?
  }

  /** The root's End Turn is available and was settled. */
  ghost predicate TurnEnded(r: Rules, leaves: seq<BeamNode>) {
    leaves != [] && EndsTurnAtRoot(r, leaves[|leaves| - 1])
  }

  lemma RootTwiceIff(r: Rules, leaves: seq<BeamNode>)
    requires LeavesOnce(r, leaves)
    ensures BranchTwice(leaves) <==> RootIsLeaf(leaves) && TurnEnded(r, leaves)
  {
    if RootIsLeaf(leaves) && TurnEnded(r, leaves) {
      var n :| n in leaves && n.branch == ROOT_BRANCH_ID && n.rootAction.None?;
      var i :| 0 <= i < |leaves| && leaves[i] == n;
      assert leaves[|leaves| - 1].rootAction.Some? && i < |leaves| - 1;
      assert leaves[i].branch == leaves[|leaves| - 1].branch;
    }
  }

  /** What makes a repeated root possible: leaves are settled at the turn boundary, and the root is
      resolved and offers End Turn. */
  predicate RootMayRepeat(r: Rules) {
    && r.cfg.turnBoundary && !IsContinuation(r.rootDto) && r.rootDto.actions.Some?
    && exists i :: 0 <= i < |r.rootDto.actions.value| && IsEndTurn(r.rootDto.actions.value[i])
  }

  /** Every leaf on the root's branch that has no action is the root itself, resolved. */
  ghost predicate RootAsItIs(r: Rules, leaves: seq<BeamNode>) {
    forall n :: n in leaves && n.branch == ROOT_BRANCH_ID && n.rootAction.None? ==>
      MacroResolved(n) && n.dto == r.rootDto && !n.terminal
  }

  /** What every search promises of its final leaves. */
  ghost predicate FinalLeaves(r: Rules, leaves: seq<BeamNode>) {
    LeavesOnce(r, leaves) && RootAsItIs(r, leaves) && (TurnEnded(r, leaves) ==> r.cfg.turnBoundary)
  }

  /** A branch occurs twice only if the root and the configuration allow it. */
  lemma TwiceOnlyIf(r: Rules, leaves: seq<BeamNode>)
    requires FinalLeaves(r, leaves)
    ensures BranchTwice(leaves) ==> RootMayRepeat(r)
  {
    RootTwiceIff(r, leaves);
  }

  lemma DistinctLeavesOnce(r: Rules, leaves: seq<BeamNode>, more: seq<BeamNode>)
    requires DistinctNodes(leaves) && forall n :: n in leaves && n.branch == ROOT_BRANCH_ID ==> n.rootAction.None?
    requires RootAsItIs(r, leaves)
    requires more == leaves || (more != [] && more[..|more| - 1] == leaves && EndsTurnAtRoot(r, more[|more| - 1]))
    ensures LeavesOnce(r, more) && RootAsItIs(r, more) && (TurnEnded(r, more) ==> more != leaves)
  {
    assert forall x :: 0 <= x < |leaves| ==> more[x] == leaves[x] && leaves[x] in leaves;
    assert more == leaves || more == leaves + [more[|more| - 1]];
  }

  lemma LeavesAreFinal(r: Rules, leaves: seq<BeamNode>, more: seq<BeamNode>)
    requires DistinctNodes(leaves) && forall n :: n in leaves && n.branch == ROOT_BRANCH_ID ==> n.rootAction.None?
    requires RootAsItIs(r, leaves)
    requires more == leaves || (r.cfg.turnBoundary && more != [] && more[..|more| - 1] == leaves
                                && EndsTurnAtRoot(r, more[|more| - 1]))
    ensures FinalLeaves(r, more) && (BranchTwice(more) ==> RootMayRepeat(r))
  {
    DistinctLeavesOnce(r, leaves, more);
    TwiceOnlyIf(r, more);
  }

  /** The leaf that ends the turn at once joins the others. */
  lemma LeavesAreDone(r: Rules, tree: map<BranchId, BeamNode>, leaves: seq<BeamNode>, more: seq<BeamNode>,
                      answers0: map<BranchId, Emulated>, answers: map<BranchId, Emulated>)
    requires DistinctNodes(leaves) && forall n :: n in leaves && n.branch == ROOT_BRANCH_ID ==> n.rootAction.None?
    requires RootAsItIs(r, leaves) && SoundLeaves(r, tree, leaves)
    requires AllAnswered(r, leaves, answers0) && Extends(answers0, answers)
    requires more == leaves || (r.cfg.turnBoundary && more != [] && more[..|more| - 1] == leaves
                                && EndsTurnAtRoot(r, more[|more| - 1]) && LeafAnswered(r, more[|more| - 1], answers))
    ensures FinalLeaves(r, more) && (BranchTwice(more) ==> RootMayRepeat(r)) && SoundLeaves(r, tree, more)
    ensures AllAnswered(r, more, answers)
  {
    LeavesAreFinal(r, leaves, more);
    LeavesAnsweredLater(r, leaves, more, answers0, answers);
    assert more == leaves || more == leaves + [more[|more| - 1]];
  }

  lemma RootIsResolved(root: BeamNode)
    requires MacroResolved(root)
    ensures Unanswered([root], [[]], 1) == [root] && ResolvedOnly([root]) == [root]
  {
    assert [root][..0] == [] && [] + [root] == [root];
    assert Unanswered([root], [[]], 0) == [];
    assert Filtered([], MacroResolved) == [];
  }

  /** And wherever they allow it, it can: the policy has nothing for the root, which becomes a leaf,
      and with its End Turn settled it is in the list twice. */
  lemma ExhaustedRootRepeats(r: Rules, root: BeamNode, action: string, s: Settled)
    requires RootMayRepeat(r) && root == RootNode(r.rootDto, root.decisionPoint)
    requires EndTurnAction(r.rootDto.actions.value) == Some(action) && s.score == r.score(s.dto)
    ensures Unanswered([root], [[]], 1) == [root] && ResolvedOnly([root]) == [root]
    ensures var leaves := [root, RootLeaf(root, action, s)];
      FinalLeaves(r, leaves) && BranchTwice(leaves) && RootIsLeaf(leaves) && TurnEnded(r, leaves)
  {
    var leaves := [root, RootLeaf(root, action, s)];
    EndTurnIsAvailable(r.rootDto.actions.value);
    RootIsResolved(root);
    assert leaves[0].branch == leaves[1].branch && leaves[0] in leaves;
  }

  lemma RootRepeats(r: Rules) returns (leaves: seq<BeamNode>)
    requires RootMayRepeat(r)
    ensures FinalLeaves(r, leaves) && BranchTwice(leaves)
  {
    EndTurnIsAvailable(r.rootDto.actions.value);
    var root, action := RootNode(r.rootDto, "d"), EndTurnAction(r.rootDto.actions.value).value;
    var s := Settled(r.score(r.rootDto), r.rootDto);
    ExhaustedRootRepeats(r, root, action, s);
    leaves := [root, RootLeaf(root, action, s)];
  }

  /** The root can repeat exactly when it is resolved and offers End Turn and leaves are settled. */
  lemma RootMayRepeatIff(r: Rules)
    ensures RootMayRepeat(r) <==> exists leaves :: FinalLeaves(r, leaves) && BranchTwice(leaves)
  {
    if RootMayRepeat(r) {
      var leaves := RootRepeats(r);
    }
    forall leaves | FinalLeaves(r, leaves) && BranchTwice(leaves) ensures RootMayRepeat(r) {
      TwiceOnlyIf(r, leaves);
    }
  }

  lemma OnlyEndTurn(dto: Dto)
    requires dto.actions == Some([Action("end", System, true)])
    ensures Searchable(dto, {System}) && !IsContinuation(dto) && Unmixed(dto)
    ensures EndTurnAction(dto.actions.value) == Some("end") && IsEndTurn(dto.actions.value[0])
  {
    var actions := dto.actions.value;
    assert actions[0].available && Offers(actions, System);
  }

  /** Such a root, concretely. */
  lemma RootTwiceExists() returns (r: Rules, root: BeamNode, leaves: seq<BeamNode>)
    ensures ValidRules(r) && r.cfg.turnBoundary && InScope(r.wholeRun, r.rootDto, r.cfg.allowed) && Unmixed(r.rootDto)
    ensures root == RootNode(r.rootDto, "decision") && |leaves| == 2 && leaves[0] == root
    ensures LeavesOnce(r, leaves) && BranchTwice(leaves)
  {
    var dto := Dto(Some([Action("end", System, true)]), false, None, true);
    var cfg := Config(1, 1, 1, 1, true, true, {System}, 1, 1, true);
    r := Rules(cfg, false, dto, (d: Dto) => 0.0);
    root := RootNode(dto, "decision");
    OnlyEndTurn(dto);
    ExhaustedRootRepeats(r, root, "end", Settled(0.0, dto));
    leaves := [root, RootLeaf(root, "end", Settled(0.0, dto))];
  }

  lemma RootSubmittedOnce(submitted: multiset<BranchId>, settled: set<BranchId>, entries: seq<Settling>, sent: nat)
    requires SettledOnce(submitted, settled) && |entries| == 1 && entries[0].node.branch == ROOT_BRANCH_ID
    requires sent <= 1
    ensures forall b :: (submitted + multiset(Parents(entries)[..sent]))[b] <= 1
  {
    assert Parents(entries) == [ROOT_BRANCH_ID];
    assert Parents(entries)[..sent] == if sent == 0 then [] else [ROOT_BRANCH_ID];
    assert ROOT_BRANCH_ID !in submitted;
  }

  /** The leaf is the server's answer to playing its root action in the root. */
  ghost predicate EndedByAnswer(n: BeamNode, answers: map<BranchId, Emulated>) {
    exists b :: b in answers && answers[b].item.parent == ROOT_BRANCH_ID && n.rootAction == Some(answers[b].item.action)
                && StateAfter(answers, b) == Some(n.dto)
  }

  /** A leaf with a root action shows the state the server answered: its own branch's, or that of
      the root's End Turn. Once resolved, its value is that state's score, or that of the state the
      server answered to the leaf's own End Turn. */
  ghost predicate LeafAnswered(r: Rules, n: BeamNode, answers: map<BranchId, Emulated>) {
    n.rootAction.Some? ==>
      && (if n.branch == ROOT_BRANCH_ID then EndedByAnswer(n, answers) else FromAnswer(n, answers))
      && (MacroResolved(n) ==> FairValue(r, n, answers))
  }

  ghost predicate AllAnswered(r: Rules, leaves: seq<BeamNode>, answers: map<BranchId, Emulated>) {
    forall n :: n in leaves ==> LeafAnswered(r, n, answers)
  }

  lemma LeavesAnswered(r: Rules, s: SearchState, tree: map<BranchId, BeamNode>, answers: map<BranchId, Emulated>)
    requires NodesInv(r, s) && TreeInv(s, tree) && TreeAnswered(tree, answers)
    requires SettledFair(r, s.finished, s.settled, answers)
    ensures AllAnswered(r, s.finished, answers)
  {
    FinishedFair(r, s, answers);
    forall n | n in s.finished ensures LeafAnswered(r, n, answers) {
      assert FinishedNode(r, s, n);
      if n.branch != ROOT_BRANCH_ID {
        assert n.branch in tree && tree[n.branch] == n.(value := tree[n.branch].value);
      }
    }
  }

  lemma LeafAnsweredLater(r: Rules, n: BeamNode, before: map<BranchId, Emulated>, answers: map<BranchId, Emulated>)
    requires LeafAnswered(r, n, before) && Extends(before, answers)
    ensures LeafAnswered(r, n, answers)
  {
    if FairValue(r, n, before) {
      FairLater(r, n, before, answers);
    }
  }

  lemma LeavesAnsweredLater(r: Rules, before: seq<BeamNode>, leaves: seq<BeamNode>, answers0: map<BranchId, Emulated>,
                            answers: map<BranchId, Emulated>)
    requires AllAnswered(r, before, answers0) && Extends(answers0, answers)
    requires leaves == before || (leaves != [] && leaves[..|leaves| - 1] == before
                                  && LeafAnswered(r, leaves[|leaves| - 1], answers))
    ensures AllAnswered(r, leaves, answers)
  {
    forall n | n in before ensures LeafAnswered(r, n, answers) {
      LeafAnsweredLater(r, n, answers0, answers);
    }
    assert leaves == before || leaves == before + [leaves[|leaves| - 1]];
  }

  /** None of the new answers shows a state. */
  ghost predicate NothingReadable(before: map<BranchId, Emulated>, answers: map<BranchId, Emulated>) {
    forall b :: b in answers && b !in before ==> StateAfter(answers, b).None?
  }

  lemma NoRootScore(r: Rules, pending: seq<Planned>, sent: nat, before: map<BranchId, Emulated>,
                    answers: map<BranchId, Emulated>, scores: map<BranchId, Settled>)
    requires ScoresOf(r, pending, sent, answers, scores) && |pending| == 1
    requires pending[0].node.branch == ROOT_BRANCH_ID
    requires answers.Keys <= before.Keys + SetOf(PlanIds(pending)[..sent])
    ensures ROOT_BRANCH_ID !in scores ==> NothingReadable(before, answers)
  {
    if ROOT_BRANCH_ID !in scores && sent > 0 {
      assert ScoreOf(r, pending[0], answers, scores);
    }
  }

  lemma RootScore(r: Rules, pending: seq<Planned>, sent: nat, answers: map<BranchId, Emulated>,
                  scores: map<BranchId, Settled>, leaf: BeamNode)
    requires ScoresOf(r, pending, sent, answers, scores) && |pending| == 1
    requires pending[0].node.branch == ROOT_BRANCH_ID && ROOT_BRANCH_ID in scores
    requires leaf.branch == ROOT_BRANCH_ID && leaf.rootAction == Some(pending[0].action)
    requires leaf.dto == scores[ROOT_BRANCH_ID].dto && leaf.value == scores[ROOT_BRANCH_ID].score
    ensures scores[ROOT_BRANCH_ID].score == r.score(leaf.dto) && LeafAnswered(r, leaf, answers)
  {
    if sent > 0 {
      assert ScoreOf(r, pending[0], answers, scores);
      assert StateAfter(answers, pending[0].branch) == Some(leaf.dto);
    }
  }

  class BeamSearchRun {
    const r: Rules
    const client: EmulatorClient
    const alloc: BranchIdAllocator
    var beam: seq<BeamNode>
    var waiting: seq<BeamNode>
    var finished: seq<BeamNode>
    var settled: set<BranchId>
    var all: seq<BranchId>
    var released: set<BranchId>
    // Branches that existed before this search, the level and tree of its nodes, and
    // the leaves it has named in settle requests.
    ghost const others: set<BranchId>
    ghost const log0: seq<Exchange>
    ghost var level: Level
    ghost var tree: map<BranchId, BeamNode>
    ghost var submitted: multiset<BranchId>

    function State(): SearchState
      reads this
    {
      SearchState(beam, waiting, finished, settled, all, released)
    }

    /** Every branch is accounted for: what exists is what others left and what this search
        created and has not released. And every node in the tree is the server's answer to its own
        move. */
    ghost predicate Owned()
      reads this, client, alloc
    {
      && ValidRules(r) && r.wholeRun == client.wholeRun && client.Valid() && alloc.Valid()
      && OwnershipInv(State(), alloc.issued)
      && client.live == others + Live(State()) && others !! SetOf(all) && SetOf(all) <= client.ever
      && client.ever <= alloc.issued && log0 <= client.log && others == LiveAfter(log0)
      && TreeAnswered(tree, client.answers)
    }

    ghost predicate Valid()
      reads this, client, alloc
    {
      && Owned() && SearchInv(r, State(), level, tree, alloc.issued) && SettledOnce(submitted, settled)
      && SettledFair(r, finished, settled, client.answers)
    }

    /** A search starts with the root alone in the beam. */
    constructor (r: Rules, client: EmulatorClient, alloc: BranchIdAllocator, decisionPoint: string)
      requires ValidRules(r) && r.wholeRun == client.wholeRun && client.Valid() && alloc.Valid()
      requires client.ever <= alloc.issued
      requires Unmixed(r.rootDto) && InScope(r.wholeRun, r.rootDto, r.cfg.allowed) && decisionPoint != ""
      ensures Valid() && this.r == r && this.client == client && this.alloc == alloc
      ensures beam == [RootNode(r.rootDto, decisionPoint)] && waiting == [] && finished == [] && all == []
      ensures level == RootLevel(r.rootDto) && others == client.live && submitted == multiset{}
      ensures log0 == client.log
      ensures tree == map[]
    {
      this.r, this.client, this.alloc := r, client, alloc;
      beam, waiting, finished := [RootNode(r.rootDto, decisionPoint)], [], [];
      settled, all, released := {}, [], {};
      others, log0, level, tree, submitted := client.live, client.log, RootLevel(r.rootDto), map[], multiset{};
    }

    // ----- releasing -----------------------------------------------------------------------

    method CleanupCall(cancel: bool, ids: seq<BranchId>) returns (raised: bool, done: bool)
      requires client.Valid() && AcceptableIds(ids) && forall b :: b in ids ==> b in client.live
      modifies client
      ensures client.Valid() && !(raised && done) && client.ever == old(client.ever) && old(client.log) <= client.log
      ensures client.answers == old(client.answers)
      ensures client.live == if done && !cancel then old(client.live) - SetOf(ids) else old(client.live)
      ensures client.cancelled == if done && cancel then old(client.cancelled) + SetOf(ids) else old(client.cancelled)
    {
      raised, done := false, false;
      var expired: bool := *;
      if expired {
        return;
      }
      var reply: CleanupReply;
      if cancel {
        reply := client.CancelBranches(ids);
      } else {
        reply := client.ReleaseBranches(ids);
      }
      match reply {
        case CleanupDone => done := true;
        case CleanupRefused(unusable) => raised := unusable;
        case CleanupNotSent(unusable) => raised := unusable;
        case CleanupUncertain => raised := true;
      }
    }

    lemma OwnIdsAcceptable(ids: seq<BranchId>)
      requires Owned() && ids != [] && Distinct(ids) && SetOf(ids) <= Live(State())
      ensures AcceptableIds(ids) && forall b :: b in ids ==> b in client.live
    {
      forall i | 0 <= i < |ids| ensures ids[i] in alloc.issued && ids[i] in client.live {
        assert ids[i] in SetOf(ids);
      }
    }

    /** Releases branches of this search that still exist; they count as released exactly when
        the call succeeds. */
    method Release(ids: seq<BranchId>) returns (raised: bool, done: bool)
      requires Owned() && ids != [] && Distinct(ids) && SetOf(ids) <= Live(State())
      modifies this`released, client
      ensures Owned() && !(raised && done) && client.ever == old(client.ever)
      ensures released == if done then old(released) + SetOf(ids) else old(released)
      ensures client.cancelled == old(client.cancelled) && client.answers == old(client.answers)
    {
      OwnIdsAcceptable(ids);
      raised, done := CleanupCall(false, ids);
      if done {
        released := released + (set b | b in ids);
        assert (set b | b in ids) == SetOf(ids);
      }
    }

    /** Releases every branch that is not in play any more. */
    method ReleaseUnneeded() returns (flow: Flow)
      requires Valid() && (r.cfg.turnBoundary ==> Ids(finished) <= settled)
      modifies this`released, client
      ensures Valid() && flow in {Go, Raise, Stop(CleanupFailed)} && client.ever == old(client.ever)
      ensures flow.Go? && r.wholeRun && r.cfg.releaseOnFinish ==> Tight(State())
    {
      if !r.wholeRun || !r.cfg.releaseOnFinish {
        return Go;
      }
      var releasable := Unneeded(State());
      ReleasingUnneeded(r, State(), level, tree, alloc.issued);
      if releasable == [] {
        return Go;
      }
      if client.unusable {
        return Stop(CleanupFailed);
      }
      var raised, done := Release(releasable);
      flow := if raised then Raise else if done then Go else Stop(CleanupFailed);
    }

    /** The last step of every search, whatever happened before: what is known to exist is
        cancelled and then released. Branches of emulate requests that ended in doubt are not on
        record, so it never names them. */
    method Cleanup() returns (raised: bool, complete: bool)
      requires Owned()
      modifies this`released, client
      ensures Owned() && !(raised && complete)
      ensures complete ==> client.live == others
      ensures complete ==> (LeavesNothing(client.log, |log0|) <==> NoneInDoubt(client.log, |log0|))
      ensures complete ==> old(Live(State())) <= client.cancelled
      ensures !r.cfg.releaseOnFinish ==> !raised && client.live == old(client.live)
      ensures client.answers == old(client.answers)
    {
      raised, complete := false, false;
      var remaining := Remaining(all, released);
      assert SetOf(remaining) == Live(State());
      if remaining == [] {
        CleanIff();
        return false, true;
      }
      if !r.cfg.releaseOnFinish || client.unusable {
        return;
      }
      RemainingDistinct(all, released);
      OwnIdsAcceptable(remaining);
      var cancelled;
      raised, cancelled := CleanupCall(true, remaining);
      if raised || !cancelled || client.unusable {
        return;
      }
      raised, complete := Release(remaining);
      if complete {
        CleanIff();
      }
    }

    lemma CleanIff()
      requires Owned() && client.live == others
      ensures LeavesNothing(client.log, |log0|) <==> NoneInDoubt(client.log, |log0|)
    {
      assert client.log[..|log0|] == log0;
      LeavesNothingIff(client.log, |log0|);
    }

    // ----- settling ------------------------------------------------------------------------

    /** Fresh branches for the leaves to settle; the root gets a fresh rng as well. */
    method PlanSettling(entries: seq<Settling>) returns (pending: seq<Planned>)
      requires Owned() && Settleable(entries, Live(State())) && NoRepeatedParent(entries)
      modifies alloc
      ensures Owned() && old(alloc.issued) <= alloc.issued
      ensures SettlePlan(entries, pending, Live(State()), old(alloc.issued), alloc.issued)
    {
      pending := [];
      for i := 0 to |entries|
        invariant alloc.Valid() && old(alloc.issued) <= alloc.issued
        invariant SettlePlan(entries[..i], pending, Live(State()), old(alloc.issued), alloc.issued)
      {
        var node := entries[i].node;
        ghost var before := alloc.issued;
        var branch := alloc.NextBranchId();
        var rngId := node.rngId;
        if node.branch == ROOT_BRANCH_ID {
          rngId := alloc.NextRngId();
        }
        var p := Planned(node, entries[i].action, branch, rngId);
        SettlePlanGrows(entries, i, pending, p, Live(State()), old(alloc.issued), before, alloc.issued);
        pending := pending + [p];
      }
      assert entries[..|entries|] == entries;
    }

    /** Releases what one settle request created, on whole-run instances only. */
    method ReleaseSettled(ids: seq<BranchId>) returns (raised: bool)
      requires Owned() && ids != [] && Distinct(ids) && SetOf(ids) <= Live(State())
      modifies this`released, client
      ensures Owned() && (released == old(released) || released == old(released) + SetOf(ids))
      ensures client.ever == old(client.ever) && client.answers == old(client.answers)
    {
      if !r.wholeRun || !r.cfg.releaseOnFinish || client.unusable {
        return false;
      }
      var done;
      raised, done := Release(ids);
    }

    /** Sends one chunk of settle requests, scores what resolved and gives the branches back.
        A rejected chunk is skipped; only an unusable client ends the batch. */
    method SettleChunk(entries: seq<Settling>, pending: seq<Planned>, k: nat, c: nat,
                       scores0: map<BranchId, Settled>, ghost issued0: set<BranchId>)
      returns (raised: bool, halted: bool, scores: map<BranchId, Settled>)
      requires Owned() && SettlePlan(entries, pending, Live(State()), issued0, alloc.issued)
      requires k < c <= |pending| && (client.batchLimit.Some? ==> c - k <= client.batchLimit.value)
      requires forall j :: k <= j < c ==> pending[j].branch !in SetOf(all) && pending[j].branch !in client.ever
      requires ScoresOf(r, pending, k, client.answers, scores0)
      modifies this`all, this`released, client
      ensures Owned() && OnTheSide(old(State()), State())
      ensures SetOf(all) <= SetOf(old(all)) + SetOf(PlanIds(pending)[k..c])
      ensures client.ever <= old(client.ever) + SetOf(PlanIds(pending)[k..c])
      ensures Extends(old(client.answers), client.answers) && ScoresOf(r, pending, c, client.answers, scores)
      ensures client.answers.Keys <= old(client.answers.Keys) + SetOf(PlanIds(pending)[k..c])
    {
      scores := scores0;
      var sent, results;
      raised, halted, sent, results := SendSettling(entries, pending, k, c, issued0);
      ScoresKept(r, pending, k, c, old(client.answers), client.answers, scores0);
      if !sent {
        ScoresLater(r, pending, k, c, client.answers, scores0);
      } else {
        scores := ScoreSettled(r, pending, k, c, results, scores0, client.answers);
        ghost var middle := State();
        ChunkIds(pending, k, c);
        raised := ReleaseSettled(PlanIds(pending)[k..c]);
        ReleasedAside(old(State()), middle, PlanIds(pending)[k..c], State());
      }
    }

    /** One request for the moves from `k` up to `c`. */
    method AskFor(pending: seq<Planned>, k: nat, c: nat) returns (reply: EmulateReply)
      requires client.Valid() && k < c <= |pending| && Distinct(PlanIds(pending))
      requires client.batchLimit.Some? ==> c - k <= client.batchLimit.value
      requires forall j :: k <= j < c ==> ItemWellFormed(ItemFor(pending[j])) && pending[j].branch !in client.ever
      requires forall j :: k <= j < c ==>
        pending[j].node.branch == ROOT_BRANCH_ID || pending[j].node.branch in client.live
      modifies client
      ensures client.Valid() && old(client.log) <= client.log
      ensures client.live == old(client.live) + if reply.Results? then SetOf(PlanIds(pending)[k..c]) else {}
      ensures old(client.ever) <= client.ever <= old(client.ever) + SetOf(PlanIds(pending)[k..c])
      ensures Extends(old(client.answers), client.answers)
      ensures client.answers.Keys <= old(client.answers.Keys) + SetOf(PlanIds(pending)[k..c])
      ensures if reply.Results? then Heard(pending, k, c, reply.results, client.answers)
              else forall j :: k <= j < c ==> pending[j].branch !in client.answers
    {
      ChunkIsAcceptable(pending, client.live, client.ever, k, c, client.batchLimit);
      reply := client.EmulateActions(ItemsFor(pending[k..c]));
      if reply.Results? {
        HeardChunk(pending, k, c, reply.results, client.answers);
      }
    }

    /** Sends one chunk and puts what it created on record. */
    method SendSettling(entries: seq<Settling>, pending: seq<Planned>, k: nat, c: nat, ghost issued0: set<BranchId>)
      returns (raised: bool, halted: bool, sent: bool, results: map<BranchId, BranchResult>)
      requires Owned() && SettlePlan(entries, pending, Live(State()), issued0, alloc.issued)
      requires k < c <= |pending| && (client.batchLimit.Some? ==> c - k <= client.batchLimit.value)
      requires forall j :: k <= j < c ==> pending[j].branch !in SetOf(all) && pending[j].branch !in client.ever
      modifies this`all, client
      ensures Owned() && OnTheSide(old(State()), State())
      ensures client.ever <= old(client.ever) + SetOf(PlanIds(pending)[k..c])
      ensures all == if sent then old(all) + PlanIds(pending)[k..c] else old(all)
      ensures sent ==> !raised && !halted && SetOf(PlanIds(pending)[k..c]) <= Live(State())
      ensures SetOf(PlanIds(pending)[k..c]) !! SetOf(old(all))
      ensures Extends(old(client.answers), client.answers)
      ensures client.answers.Keys <= old(client.answers.Keys) + SetOf(PlanIds(pending)[k..c])
      ensures if sent then Heard(pending, k, c, results, client.answers)
              else forall j :: k <= j < c ==> pending[j].branch !in client.answers
    {
      raised, halted, sent, results := false, false, false, map[];
      ghost var before, answers := State(), client.answers;
      ChunkIsNew(before, entries, pending, k, c, issued0, alloc.issued);
      CreatedOwnership(before, alloc.issued, PlanIds(pending)[k..c], alloc.issued);
      var reply := AskFor(pending, k, c);
      AnsweredLater(tree, answers, client.answers);
      if reply.Results? {
        all := all + PlanIds(pending)[k..c];
        assert State() == Created(before, PlanIds(pending)[k..c]);
        sent, results := true, reply.results;
      } else if reply.OtherError? {
        raised := true;
      } else {
        halted := client.unusable;
      }
    }

    /** One more chunk of a settle batch. */
    method SettleNext(entries: seq<Settling>, plan: seq<Planned>, k: nat, c: nat, scores0: map<BranchId, Settled>,
                      ghost before: SearchState, ghost issued0: set<BranchId>, ghost ever0: set<BranchId>,
                      ghost heard0: set<BranchId>)
      returns (raised: bool, halted: bool, scores: map<BranchId, Settled>)
      requires Owned() && SettleProgress(before, State(), entries, plan, k, issued0, alloc.issued)
      requires SettleUse(plan, k, issued0, ever0, client.ever, heard0, client.answers.Keys)
      requires k < c <= |plan| && (client.batchLimit.Some? ==> c - k <= client.batchLimit.value)
      requires SetOf(before.all) + ever0 <= issued0 <= alloc.issued
      requires ScoresOf(r, plan, k, client.answers, scores0)
      modifies this`all, this`released, client
      ensures Owned() && SettleProgress(before, State(), entries, plan, c, issued0, alloc.issued)
      ensures SettleUse(plan, c, issued0, ever0, client.ever, heard0, client.answers.Keys)
      ensures Extends(old(client.answers), client.answers) && ScoresOf(r, plan, c, client.answers, scores)
    {
      LaterIdsUnused(before, State(), entries, plan, k, c, issued0, alloc.issued, ever0, client.ever);
      raised, halted, scores := SettleChunk(entries, plan, k, c, scores0, issued0);
      SettleProgressStep(before, old(State()), State(), entries, plan, k, c, issued0, alloc.issued);
      SettleUseStep(plan, k, c, issued0, alloc.issued, ever0, old(client.ever), client.ever, heard0,
                    old(client.answers.Keys), client.answers.Keys);
    }

    /** Plays the forced End Turn of each entry and scores where it lands, in chunks that fit
        the server limit and, where there is a budget of active branches, the free slots. Only
        branches created here are created or released. */
    method SettleBatch(entries: seq<Settling>)
      returns (raised: bool, scores: map<BranchId, Settled>, ghost pending: seq<Planned>, ghost sent: nat)
      requires Owned() && Settleable(entries, Live(State())) && NoRepeatedParent(entries)
      modifies this`all, this`released, this`submitted, client, alloc
      ensures Owned() && OnTheSide(old(State()), State()) && old(alloc.issued) <= alloc.issued
      ensures SettlePlan(entries, pending, Live(State()), old(alloc.issued), alloc.issued)
      ensures client.ever * old(alloc.issued) <= old(client.ever)
      ensures sent <= |entries| && submitted == old(submitted) + multiset(Parents(entries)[..sent])
      ensures Extends(old(client.answers), client.answers) && ScoresOf(r, pending, sent, client.answers, scores)
      ensures client.answers.Keys <= old(client.answers.Keys) + SetOf(PlanIds(pending)[..sent])
    {
      ghost var before, issued0, ever0 := State(), alloc.issued, client.ever;
      var plan := PlanSettling(entries);
      pending := plan;
      ghost var issued := alloc.issued;
      var batchSize := SettleBatchSize(r.cfg, r.wholeRun, client.batchLimit, |Remaining(all, released)|);
      raised, scores, sent := false, map[], 0;
      var k := 0;
      while k < |plan|
        invariant k <= |plan| && Owned() && alloc.issued == issued
        invariant SettleProgress(before, State(), entries, plan, k, issued0, issued)
        invariant SettleUse(plan, k, issued0, ever0, client.ever, old(client.answers.Keys), client.answers.Keys)
        invariant submitted == old(submitted) + multiset(Parents(entries)[..k]) && sent == k
        invariant Extends(old(client.answers), client.answers) && ScoresOf(r, plan, k, client.answers, scores)
      {
        var expired: bool := *;
        if expired {
          return;
        }
        var c := if k + batchSize < |plan| then k + batchSize else |plan|;
        SubmittedStep(old(submitted), Parents(entries), k, c);
        submitted := submitted + multiset(Parents(entries)[k..c]);
        sent := c;
        var halted;
        raised, halted, scores := SettleNext(entries, plan, k, c, scores, before, issued0, ever0,
                                             old(client.answers.Keys));
        if raised || halted {
          return;
        }
        k := c;
      }
    }

    /** Marks every leaf as submitted and picks those that a forced End Turn settles. */
    method GatherPending() returns (positions: seq<nat>, entries: seq<Settling>)
      requires DistinctNodes(finished)
      modifies this`settled
      ensures settled == old(settled) + Ids(finished)
      ensures Picked(finished, old(settled), r.rootDto.turn, |finished|, positions, entries)
    {
      positions, entries := [], [];
      assert Ids(finished[..0]) == {};
      for i := 0 to |finished|
        invariant settled == old(settled) + Ids(finished[..i])
        invariant Picked(finished, old(settled), r.rootDto.turn, i, positions, entries)
      {
        var node := finished[i];
        NextLeaf(finished, i);
        PickedStep(finished, old(settled), r.rootDto.turn, i, positions, entries);
        if node.branch !in settled {
          settled := settled + {node.branch};
          var action := SettleAction(node, r.rootDto.turn);
          if action.Some? {
            positions, entries := positions + [i], entries + [Settling(node, action.value)];
          }
        }
      }
      assert finished[..|finished|] == finished;
    }

    /** Gives the picked leaves their settled scores, in place. */
    method Rescore(positions: seq<nat>, entries: seq<Settling>, scores: map<BranchId, Settled>)
      requires |entries| == |positions| && Increasing(positions, |finished|)
      requires forall j :: 0 <= j < |positions| ==> entries[j].node == finished[positions[j]]
      modifies this`finished
      ensures RescoredAt(old(finished), finished, positions, scores)
    {
      for j := 0 to |positions|
        invariant |finished| == |old(finished)|
        invariant RescoredAt(old(finished), finished, positions[..j], scores)
      {
        assert positions[..j + 1] == positions[..j] + [positions[j]];
        assert positions[j] !in positions[..j];
        var branch := entries[j].node.branch;
        if branch in scores {
          finished := finished[positions[j] := finished[positions[j]].(value := scores[branch].score)];
        }
      }
      assert positions[..|positions|] == positions;
    }

    /** Settles every leaf that has not been submitted yet. Each leaf is submitted at most once
        over a whole search, only while its branch exists, and afterwards it either carries the
        value of the state its End Turn led to or keeps its score. */
    method SettlePending()
      returns (raised: bool, ghost positions: seq<nat>, ghost pending: seq<Planned>, ghost sent: nat)
      requires Valid() && r.cfg.turnBoundary
      modifies this`finished, this`settled, this`all, this`released, this`submitted, client, alloc
      ensures Valid() && settled == old(settled) + Ids(finished) && old(alloc.issued) <= alloc.issued
      ensures client.ever * old(alloc.issued) <= old(client.ever)
      ensures raised ==> finished == old(finished)
      ensures !raised ==>
        SettledValues(r, old(finished), finished, old(settled), positions, pending, client.answers, sent)
    {
      ghost var before := State();
      var at, entries := MarkPending();
      positions := at;
      var scores;
      raised, scores, pending, sent := SettleInPlace(entries);
      SubmittedStaysOnce(old(submitted), old(settled), finished, entries, at, r.rootDto.turn, sent);
      FinishedFair(r, before, client.answers);
      if raised {
        return;
      }
      RescoreInPlace(at, entries, scores);
      SettledAre(r, old(finished), finished, old(settled), at, entries, pending, client.answers, scores,
                 sent);
      SettlingIsFair(r, before, finished, at, pending, client.answers, sent);
    }

    /** Marks every leaf as submitted; those that have to end their turn can be named. */
    method MarkPending() returns (positions: seq<nat>, entries: seq<Settling>)
      requires Owned() && SearchInv(r, State(), level, tree, alloc.issued) && r.cfg.turnBoundary
      modifies this`settled
      ensures Owned() && SearchInv(r, State(), level, tree, alloc.issued)
      ensures settled == old(settled) + Ids(finished)
      ensures Picked(finished, old(settled), r.rootDto.turn, |finished|, positions, entries)
      ensures Settleable(entries, Live(State())) && NoRepeatedParent(entries)
    {
      ghost var before := State();
      positions, entries := GatherPending();
      MarkedKeepsInv(r, before, level, tree, alloc.issued);
      PickedSettleable(r, before, level, tree, alloc.issued, positions, entries);
      assert State() == Marked(before);
    }

    /** A settle batch leaves the frontier in order. */
    method SettleInPlace(entries: seq<Settling>)
      returns (raised: bool, scores: map<BranchId, Settled>, ghost pending: seq<Planned>, ghost sent: nat)
      requires Owned() && SearchInv(r, State(), level, tree, alloc.issued)
      requires Settleable(entries, Live(State())) && NoRepeatedParent(entries)
      modifies this`all, this`released, this`submitted, client, alloc
      ensures Owned() && SearchInv(r, State(), level, tree, alloc.issued) && old(alloc.issued) <= alloc.issued
      ensures |pending| == |entries| && Distinct(PlanIds(pending)) && DistinctParents(pending)
      ensures forall j :: 0 <= j < |pending| ==>
        pending[j].node == entries[j].node && pending[j].action == entries[j].action && KeepsStream(pending[j])
      ensures client.ever * old(alloc.issued) <= old(client.ever)
      ensures sent <= |entries| && submitted == old(submitted) + multiset(Parents(entries)[..sent])
      ensures ScoresOf(r, pending, sent, client.answers, scores)
      ensures Extends(old(client.answers), client.answers)
      ensures forall f, marked :: SettledFair(r, f, marked, old(client.answers)) ==>
        SettledFair(r, f, marked, client.answers)
    {
      ghost var before, issued, answers := State(), alloc.issued, client.answers;
      raised, scores, pending, sent := SettleBatch(entries);
      forall f, marked | SettledFair(r, f, marked, answers) ensures SettledFair(r, f, marked, client.answers) {
        SettledFairLater(r, f, marked, answers, client.answers);
      }
      OnTheSideKeepsInv(r, before, level, tree, issued, State(), alloc.issued);
    }

    method RescoreInPlace(positions: seq<nat>, entries: seq<Settling>, scores: map<BranchId, Settled>)
      requires Owned() && SearchInv(r, State(), level, tree, alloc.issued) && r.cfg.turnBoundary
      requires Ids(finished) <= settled
      requires |entries| == |positions| && Increasing(positions, |finished|)
      requires forall j :: 0 <= j < |positions| ==> entries[j].node == finished[positions[j]]
      modifies this`finished
      ensures Owned() && SearchInv(r, State(), level, tree, alloc.issued)
      ensures RescoredAt(old(finished), finished, positions, scores) && Ids(finished) == Ids(old(finished))
    {
      ghost var before := State();
      Rescore(positions, entries, scores);
      RescoredIsRescored(before, finished, positions, scores);
      RescoredKeepsInv(r, before, level, tree, alloc.issued, finished);
    }

    // ----- one ply -------------------------------------------------------------------------

    /** Beam nodes outside the search's scope leave the beam: resolved ones become leaves. On
        whole-run instances there are none. */
    method FilterSearchable()
      requires Valid()
      modifies this`beam, this`finished
      ensures Valid() && beam == Filtered(old(beam), InRules(r))
      ensures finished == old(finished) + Filtered(old(beam), ResolvedOutside(r))
      ensures r.wholeRun ==> beam == old(beam)
    {
      var searchable, moved := SplitScope(r, beam);
      FilteredTaken(r, State(), searchable, moved);
      MovedKeepsInv(r, State(), level, tree, alloc.issued, searchable, waiting, moved);
      if r.wholeRun {
        FilteredAll(beam, InRules(r));
      }
      SettledFairJoined(r, finished, moved, settled, client.answers);
      beam, finished := searchable, finished + moved;
      assert State() == Moved(old(State()), searchable, waiting, moved);
    }

    /** Plans the next branches. Nodes without candidates leave the beam, the resolved ones as
        leaves; every other node has a planned branch. */
    method Propose() returns (raised: bool, plan: seq<Planned>, ghost exhausted: seq<BeamNode>)
      requires Valid() && forall n :: n in beam ==> Searchable(n.dto, r.cfg.allowed)
      modifies this`beam, this`finished, alloc
      ensures Valid() && old(alloc.issued) <= alloc.issued
      ensures !raised ==> SoundPlans(r, beam, plan, old(alloc.issued), alloc.issued)
      ensures !raised ==> Ids(beam) == PlannedParents(plan)
      ensures !raised ==> Divided(old(beam), |old(beam)|, plan, exhausted)
      ensures !raised ==> beam == Excluding(old(beam), Ids(exhausted))
      ensures !raised ==> finished == old(finished) + ResolvedOnly(exhausted)
      ensures !raised ==> Ids(beam) == Ids(old(beam)) - Ids(exhausted)
    {
      var dropped;
      raised, plan, dropped := AskPolicy();
      exhausted := dropped;
      if !raised {
        DropExhausted(plan, dropped, old(alloc.issued));
      }
    }

    method AskPolicy() returns (raised: bool, plan: seq<Planned>, dropped: seq<BeamNode>)
      requires Valid() && forall n :: n in beam ==> Searchable(n.dto, r.cfg.allowed)
      modifies alloc
      ensures Valid() && old(alloc.issued) <= alloc.issued
      ensures !raised ==> SoundPlans(r, beam, plan, old(alloc.issued), alloc.issued)
      ensures !raised ==> Divided(beam, |beam|, plan, dropped)
    {
      forall i | 0 <= i < |beam| ensures SoundNode(r, beam[i]) && Searchable(beam[i].dto, r.cfg.allowed) {
        assert beam[i] in beam && HeldNode(r, Live(State()), beam[i]);
      }
      ghost var answers;
      raised, plan, dropped, answers := ProposeFrontier(alloc, r, beam);
    }

    method DropExhausted(ghost plan: seq<Planned>, dropped: seq<BeamNode>, ghost issued0: set<BranchId>)
      requires Valid()
      requires SoundPlans(r, beam, plan, issued0, alloc.issued) && Divided(beam, |beam|, plan, dropped)
      modifies this`beam, this`finished
      ensures Valid() && SoundPlans(r, beam, plan, issued0, alloc.issued) && Ids(beam) == PlannedParents(plan)
      ensures beam == Excluding(old(beam), Ids(dropped)) && finished == old(finished) + ResolvedOnly(dropped)
      ensures Ids(beam) == Ids(old(beam)) - Ids(dropped)
    {
      ProposedKeepsInv(r, State(), level, tree, alloc.issued, plan, dropped, issued0);
      SettledFairJoined(r, finished, ResolvedOnly(dropped), settled, client.answers);
      beam, finished := Excluding(beam, Ids(dropped)), finished + ResolvedOnly(dropped);
      assert State() == Moved(old(State()), beam, waiting, ResolvedOnly(dropped));
    }

    /** Fits the frontier into the budget of active branches. A frontier that had to be cut is
        settled and released down to what is in play before anything is sent. */
    method Fit(plan: seq<Planned>, ghost issued0: set<BranchId>, ghost spare: seq<BeamNode>)
      returns (flow: Flow, fitted: seq<Planned>)
      requires Valid() && SoundPlans(r, beam, plan, issued0, alloc.issued) && Ids(beam) == PlannedParents(plan)
      requires client.ever <= issued0 && (r.wholeRun && r.cfg.releaseOnFinish ==> Near(State(), Ids(spare)))
      modifies this`beam, this`waiting, this`finished, this`settled, this`all, this`released, this`submitted
      modifies client, alloc
      ensures Valid() && old(alloc.issued) <= alloc.issued
      ensures flow in {Go, Raise, Stop(CleanupFailed)}
      ensures SoundPlans(r, beam, fitted, issued0, alloc.issued) && client.ever !! SetOf(PlanIds(fitted))
      ensures FitsBudget(ActiveCapacity(r.wholeRun, client.batchLimit), beam, waiting, fitted)
      ensures flow.Go? && r.wholeRun && r.cfg.releaseOnFinish ==> Near(State(), Ids(spare))
    {
      var f := PlanFit(plan, issued0);
      ApplyFit(plan, issued0, f);
      flow, fitted := Go, f.plan;
      if f.limited {
        flow := MakeRoom(fitted, issued0);
      }
    }

    method PlanFit(plan: seq<Planned>, ghost issued0: set<BranchId>) returns (f: BeamPlan.Fit)
      requires Valid() && SoundPlans(r, beam, plan, issued0, alloc.issued) && Ids(beam) == PlannedParents(plan)
      ensures Fitted(beam, waiting, plan, f)
      ensures FitsBudget(ActiveCapacity(r.wholeRun, client.batchLimit), f.beam, f.waiting, f.plan)
    {
      f := FitToCapacity(ActiveCapacity(r.wholeRun, client.batchLimit), beam, waiting, plan);
    }

    /** Settling and releasing leaves a planned ply as sound as it was. */
    method MakeRoom(ghost plan: seq<Planned>, ghost issued0: set<BranchId>) returns (flow: Flow)
      requires Valid() && SoundPlans(r, beam, plan, issued0, alloc.issued)
      requires SetOf(PlanIds(plan)) <= alloc.issued && client.ever !! SetOf(PlanIds(plan))
      modifies this`finished, this`settled, this`all, this`released, this`submitted, client, alloc
      ensures Valid() && old(alloc.issued) <= alloc.issued
      ensures SoundPlans(r, beam, plan, issued0, alloc.issued) && client.ever !! SetOf(PlanIds(plan))
      ensures flow in {Go, Raise, Stop(CleanupFailed)}
      ensures flow.Go? && r.wholeRun && r.cfg.releaseOnFinish ==> Tight(State())
    {
      ghost var issued := alloc.issued;
      flow := SettleAndRelease();
      SoundPlansLater(r, beam, plan, issued0, issued, alloc.issued);
    }

    method ApplyFit(ghost plan: seq<Planned>, ghost issued0: set<BranchId>, f: BeamPlan.Fit)
      requires Valid() && SoundPlans(r, beam, plan, issued0, alloc.issued)
      requires client.ever <= issued0 && Fitted(beam, waiting, plan, f)
      modifies this`beam, this`waiting, this`finished
      ensures Valid() && beam == f.beam && waiting == f.waiting && finished == old(finished) + f.finished
      ensures SoundPlans(r, beam, f.plan, issued0, alloc.issued)
      ensures SetOf(PlanIds(f.plan)) <= alloc.issued && client.ever !! SetOf(PlanIds(f.plan))
      ensures !f.limited ==> Ids(beam) == Ids(old(beam)) && Ids(waiting) == Ids(old(waiting))
    {
      FittedKeepsInv(r, State(), level, tree, alloc.issued, plan, issued0, f);
      PlanIsUnused(r, f.beam, f.plan, issued0, alloc.issued, client.ever);
      SettledFairJoined(r, finished, f.finished, settled, client.answers);
      beam, waiting, finished := f.beam, f.waiting, finished + f.finished;
      assert State() == Moved(old(State()), f.beam, f.waiting, f.finished);
    }

    /** What ends a ply, and what precedes an overfull one: leaves are settled while their
        branches still exist, then everything that is not in play is released. */
    method SettleAndRelease() returns (flow: Flow)
      requires Valid()
      modifies this`finished, this`settled, this`all, this`released, this`submitted, client, alloc
      ensures Valid() && old(alloc.issued) <= alloc.issued
      ensures client.ever * old(alloc.issued) <= old(client.ever)
      ensures flow in {Go, Raise, Stop(CleanupFailed)}
      ensures flow.Go? && r.wholeRun && r.cfg.releaseOnFinish ==> Tight(State())
    {
      if r.cfg.turnBoundary {
        ghost var positions, pending, sent;
        var raised;
        raised, positions, pending, sent := SettlePending();
        if raised {
          return Raise;
        }
      }
      flow := ReleaseUnneeded();
    }

    /** Emulates the planned branches. Whatever was created is on record, also when the batch
        stops early; the attempts are sound and belong to this beam. */
    method Emulate(plan: seq<Planned>, ghost issued0: set<BranchId>)
      returns (meta: seq<Planned>, results: map<BranchId, BranchResult>, fatal: Option<Fatal>,
               ghost created: seq<BranchId>, retryFaults: nat)
      requires Valid() && SoundPlans(r, beam, plan, issued0, alloc.issued) && others <= issued0
      requires client.ever !! SetOf(PlanIds(plan))
      modifies this`all, client, alloc
      ensures Valid() && old(alloc.issued) <= alloc.issued
      ensures all == old(all) + created && Live(State()) == old(Live(State())) + SetOf(created)
      ensures Attempted(r, State(), level, tree, meta, results) && MetaAnswered(meta, results, client.answers)
      ensures fatal.None? ==> |created| == |plan| + retryFaults && |meta| == |plan|
      ensures fatal.None? ==> forall i :: 0 <= i < |plan| ==> SameItem(meta[i], plan[i])
    {
      ghost var before, answers := State(), client.answers;
      var more;
      meta, results, more, fatal, retryFaults := EmulatePlan(plan, issued0);
      created := more;
      AnsweredLater(tree, answers, client.answers);
      SettledFairLater(r, finished, settled, answers, client.answers);
      SetOfAppend(all, more);
      all := all + more;
      assert State() == Created(before, created);
      assert NewAttempts(r, State(), level, tree, meta, SetOf(created));
    }

    /** The depth batch of a plan, before it is on record. */
    method EmulatePlan(plan: seq<Planned>, ghost issued0: set<BranchId>)
      returns (meta: seq<Planned>, results: map<BranchId, BranchResult>, created: seq<BranchId>, fatal: Option<Fatal>,
               retryFaults: nat)
      requires Valid() && SoundPlans(r, beam, plan, issued0, alloc.issued) && others <= issued0
      requires client.ever !! SetOf(PlanIds(plan))
      modifies client, alloc
      ensures client.Valid() && alloc.Valid() && old(alloc.issued) <= alloc.issued
      ensures client.live == old(client.live) + SetOf(created) && old(client.log) <= client.log
      ensures old(client.ever) + SetOf(created) <= client.ever <= alloc.issued && old(client.ever) !! SetOf(created)
      ensures Extends(old(client.answers), client.answers) && MetaAnswered(meta, results, client.answers)
      ensures SearchInv(r, Created(State(), created), level, tree, alloc.issued) && ReadableUnmixed(results)
      ensures Live(Created(State(), created)) == Live(State()) + SetOf(created)
      ensures NewAttempts(r, Created(State(), created), level, tree, meta, SetOf(created))
      ensures fatal.None? ==> |created| == |plan| + retryFaults && |meta| == |plan|
      ensures fatal.None? ==> forall i :: 0 <= i < |plan| ==> SameItem(meta[i], plan[i])
    {
      ghost var ever, issued := client.ever, alloc.issued;
      PlanIdsUnused(plan, client.ever);
      PlanIsSubmittable(r, State(), level, tree, issued, plan, issued0, others);
      ghost var positions, tries;
      meta, positions, results, created, tries, fatal, retryFaults := EmulateDepthBatch(client, alloc, r.cfg, plan);
      BatchKeepsInv(r, State(), level, tree, issued, plan, issued0, meta, positions, results, created, tries, ever,
                    alloc.issued);
    }

    method EmulateWithin(plan: seq<Planned>, ghost issued0: set<BranchId>, ghost spare: seq<BeamNode>)
      returns (meta: seq<Planned>, results: map<BranchId, BranchResult>, fatal: Option<Fatal>, ghost record: PlyRecord)
      requires Valid() && SoundPlans(r, beam, plan, issued0, alloc.issued) && others <= issued0
      requires client.ever !! SetOf(PlanIds(plan))
      requires FitsBudget(ActiveCapacity(r.wholeRun, client.batchLimit), beam, waiting, plan)
      modifies this`all, client, alloc
      ensures Valid() && old(alloc.issued) <= alloc.issued
      ensures Attempted(r, State(), level, tree, meta, results) && MetaAnswered(meta, results, client.answers)
      ensures record.exhausted == |spare| && record.live == |Live(State())| && record.complete == fatal.None?
      ensures old(Near(State(), Ids(spare))) ==> WithinCapacity(ActiveCapacity(r.wholeRun, client.batchLimit), record)
    {
      ghost var created;
      var retryFaults;
      meta, results, fatal, created, retryFaults := Emulate(plan, issued0);
      if old(Near(State(), Ids(spare))) {
        LiveAfterPly(old(State()), spare, created);
      }
      record := PlyRecord(|spare|, retryFaults, fatal.None?, |Live(State())|);
    }

    /** Emulates the planned branches, scores what came back and moves the frontier on. A beam
        left empty leaves nobody waiting, so there is never a waiting frontier to fall back to. */
    method Expand(plan: seq<Planned>, ghost issued0: set<BranchId>, ghost spare: seq<BeamNode>)
      returns (flow: Flow, counted: bool, ghost record: PlyRecord)
      requires Valid() && SoundPlans(r, beam, plan, issued0, alloc.issued) && others <= issued0
      requires client.ever !! SetOf(PlanIds(plan))
      requires FitsBudget(ActiveCapacity(r.wholeRun, client.batchLimit), beam, waiting, plan)
      modifies this`beam, this`waiting, this`finished, this`all, this`level, this`tree, client, alloc
      ensures Valid() && old(alloc.issued) <= alloc.issued
      ensures flow.Go? ==> beam != [] && PliesLeft(r.cfg, level) < PliesLeft(r.cfg, old(level))
      ensures Deepened(old(tree), tree, flow, counted) && (counted ==> record.complete)
      ensures record.exhausted == |spare|
      ensures old(Near(State(), Ids(spare))) ==> WithinCapacity(ActiveCapacity(r.wholeRun, client.batchLimit), record)
    {
      var meta, results, fatal;
      meta, results, fatal, record := EmulateWithin(plan, issued0, spare);
      if fatal == Some(Raised) {
        flow, counted := Raise, false;
        NotDeepened(tree, flow);
      } else {
        flow, counted := Advance(meta, results, fatal);
      }
    }

    method Advance(meta: seq<Planned>, results: map<BranchId, BranchResult>, fatal: Option<Fatal>)
      returns (flow: Flow, counted: bool)
      requires Valid() && Attempted(r, State(), level, tree, meta, results) && fatal != Some(Raised)
      requires MetaAnswered(meta, results, client.answers)
      modifies this`beam, this`waiting, this`finished, this`level, this`tree
      ensures Valid() && (counted ==> fatal.None?)
      ensures flow.Go? ==> beam != [] && PliesLeft(r.cfg, level) < PliesLeft(r.cfg, old(level))
      ensures Deepened(old(tree), tree, flow, counted)
      ensures StopsFor(r, meta, results, fatal, flow)
    {
      var p := TakePly(meta, results);
      PlyStopsFor(r, meta, results, old(waiting), p, fatal);
      flow := AfterPly(p, fatal);
      counted := p.NextFrontier? && fatal.None?;
      PlyDeepens(p, fatal, old(tree), tree);
    }

    method TakePly(meta: seq<Planned>, results: map<BranchId, BranchResult>) returns (p: PlyResult)
      requires Valid() && Attempted(r, State(), level, tree, meta, results)
      requires MetaAnswered(meta, results, client.answers)
      modifies this`beam, this`waiting, this`finished, this`level, this`tree
      ensures Valid()
      ensures p.NextFrontier? ==> FrontierOf(r, meta, results, old(waiting), p)
      ensures p.NothingInScope? ==> SomeOutOfScope(r, results)
      ensures p.NextFrontier? ==> beam == p.beam && waiting == p.waiting && finished == old(finished) + p.leaves
      ensures p.NextFrontier? && p.beam == [] ==> p.waiting == []
      ensures p.NextFrontier? && p.beam != [] ==> PliesLeft(r.cfg, level) < PliesLeft(r.cfg, old(level))
      ensures if p.NextFrontier? then OneDeeper(old(tree), tree) else tree == old(tree)
    {
      ghost var level', tree';
      p, level', tree' := JudgePly(r, meta, results, waiting, State(), level, tree, alloc.issued);
      if p.NextFrontier? {
        AttemptsDistinct(r, State(), level, tree, meta, results);
        GraftAnswered(r, meta, results, tree, client.answers);
        Replace(p.beam, p.waiting, p.leaves, level', tree');
      }
    }

    method Replace(beam': seq<BeamNode>, waiting': seq<BeamNode>, leaves: seq<BeamNode>,
                   ghost level': Level, ghost tree': map<BranchId, BeamNode>)
      requires Owned() && SettledOnce(submitted, settled)
      requires SearchInv(r, Advanced(State(), beam', waiting', leaves), level', tree', alloc.issued)
      requires TreeAnswered(tree', client.answers)
      requires settled <= Ids(finished) && SettledFair(r, finished, settled, client.answers)
      modifies this`beam, this`waiting, this`finished, this`level, this`tree
      ensures Valid() && beam == beam' && waiting == waiting' && finished == old(finished) + leaves
      ensures level == level' && tree == tree'
    {
      ghost var target := Advanced(State(), beam', waiting', leaves);
      SettledFairJoined(r, finished, leaves, settled, client.answers);
      beam, waiting, finished := beam', waiting', finished + leaves;
      level, tree := level', tree';
      assert State() == target;
    }

    /** One round of the loop. When it goes on, the frontier is strictly closer to the end and,
        on whole-run instances that release, holds every branch that exists. */
    method Ply() returns (flow: Flow, counted: bool, ghost record: Option<PlyRecord>)
      requires Valid() && (r.wholeRun && r.cfg.releaseOnFinish ==> Tight(State()))
      modifies this, client, alloc
      ensures Valid()
      ensures flow.Go? ==> beam != [] && PliesLeft(r.cfg, level) < PliesLeft(r.cfg, old(level))
      ensures flow.Go? && r.wholeRun && r.cfg.releaseOnFinish ==> Tight(State())
      ensures record.Some? && r.wholeRun && r.cfg.releaseOnFinish ==>
        WithinCapacity(client.batchLimit, record.value)
      ensures Deepened(old(tree), tree, flow, counted) && (counted ==> record.Some? && record.value.complete)
    {
      record, counted := None, false;
      ghost var issued0, exhausted;
      var plan;
      flow, plan, exhausted, issued0 := PlanPly();
      if !flow.Go? {
        NotDeepened(tree, flow);
        return;
      }
      ghost var done;
      flow, counted, done := Expand(plan, issued0, exhausted);
      record := Some(done);
      if flow.Go? {
        flow := SettleAndRelease();
      }
    }

    /** The first half of a ply: what is in scope, what the policy proposes for it, and what of
        that fits the budget. */
    method PlanPly()
      returns (flow: Flow, plan: seq<Planned>, ghost exhausted: seq<BeamNode>, ghost issued0: set<BranchId>)
      requires Valid() && (r.wholeRun && r.cfg.releaseOnFinish ==> Tight(State()))
      modifies this`beam, this`waiting, this`finished, this`settled, this`all, this`released, this`submitted
      modifies client, alloc
      ensures Valid()
      ensures flow.Stop? ==> !flow.reason.EmulationStopped?
      ensures flow.Go? ==> plan != [] && others <= issued0
      ensures flow.Go? ==> SoundPlans(r, beam, plan, issued0, alloc.issued) && client.ever !! SetOf(PlanIds(plan))
      ensures flow.Go? ==> FitsBudget(ActiveCapacity(r.wholeRun, client.batchLimit), beam, waiting, plan)
      ensures flow.Go? && r.wholeRun && r.cfg.releaseOnFinish ==> Near(State(), Ids(exhausted))
    {
      plan, exhausted, issued0 := [], [], alloc.issued;
      var expired: bool := *;
      if expired {
        flow := Stop(TimeBudgetReached);
        return;
      }
      FilterSearchable();
      if beam == [] {
        flow := Stop(NotBeamSearchable);
        return;
      }
      var raised;
      raised, plan, exhausted := Propose();
      if raised {
        flow := Raise;
        return;
      }
      if plan == [] {
        flow := Stop(NoCandidates);
        return;
      }
      flow, plan := Fit(plan, issued0, exhausted);
      if flow.Go? && plan == [] {
        flow := Stop(ActiveBranchCapacity);
      }
    }

    /** The loop of the search: it ends, after no more plies than the depth and continuation
        limits allow from where it starts, whatever the emulator, the policy and the pruner
        answer. */
    method Loop() returns (flow: Flow, depths: nat, ghost plies: seq<PlyRecord>)
      requires Valid() && tree == map[] && (r.wholeRun && r.cfg.releaseOnFinish ==> Tight(State()))
      modifies this, client, alloc
      ensures Valid() && !flow.Go?
      ensures depths <= |plies| <= PliesLeft(r.cfg, old(level))
      ensures flow.Stop? ==> flow.reason != EmulationStopped(Raised)
      ensures flow.Stop? ==> TreeWithin(tree, DepthReached(flow.reason, depths))
      ensures r.wholeRun && r.cfg.releaseOnFinish ==> forall p :: p in plies ==> WithinCapacity(client.batchLimit, p)
    {
      depths, plies := 0, [];
      while beam != []
        invariant Valid() && (r.wholeRun && r.cfg.releaseOnFinish ==> Tight(State()))
        invariant |plies| + PliesLeft(r.cfg, level) <= PliesLeft(r.cfg, old(level))
        invariant depths <= |plies| && TreeWithin(tree, depths)
        invariant r.wholeRun && r.cfg.releaseOnFinish ==>
          forall p :: p in plies ==> WithinCapacity(client.batchLimit, p)
        decreases PliesLeft(r.cfg, level)
      {
        SomePliesLeft(r.cfg, level);
        var counted;
        ghost var record;
        flow, counted, record := Ply();
        if counted {
          depths := depths + 1;
        }
        if record.Some? {
          plies := plies + [record.value];
        }
        if !flow.Go? {
          return;
        }
      }
      flow := Stop(MaxDepth);
    }

    /** After the loop, whatever is still in play and resolved is a leaf too. */
    method CollectLeaves()
      requires Valid()
      modifies this`beam, this`waiting, this`finished
      ensures Valid() && beam == [] && waiting == []
      ensures finished == old(finished) + old(waiting) + ResolvedOnly(old(beam))
    {
      CollectedTaken(State());
      MovedKeepsInv(r, State(), level, tree, alloc.issued, [], [], waiting + ResolvedOnly(beam));
      ghost var target := Moved(State(), [], [], waiting + ResolvedOnly(beam));
      assert finished + waiting + ResolvedOnly(beam) == finished + (waiting + ResolvedOnly(beam));
      SettledFairJoined(r, finished, waiting + ResolvedOnly(beam), settled, client.answers);
      beam, waiting, finished := [], [], finished + waiting + ResolvedOnly(beam);
      assert State() == target;
    }

    /** Adds the line that ends the turn at once to the leaves: the root, with the value of the
        state its own End Turn leads to. */
    method SettleRootAsLeaf(root: BeamNode) returns (raised: bool)
      requires Valid() && r.cfg.turnBoundary
      requires root == RootNode(r.rootDto, root.decisionPoint) && root.decisionPoint != ""
      modifies this`finished, this`all, this`released, this`submitted, client, alloc
      ensures Owned() && (forall b :: submitted[b] <= 1)
      ensures finished == old(finished) || (finished != [] && finished[..|finished| - 1] == old(finished)
                                            && EndsTurnAtRoot(r, finished[|finished| - 1])
                                            && LeafAnswered(r, finished[|finished| - 1], client.answers))
      ensures !raised && finished == old(finished) ==> NothingReadable(old(client.answers), client.answers)
      ensures Extends(old(client.answers), client.answers)
    {
      raised := false;
      var action := if r.rootDto.actions.None? then None else EndTurnAction(r.rootDto.actions.value);
      if action.None? {
        return;
      }
      EndTurnIsAvailable(r.rootDto.actions.value);
      var leaf;
      raised, leaf := EndTurnAtRoot(root, action.value);
      if !raised && leaf.Some? {
        finished := finished + [leaf.value];
      }
    }

    /** Plays the End Turn of the root and scores where it lands. */
    method EndTurnAtRoot(root: BeamNode, action: string) returns (raised: bool, leaf: Option<BeamNode>)
      requires Owned() && SettledOnce(submitted, settled)
      requires root == RootNode(r.rootDto, root.decisionPoint) && root.decisionPoint != ""
      requires r.rootDto.actions.Some? && FirstEndTurn(r.rootDto.actions.value, action) && action != ""
      modifies this`all, this`released, this`submitted, client, alloc
      ensures Owned() && (forall b :: submitted[b] <= 1)
      ensures leaf.Some? ==> EndsTurnAtRoot(r, leaf.value) && LeafAnswered(r, leaf.value, client.answers)
      ensures !raised && leaf.None? ==> NothingReadable(old(client.answers), client.answers)
      ensures Extends(old(client.answers), client.answers)
    {
      leaf := None;
      var entries := [Settling(root, action)];
      var scores;
      ghost var pending, sent;
      raised, scores, pending, sent := SettleBatch(entries);
      RootSubmittedOnce(old(submitted), old(settled), entries, sent);
      if raised || root.branch !in scores {
        NoRootScore(r, pending, sent, old(client.answers), client.answers, scores);
        return;
      }
      var node := RootLeaf(root, action, scores[root.branch]);
      RootScore(r, pending, sent, client.answers, scores, node);
      leaf := Some(node);
    }

    /** The first of the most valuable leaves that carry a root action and are resolved. */
    method PickBest() returns (best: Option<BeamNode>)
      ensures FirstMax(finished, best)
    {
      best := None;
      ghost var at := 0;
      for i := 0 to |finished|
        invariant best.None? ==> forall j :: 0 <= j < i ==> !Actionable(finished[j])
        invariant best.Some? ==> at < i && finished[at] == best.value && MaxAt(finished, i, at)
      {
        if Actionable(finished[i]) && (best.None? || finished[i].value > best.value.value) {
          best, at := Some(finished[i]), i;
        }
      }
    }

    /** A whole search. However it ends, the branches it was told of are accounted for. When the
        final cleanup completes, none of those is left, and nothing at all is left for sure if
        and only if none of its emulate requests ended in doubt. A result is the best of the resolved
        leaves, its root action is available at the root and starts its line. */
    method Run(root: BeamNode) returns (outcome: Outcome, ghost plies: seq<PlyRecord>, ghost clean: bool)
      requires Valid() && root == RootNode(r.rootDto, root.decisionPoint) && root.decisionPoint != ""
      requires all == [] && tree == map[] && level == RootLevel(r.rootDto)
      modifies this, client, alloc
      ensures Owned() && |plies| <= PlyBound(r.cfg)
      ensures r.wholeRun && r.cfg.releaseOnFinish ==> forall p :: p in plies ==> WithinCapacity(client.batchLimit, p)
      ensures forall b :: submitted[b] <= 1
      ensures clean ==> client.live == others
      ensures clean ==> (LeavesNothing(client.log, |log0|) <==> NoneInDoubt(client.log, |log0|))
      ensures outcome.SearchResult? ==> FirstMax(finished, outcome.best) && SoundLeaves(r, tree, finished)
      ensures outcome.SearchResult? ==> AllAnswered(r, finished, client.answers)
      ensures outcome.SearchResult? ==> FinalLeaves(r, finished) && (BranchTwice(finished) ==> RootMayRepeat(r))
      ensures outcome.SearchResult? ==> outcome.reason != EmulationStopped(Raised)
      ensures outcome.SearchResult? ==> TreeWithin(tree, DepthReached(outcome.reason, outcome.depths))
    {
      var flow, depths;
      flow, depths, plies := Collect(root);
      var cleanupRaised, complete := Cleanup();
      clean := complete;
      if flow.Raise? || cleanupRaised {
        return SearchRaised, plies, clean;
      }
      var best := PickBest();
      outcome := SearchResult(best, flow.reason, depths);
    }

    /** The loop and what follows it: all leaves, and why the loop ended. */
    method Collect(root: BeamNode) returns (flow: Flow, depths: nat, ghost plies: seq<PlyRecord>)
      requires Valid() && root == RootNode(r.rootDto, root.decisionPoint) && root.decisionPoint != ""
      requires all == [] && tree == map[] && level == RootLevel(r.rootDto)
      modifies this, client, alloc
      ensures Owned() && |plies| <= PlyBound(r.cfg) && !flow.Go?
      ensures r.wholeRun && r.cfg.releaseOnFinish ==> forall p :: p in plies ==> WithinCapacity(client.batchLimit, p)
      ensures forall b :: submitted[b] <= 1
      ensures flow.Stop? ==> SoundLeaves(r, tree, finished) && AllAnswered(r, finished, client.answers)
      ensures flow.Stop? ==> FinalLeaves(r, finished) && (BranchTwice(finished) ==> RootMayRepeat(r))
      ensures flow.Stop? ==> flow.reason != EmulationStopped(Raised)
      ensures flow.Stop? ==> TreeWithin(tree, DepthReached(flow.reason, depths))
    {
      RootLevelWithinBound(r.cfg, level);
      assert Live(State()) == {};
      flow, depths, plies := Loop();
      if flow.Stop? {
        var raised := Finish(root);
        if raised {
          flow := Raise;
        }
      }
    }

    /** What follows the loop: the rest of the frontier becomes leaves, and under turn-boundary
        scoring the leaves and the root are settled. */
    method Finish(root: BeamNode) returns (raised: bool)
      requires Valid() && root == RootNode(r.rootDto, root.decisionPoint) && root.decisionPoint != ""
      modifies this, client, alloc
      ensures Owned() && (forall b :: submitted[b] <= 1) && tree == old(tree)
      ensures SoundLeaves(r, tree, finished) && FinalLeaves(r, finished)
      ensures BranchTwice(finished) ==> RootMayRepeat(r)
      ensures AllAnswered(r, finished, client.answers)
    {
      raised := GatherLeaves();
      ghost var leaves, answers := finished, client.answers;
      if r.cfg.turnBoundary && !raised {
        raised := SettleRootAsLeaf(root);
      }
      LeavesAreDone(r, tree, leaves, finished, answers, client.answers);
    }

    /** The rest of the frontier becomes leaves, and under turn-boundary scoring those not settled
        yet are settled. */
    method GatherLeaves() returns (raised: bool)
      requires Valid()
      modifies this`beam, this`waiting, this`finished, this`settled, this`all, this`released, this`submitted
      modifies client, alloc
      ensures Valid() && SoundLeaves(r, tree, finished) && DistinctNodes(finished) && RootAsItIs(r, finished)
      ensures forall n :: n in finished && n.branch == ROOT_BRANCH_ID ==> n.rootAction.None?
      ensures AllAnswered(r, finished, client.answers)
    {
      raised := false;
      CollectLeaves();
      if r.cfg.turnBoundary {
        ghost var positions, pending, sent;
        raised, positions, pending, sent := SettlePending();
      }
      LeavesAreSound(r, State(), tree);
      RootLeafHasNoAction(r, State());
      LeavesAnswered(r, State(), tree, client.answers);
    }
  }

  /** The best leaf keeps what every leaf promises, and nothing comparable is worth more. */
  lemma BestIsSound(r: Rules, tree: map<BranchId, BeamNode>, leaves: seq<BeamNode>, best: BeamNode)
    requires SoundLeaves(r, tree, leaves) && FirstMax(leaves, Some(best))
    ensures best.rootAction.Some? && IsAvailable(r.rootDto, best.rootAction.value)
    ensures best.branch != ROOT_BRANCH_ID ==> best.branch in tree && FirstAction(tree, best.branch) == best.rootAction
    ensures !r.cfg.turnBoundary ==> best.value == r.score(best.dto)
    ensures !r.cfg.turnBoundary ==>
      forall n :: n in leaves && Actionable(n) ==> r.score(n.dto) <= r.score(best.dto)
    ensures if best.branch == ROOT_BRANCH_ID then best.depth == 1 && r.cfg.turnBoundary
            else best.branch in tree && best.depth == tree[best.branch].depth
  {
    var at: nat :| at < |leaves| && leaves[at] == best && MaxAt(leaves, |leaves|, at);
    assert best in leaves && SoundLeaf(r, tree, best);
    forall n | n in leaves && Actionable(n) && !r.cfg.turnBoundary ensures r.score(n.dto) <= r.score(best.dto) {
      assert SoundLeaf(r, tree, n);
      var j: nat :| j < |leaves| && leaves[j] == n;
    }
  }

  /** A search whose first emulate request is sent and never answered: nothing is on record, so the
      cleanup has nothing to do and completes, while the server may hold the whole batch. */
  lemma LostFirstRequest(items: seq<EmulateItem>, limit: Option<nat>)
    requires AcceptableBatch(items, limit)
    ensures var log := EmulateEntry(items, TransportBroken(true, true));
      && Orderly(log) && LiveAfter(log) == {} && Remaining([], {}) == []
      && MayHold(log, ItemBranches(items)) && ItemBranches(items) != {} && !LeavesNothing(log, 0)
  {
    var ids := ItemBranches(items);
    assert items[0].branch in ids;
    NextEntry([], {}, InDoubt(ids), ids);
    assert [] + [InDoubt(ids)] == EmulateEntry(items, TransportBroken(true, true));
  }

  /** A fault leaves the client usable: the branches created before it are released, and what the
      faulted request may have created stays. */
  lemma FaultedRequestStays(first: seq<EmulateItem>, faulted: seq<EmulateItem>, limit: Option<nat>)
    requires AcceptableBatch(first, limit) && AcceptableBatch(faulted, limit)
    requires ItemBranches(first) !! ItemBranches(faulted)
    ensures var created, doubtful := ItemBranches(first), ItemBranches(faulted);
      var log := [Confirmed(created)] + EmulateEntry(faulted, OtherError) + [Released(created)];
      Orderly(log) && LiveAfter(log) == {} && MayHold(log, doubtful) && !LeavesNothing(log, 0)
  {
    var created, doubtful := ItemBranches(first), ItemBranches(faulted);
    assert first[0].branch in created && faulted[0].branch in doubtful;
    DoubtOutlivesRelease(created, doubtful);
    assert [Confirmed(created)] + EmulateEntry(faulted, OtherError) + [Released(created)]
        == [Confirmed(created), InDoubt(doubtful), Released(created)];
  }

  /** The public entry: what cannot be searched is refused before anything is sent. */
  method Search(client: EmulatorClient, alloc: BranchIdAllocator, r: Rules, decisionPoint: string)
    returns (outcome: Outcome, ghost clean: bool)
    requires ValidRules(r) && r.wholeRun == client.wholeRun && client.Valid() && alloc.Valid()
    requires client.ever <= alloc.issued && Unmixed(r.rootDto) && decisionPoint != ""
    modifies client, alloc
    ensures client.Valid() && alloc.Valid() && client.ever <= alloc.issued
    ensures outcome.SearchResult? && outcome.best.Some? ==>
      outcome.best.value.rootAction.Some? && IsAvailable(r.rootDto, outcome.best.value.rootAction.value)
    ensures outcome.SearchResult? && outcome.best.Some? && !r.cfg.turnBoundary ==>
      outcome.best.value.value == r.score(outcome.best.value.dto)
    ensures outcome.SearchResult? && outcome.best.Some? ==>
      if outcome.best.value.branch == ROOT_BRANCH_ID then outcome.best.value.depth == 1 && r.cfg.turnBoundary
      else outcome.best.value.depth <= DepthReached(outcome.reason, outcome.depths)
    ensures outcome.SearchResult? && outcome.best.Some? ==> LeafAnswered(r, outcome.best.value, client.answers)
    ensures outcome.SearchResult? ==> outcome.reason != EmulationStopped(Raised)
    ensures old(client.log) <= client.log && (clean ==> client.live == old(client.live))
    ensures clean ==>
      (LeavesNothing(client.log, |old(client.log)|) <==> NoneInDoubt(client.log, |old(client.log)|))
  {
    clean := true;
    assert client.log[..|client.log|] == client.log;
    LeavesNothingIff(client.log, |client.log|);
    if r.rootDto.actions.None? || r.rootDto.actions.value == [] {
      return SearchResult(None, NoLegalActions, 0), clean;
    }
    if r.wholeRun && client.batchLimit.None? {
      return SearchResult(None, EmulateNotSupported, 0), clean;
    }
    if !InScope(r.wholeRun, r.rootDto, r.cfg.allowed) {
      return SearchResult(None, NotBeamSearchable, 0), clean;
    }
    var run := new BeamSearchRun(r, client, alloc, decisionPoint);
    ghost var plies;
    outcome, plies, clean := run.Run(RootNode(r.rootDto, decisionPoint));
    if outcome.SearchResult? && outcome.best.Some? {
      BestIsSound(r, run.tree, run.finished, outcome.best.value);
    }
  }
}
