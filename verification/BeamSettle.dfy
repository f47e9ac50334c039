/** Settling leaves at the turn boundary: which leaves need their forced End Turn, the requests
    that play it, and the scores they bring back. A leaf is settled while its branch exists,
    and only once. */
module BeamSettle {
  import opened Wrappers
  import opened WireContract
  import opened CombatDecision
  import opened BeamModel
  import opened BeamFrontier
  import opened BeamPlan
  import opened BeamEmulate
  import opened BeamState

  /** One leaf and the forced move that settles it. */
  datatype Settling = Settling(node: BeamNode, action: string)

  datatype Settled = Settled(score: real, dto: Dto)

  function Parents(entries: seq<Settling>): (r: seq<BranchId>)
    ensures |r| == |entries| && forall i :: 0 <= i < |r| ==> r[i] == entries[i].node.branch
  {
    seq(|entries|, i requires 0 <= i < |entries| => entries[i].node.branch)
  }

  /** No leaf is submitted for settling more than once, and each is on record. */
  ghost predicate SettledOnce(submitted: multiset<BranchId>, settled: set<BranchId>) {
    forall b :: b in submitted ==> submitted[b] == 1 && b in settled && b != ROOT_BRANCH_ID
  }

  /** Leaves that a settle request may name: they still exist, or are the root. */
  ghost predicate Settleable(entries: seq<Settling>, live: set<BranchId>) {
    forall i :: 0 <= i < |entries| ==>
      && entries[i].node.decisionPoint != "" && entries[i].action != ""
      && (entries[i].node.branch == ROOT_BRANCH_ID || (entries[i].node.branch in live && entries[i].node.rngId > 0))
      && entries[i].node.branch != ""
  }

  ghost predicate NoRepeatedParent(entries: seq<Settling>) {
    forall i, j :: 0 <= i < j < |entries| ==> entries[i].node.branch != entries[j].node.branch
  }

  /** The configured batch size, cut to the server limit and to the free slots of the budget,
      but never to nothing. */
  function SettleBatchSize(c: Config, wholeRun: bool, limit: Option<nat>, alive: nat): (n: nat)
    requires ValidConfig(c) && (limit.Some? ==> limit.value > 0)
    ensures n > 0 && (limit.Some? ==> n <= limit.value)
    ensures wholeRun && limit.Some? && alive < limit.value ==> n <= limit.value - alive
  {
    var size := BatchSize(c, limit);
    var capacity := ActiveCapacity(wholeRun, limit);
    if capacity.None? then size
    else if capacity.value <= alive then 1
    else if size < capacity.value - alive then size else capacity.value - alive
  }

  /** The forced End Turn that settles a leaf, if it needs one. */
  function SettleAction(n: BeamNode, rootTurn: Option<int>): (r: Option<string>)
    ensures r.Some? ==> n.branch != ROOT_BRANCH_ID && n.decisionPoint != "" && MacroResolved(n) && r.value != ""
  {
    if n.branch == ROOT_BRANCH_ID || n.terminal || n.decisionPoint == "" || !MacroResolved(n) then None
    else if CrossedTurnBoundary(n.dto, rootTurn) then None
    else if n.dto.actions.None? then None
    else
      var action := EndTurnAction(n.dto.actions.value);
      if action.Some? then EndTurnIsAvailable(n.dto.actions.value); action else None
  }

  /** A leaf that still has to end its turn: on a branch of its own, not terminal, with a decision
      point and no choice open, its turn not over, and End Turn on offer. */
  ghost predicate MustEndTurn(n: BeamNode, rootTurn: Option<int>) {
    && n.branch != ROOT_BRANCH_ID && !n.terminal && n.decisionPoint != "" && !IsContinuation(n.dto)
    && (rootTurn.Some? && n.dto.turn.Some? ==> n.dto.turn.value <= rootTurn.value)
    && n.dto.actions.Some? && exists i :: 0 <= i < |n.dto.actions.value| && IsEndTurn(n.dto.actions.value[i])
  }

  /** The move plays the first End Turn of the leaf's state. */
  ghost predicate PlaysEndTurn(n: BeamNode, action: string) {
    n.dto.actions.Some? && FirstEndTurn(n.dto.actions.value, action)
  }

  /** Exactly the leaves that still have to end their turn are settled, by nothing but End Turn. */
  lemma SettleActionIff(n: BeamNode, rootTurn: Option<int>)
    ensures SettleAction(n, rootTurn).Some? <==> MustEndTurn(n, rootTurn)
    ensures SettleAction(n, rootTurn).Some? ==> PlaysEndTurn(n, SettleAction(n, rootTurn).value)
    ensures SettleAction(n, rootTurn).Some? && DistinctActions(n.dto.actions.value) ==>
      TypeForAction(n.dto, SettleAction(n, rootTurn).value) == Some(System)
  {
    if n.dto.actions.Some? {
      EndTurnIsAvailable(n.dto.actions.value);
      if SettleAction(n, rootTurn).Some? && DistinctActions(n.dto.actions.value) {
        EndTurnIsSystem(n.dto.actions.value, SettleAction(n, rootTurn).value);
      }
    }
  }

  /** The picked leaves, in order: those among the first `n` not submitted before that have a
      settle action. */
  ghost predicate Picked(finished: seq<BeamNode>, settled: set<BranchId>, rootTurn: Option<int>, n: nat,
                         positions: seq<nat>, entries: seq<Settling>)
  {
    && n <= |finished| && |entries| == |positions| && Increasing(positions, n)
    && (forall i :: 0 <= i < n ==>
          (i in positions <==> finished[i].branch !in settled && SettleAction(finished[i], rootTurn).Some?))
    && (forall j :: 0 <= j < |positions| ==>
          entries[j].node == finished[positions[j]]
           && Some(entries[j].action) == SettleAction(entries[j].node, rootTurn))
  }

  lemma NextLeaf(finished: seq<BeamNode>, i: nat)
    requires i < |finished| && DistinctNodes(finished)
    ensures Ids(finished[..i + 1]) == Ids(finished[..i]) + {finished[i].branch}
    ensures finished[i].branch !in Ids(finished[..i])
  {
    assert finished[..i + 1] == finished[..i] + [finished[i]];
    IdsGrow(finished[..i], finished[i]);
  }

  lemma PickedStep(finished: seq<BeamNode>, settled: set<BranchId>, rootTurn: Option<int>, i: nat,
                   positions: seq<nat>, entries: seq<Settling>)
    requires i < |finished| && Picked(finished, settled, rootTurn, i, positions, entries)
    ensures var action := SettleAction(finished[i], rootTurn);
      if finished[i].branch !in settled && action.Some?
      then Picked(finished, settled, rootTurn, i + 1, positions + [i], entries + [Settling(finished[i], action.value)])
      else Picked(finished, settled, rootTurn, i + 1, positions, entries)
  {
  }

  function RescoredNode(n: BeamNode, scores: map<BranchId, Settled>): BeamNode {
    if n.branch in scores then n.(value := scores[n.branch].score) else n
  }

  ghost predicate RescoredAt(before: seq<BeamNode>, after: seq<BeamNode>, positions: seq<nat>,
                             scores: map<BranchId, Settled>)
  {
    |after| == |before|
    && forall p: nat :: p < |before| ==>
         after[p] == if p in positions then RescoredNode(before[p], scores) else before[p]
  }

  /** The leaves after settling: exactly the picked ones whose End Turn was answered with a
      readable state carry that state's value; nothing else changed. */
  ghost predicate SettledValues(r: Rules, before: seq<BeamNode>, after: seq<BeamNode>, settled: set<BranchId>,
                                positions: seq<nat>, pending: seq<Planned>,
                                answers: map<BranchId, Emulated>, sent: nat)
  {
    && |after| == |before| && |pending| == |positions| && sent <= |pending|
    && Increasing(positions, |before|)
    && (forall i :: 0 <= i < |before| ==>
          (i in positions <==> before[i].branch !in settled && MustEndTurn(before[i], r.rootDto.turn)))
    && (forall j :: 0 <= j < |pending| ==>
          pending[j].node == before[positions[j]] && PlaysEndTurn(before[positions[j]], pending[j].action)
          && KeepsStream(pending[j]))
    && (forall p: nat :: p < |before| && p !in positions ==> after[p] == before[p])
    && (forall j :: 0 <= j < |pending| ==>
          after[positions[j]] ==
            if j < sent && StateAfter(answers, pending[j].branch).Some?
            then before[positions[j]].(value := r.score(StateAfter(answers, pending[j].branch).value))
            else before[positions[j]])
    && (forall j :: 0 <= j < sent && pending[j].branch in answers ==>
          AsksFor(answers[pending[j].branch].item, pending[j]))
  }

  lemma PickedSettleable(r: Rules, s: SearchState, level: Level, tree: map<BranchId, BeamNode>, issued: set<BranchId>,
                         positions: seq<nat>, entries: seq<Settling>)
    requires SearchInv(r, s, level, tree, issued) && r.cfg.turnBoundary && "" !in issued
    requires Picked(s.finished, s.settled, r.rootDto.turn, |s.finished|, positions, entries)
    ensures Settleable(entries, Live(s)) && NoRepeatedParent(entries)
  {
    forall j | 0 <= j < |entries|
      ensures entries[j].node.branch in Live(s) && entries[j].node.rngId > 0
    {
      var n := s.finished[positions[j]];
      assert positions[j] in positions && n in s.finished;
      assert FinishedNode(r, s, n);
    }
  }

  lemma RescoredIsRescored(s: SearchState, finished: seq<BeamNode>, positions: seq<nat>, scores: map<BranchId, Settled>)
    requires RescoredAt(s.finished, finished, positions, scores) && Ids(s.finished) <= s.settled
    ensures Rescored(s, finished) && Ids(finished) == Ids(s.finished)
  {
    assert forall i :: 0 <= i < |finished| ==> finished[i].branch == s.finished[i].branch;
    forall i | 0 <= i < |finished| ensures finished[i].branch in s.settled {
      assert s.finished[i].branch in Ids(s.finished);
    }
  }

  lemma {:induction false} DistinctOnce(ids: seq<BranchId>, b: BranchId)
    requires Distinct(ids)
    ensures multiset(ids)[b] == if b in ids then 1 else 0
    decreases |ids|
  {
    if ids != [] {
      var front, last := ids[..|ids| - 1], ids[|ids| - 1];
      assert ids == front + [last];
      DistinctOnce(front, b);
    }
  }

  lemma SubmittedStaysOnce(submitted: multiset<BranchId>, settled: set<BranchId>, finished: seq<BeamNode>,
                           entries: seq<Settling>, positions: seq<nat>, rootTurn: Option<int>, sent: nat)
    requires SettledOnce(submitted, settled) && NoRepeatedParent(entries) && sent <= |entries|
    requires Picked(finished, settled, rootTurn, |finished|, positions, entries)
    ensures SettledOnce(submitted + multiset(Parents(entries)[..sent]), settled + Ids(finished))
  {
    var more := Parents(entries)[..sent];
    forall b | b in submitted + multiset(more)
      ensures (submitted + multiset(more))[b] == 1 && b in settled + Ids(finished) && b != ROOT_BRANCH_ID
    {
      DistinctOnce(more, b);
      if b in more {
        var j :| 0 <= j < sent && more[j] == b;
        assert positions[j] in positions && entries[j].node == finished[positions[j]];
        assert b !in settled && b in Ids(finished);
      }
    }
  }

  lemma SettledAre(r: Rules, before: seq<BeamNode>, after: seq<BeamNode>, settled: set<BranchId>,
                   positions: seq<nat>, entries: seq<Settling>, pending: seq<Planned>,
                   answers: map<BranchId, Emulated>, scores: map<BranchId, Settled>, sent: nat)
    requires RescoredAt(before, after, positions, scores)
    requires Picked(before, settled, r.rootDto.turn, |before|, positions, entries)
    requires ScoresOf(r, pending, sent, answers, scores)
    requires |pending| == |entries| && Distinct(PlanIds(pending)) && DistinctParents(pending)
    requires forall j :: 0 <= j < |pending| ==>
      pending[j].node == entries[j].node && pending[j].action == entries[j].action && KeepsStream(pending[j])
    ensures SettledValues(r, before, after, settled, positions, pending, answers, sent)
  {
    forall n ensures SettleAction(n, r.rootDto.turn).Some? <==> MustEndTurn(n, r.rootDto.turn) {
      SettleActionIff(n, r.rootDto.turn);
    }
    forall j | 0 <= j < |pending| ensures PlaysEndTurn(before[positions[j]], pending[j].action) {
      SettleActionIff(before[positions[j]], r.rootDto.turn);
    }
    assert forall j :: 0 <= j < sent ==> ScoreOf(r, pending[j], answers, scores);
    forall j | 0 <= j < |pending|
      ensures after[positions[j]] ==
        if j < sent && StateAfter(answers, pending[j].branch).Some?
        then before[positions[j]].(value := r.score(StateAfter(answers, pending[j].branch).value))
        else before[positions[j]]
    {
      assert positions[j] in positions;
      if j < sent {
        assert ScoreOf(r, pending[j], answers, scores);
      }
    }
  }

  // ----- what a settled value is worth ---------------------------------------------------

  /** The value is the score of the state the server answered to the leaf's own End Turn, on the
      leaf's random stream. */
  ghost predicate SettledBy(r: Rules, n: BeamNode, answers: map<BranchId, Emulated>) {
    exists b :: b in answers && answers[b].item.parent == n.branch && PlaysEndTurn(n, answers[b].item.action)
                && answers[b].item.rngId == n.rngId && StateAfter(answers, b).Some?
                && n.value == r.score(StateAfter(answers, b).value)
  }

  ghost predicate FairValue(r: Rules, n: BeamNode, answers: map<BranchId, Emulated>) {
    n.value == r.score(n.dto) || SettledBy(r, n, answers)
  }

  /** Every resolved leaf that was submitted for settling has its own fresh score or a settled one. */
  ghost predicate SettledFair(r: Rules, finished: seq<BeamNode>, settled: set<BranchId>,
                              answers: map<BranchId, Emulated>)
  {
    forall n :: n in finished && n.branch in settled && n.branch != ROOT_BRANCH_ID && MacroResolved(n) ==>
      FairValue(r, n, answers)
  }

  lemma FairLater(r: Rules, n: BeamNode, before: map<BranchId, Emulated>, answers: map<BranchId, Emulated>)
    requires FairValue(r, n, before) && Extends(before, answers)
    ensures FairValue(r, n, answers)
  {
    if SettledBy(r, n, before) {
      var b :| b in before && before[b].item.parent == n.branch && PlaysEndTurn(n, before[b].item.action)
               && before[b].item.rngId == n.rngId && StateAfter(before, b).Some?
               && n.value == r.score(StateAfter(before, b).value);
      assert StateAfter(answers, b) == StateAfter(before, b);
    }
  }

  lemma SettledFairLater(r: Rules, finished: seq<BeamNode>, settled: set<BranchId>, before: map<BranchId, Emulated>,
                         answers: map<BranchId, Emulated>)
    requires SettledFair(r, finished, settled, before) && Extends(before, answers)
    ensures SettledFair(r, finished, settled, answers)
  {
    forall n | n in finished && n.branch in settled && n.branch != ROOT_BRANCH_ID && MacroResolved(n)
      ensures FairValue(r, n, answers)
    {
      FairLater(r, n, before, answers);
    }
  }

  /** New leaves have not been submitted yet. */
  lemma SettledFairJoined(r: Rules, finished: seq<BeamNode>, more: seq<BeamNode>, settled: set<BranchId>,
                          answers: map<BranchId, Emulated>)
    requires SettledFair(r, finished, settled, answers) && settled <= Ids(finished) && DistinctNodes(finished + more)
    ensures SettledFair(r, finished + more, settled, answers)
  {
    forall n | n in more ensures n.branch !in settled {
      var j :| 0 <= j < |more| && more[j] == n;
      assert (finished + more)[|finished| + j] == n;
      forall i | 0 <= i < |finished| ensures finished[i].branch != n.branch {
        assert (finished + more)[i] == finished[i];
      }
    }
  }

  /** A leaf that was not submitted still has its fresh score. */
  lemma FinishedFair(r: Rules, s: SearchState, answers: map<BranchId, Emulated>)
    requires NodesInv(r, s) && SettledFair(r, s.finished, s.settled, answers)
    ensures forall n :: n in s.finished && n.branch != ROOT_BRANCH_ID && MacroResolved(n) ==> FairValue(r, n, answers)
  {
    forall n | n in s.finished && n.branch != ROOT_BRANCH_ID && MacroResolved(n) ensures FairValue(r, n, answers) {
      assert FinishedNode(r, s, n);
    }
  }

  /** Settling keeps that: a leaf keeps its value, or takes the score of what the server answered. */
  lemma SettlingIsFair(r: Rules, s: SearchState, after: seq<BeamNode>, positions: seq<nat>, pending: seq<Planned>,
                       answers: map<BranchId, Emulated>, sent: nat)
    requires NodesInv(r, s) && SettledFair(r, s.finished, s.settled, answers)
    requires SettledValues(r, s.finished, after, s.settled, positions, pending, answers, sent)
    ensures forall n :: n in after && n.branch != ROOT_BRANCH_ID && MacroResolved(n) ==> FairValue(r, n, answers)
  {
    FinishedFair(r, s, answers);
    forall n | n in after && n.branch != ROOT_BRANCH_ID && MacroResolved(n) ensures FairValue(r, n, answers) {
      var i: nat :| i < |after| && after[i] == n;
      assert s.finished[i] in s.finished;
      if i in positions {
        var j :| 0 <= j < |positions| && positions[j] == i;
        if j < sent && StateAfter(answers, pending[j].branch).Some? {
          assert n == s.finished[i].(value := n.value);
          assert AsksFor(answers[pending[j].branch].item, pending[j]);
          assert SettledBy(r, n, answers);
        }
      }
    }
  }

  /** The planned settle moves: one per leaf, each on a branch of its own that was never issued
      before. */
  ghost predicate SettlePlan(entries: seq<Settling>, pending: seq<Planned>, live: set<BranchId>,
                             issued0: set<BranchId>, issued: set<BranchId>)
  {
    && |pending| == |entries| && Distinct(PlanIds(pending)) && DistinctParents(pending)
    && forall j :: 0 <= j < |pending| ==>
         && pending[j].node == entries[j].node && pending[j].action == entries[j].action
         && ItemWellFormed(ItemFor(pending[j])) && KeepsStream(pending[j])
         && (pending[j].node.branch == ROOT_BRANCH_ID || pending[j].node.branch in live)
         && pending[j].branch in issued && pending[j].branch !in issued0
  }

  /** Below any node but the root, a move runs on the node's own random stream. */
  predicate KeepsStream(p: Planned) {
    p.node.branch != ROOT_BRANCH_ID ==> p.rngId == p.node.rngId
  }

  lemma SettlePlanGrows(entries: seq<Settling>, i: nat, pending: seq<Planned>, p: Planned, live: set<BranchId>,
                        issued0: set<BranchId>, before: set<BranchId>, issued: set<BranchId>)
    requires i < |entries| && SettlePlan(entries[..i], pending, live, issued0, before)
    requires NoRepeatedParent(entries) && before <= issued && issued0 <= before
    requires p.node == entries[i].node && p.action == entries[i].action
    requires ItemWellFormed(ItemFor(p)) && KeepsStream(p)
    requires p.node.branch == ROOT_BRANCH_ID || p.node.branch in live
    requires p.branch in issued && p.branch !in before
    ensures SettlePlan(entries[..i + 1], pending + [p], live, issued0, issued)
  {
    assert entries[..i + 1] == entries[..i] + [entries[i]];
    assert PlanIds(pending + [p]) == PlanIds(pending) + [p.branch];
    forall j | 0 <= j < |pending| ensures PlanIds(pending)[j] != p.branch {
      assert pending[j].branch in before;
    }
  }

  /** The readable state in a reply. */
  function Answer(results: map<BranchId, BranchResult>, b: BranchId): Option<Dto> {
    if b in results && results[b].Resolved? then results[b].dto else None
  }

  /** The readable state a settle move led to, going by what the server has answered. */
  ghost function StateAfter(answers: map<BranchId, Emulated>, b: BranchId): Option<Dto> {
    if b in answers && answers[b].result.Resolved? then answers[b].result.dto else None
  }

  /** The move was sent as planned, and its leaf has the score of the state it led to, if any. */
  ghost predicate ScoreOf(r: Rules, p: Planned, answers: map<BranchId, Emulated>, scores: map<BranchId, Settled>) {
    var dto := StateAfter(answers, p.branch);
    && (p.branch in answers ==> AsksFor(answers[p.branch].item, p))
    && if dto.None? then p.node.branch !in scores
       else p.node.branch in scores && scores[p.node.branch] == Settled(r.score(dto.value), dto.value)
  }

  /** Of the first `k` moves, exactly the leaves whose End Turn led to a readable state have a
      score: the value of that state. No later move has one. */
  ghost predicate ScoresOf(r: Rules, pending: seq<Planned>, k: nat, answers: map<BranchId, Emulated>,
                           scores: map<BranchId, Settled>)
  {
    && k <= |pending| && (forall j :: 0 <= j < k ==> ScoreOf(r, pending[j], answers, scores))
    && forall j :: k <= j < |pending| ==> pending[j].node.branch !in scores
  }

  lemma PrefixSet(ids: seq<BranchId>, k: nat, j: nat)
    requires Distinct(ids) && k <= j < |ids|
    ensures ids[j] !in SetOf(ids[..k]) && SetOf(ids[..k]) + {ids[j]} <= SetOf(ids[..j + 1])
  {
    assert ids[..j + 1] == ids[..k] + ids[k..j + 1];
    SetOfAppend(ids[..k], ids[k..j + 1]);
    assert ids[k..j + 1][j - k] == ids[j];
  }

  /** Moves that were not answered add no score. */
  lemma ScoresLater(r: Rules, pending: seq<Planned>, k: nat, c: nat, answers: map<BranchId, Emulated>,
                    scores: map<BranchId, Settled>)
    requires ScoresOf(r, pending, k, answers, scores) && k <= c <= |pending| && DistinctParents(pending)
    requires forall j :: k <= j < c ==> pending[j].branch !in answers
    ensures ScoresOf(r, pending, c, answers, scores)
  {
  }

  /** The answers to later moves change nothing for the earlier ones. */
  lemma ScoresKept(r: Rules, pending: seq<Planned>, k: nat, c: nat, before: map<BranchId, Emulated>,
                   answers: map<BranchId, Emulated>, scores: map<BranchId, Settled>)
    requires ScoresOf(r, pending, k, before, scores) && k <= c <= |pending| && Distinct(PlanIds(pending))
    requires Extends(before, answers) && answers.Keys <= before.Keys + SetOf(PlanIds(pending)[k..c])
    ensures ScoresOf(r, pending, k, answers, scores)
  {
    forall j | 0 <= j < k ensures ScoreOf(r, pending[j], answers, scores) {
      assert ScoreOf(r, pending[j], before, scores);
      assert pending[j].branch !in SetOf(PlanIds(pending)[k..c]) by {
        assert forall i :: k <= i < c ==> PlanIds(pending)[i] != PlanIds(pending)[j];
      }
    }
  }

  ghost predicate DistinctParents(pending: seq<Planned>) {
    forall i, j :: 0 <= i < j < |pending| ==> pending[i].node.branch != pending[j].node.branch
  }

  /** After `k` moves: only their branches were created, and the others can still be sent. */
  ghost predicate SettleProgress(before: SearchState, s: SearchState, entries: seq<Settling>, plan: seq<Planned>,
                                 k: nat, issued0: set<BranchId>, issued: set<BranchId>)
  {
    && k <= |plan| && OnTheSide(before, s) && SettlePlan(entries, plan, Live(s), issued0, issued)
    && SetOf(s.all) <= SetOf(before.all) + SetOf(PlanIds(plan)[..k])
  }

  lemma SettleProgressStep(before: SearchState, middle: SearchState, s: SearchState, entries: seq<Settling>,
                           plan: seq<Planned>, k: nat, c: nat, issued0: set<BranchId>, issued: set<BranchId>)
    requires SettleProgress(before, middle, entries, plan, k, issued0, issued) && k <= c <= |plan|
    requires OnTheSide(middle, s)
    requires SetOf(s.all) <= SetOf(middle.all) + SetOf(PlanIds(plan)[k..c])
    ensures SettleProgress(before, s, entries, plan, c, issued0, issued)
  {
    OnTheSideTwice(before, middle, s);
    OnTheSideLive(middle, s);
    assert PlanIds(plan)[..c] == PlanIds(plan)[..k] + PlanIds(plan)[k..c];
    SetOfAppend(PlanIds(plan)[..k], PlanIds(plan)[k..c]);
  }

  lemma SubmittedStep(before: multiset<BranchId>, parents: seq<BranchId>, k: nat, c: nat)
    requires k <= c <= |parents|
    ensures before + multiset(parents[..k]) + multiset(parents[k..c]) == before + multiset(parents[..c])
  {
    assert parents[..c] == parents[..k] + parents[k..c];
  }

  /** The ids of the moves still to send are not in use. */
  lemma LaterIdsUnused(before: SearchState, s: SearchState, entries: seq<Settling>, plan: seq<Planned>, k: nat, c: nat,
                       issued0: set<BranchId>, issued: set<BranchId>, ever0: set<BranchId>, ever: set<BranchId>)
    requires SettleProgress(before, s, entries, plan, k, issued0, issued) && k <= c <= |plan|
    requires SetOf(before.all) <= issued0
    requires ever <= ever0 + SetOf(PlanIds(plan)[..k]) && ever0 <= issued0
    ensures forall j :: k <= j < c ==> plan[j].branch !in SetOf(s.all) && plan[j].branch !in ever
  {
    forall j | k <= j < c ensures plan[j].branch !in SetOf(PlanIds(plan)[..k]) {
      PrefixSet(PlanIds(plan), k, j);
    }
  }

  /** A settle request that may have gone through leaves the later moves unused. */
  lemma EverProgress(plan: seq<Planned>, k: nat, c: nat, ever0: set<BranchId>, ever: set<BranchId>,
                     ever': set<BranchId>)
    requires k <= c <= |plan| && ever <= ever0 + SetOf(PlanIds(plan)[..k])
    requires ever' <= ever + SetOf(PlanIds(plan)[k..c])
    ensures ever' <= ever0 + SetOf(PlanIds(plan)[..c])
  {
    assert PlanIds(plan)[..c] == PlanIds(plan)[..k] + PlanIds(plan)[k..c];
    SetOfAppend(PlanIds(plan)[..k], PlanIds(plan)[k..c]);
  }

  lemma EverIsNew(plan: seq<Planned>, k: nat, ever0: set<BranchId>, ever: set<BranchId>, issued0: set<BranchId>,
                  issued: set<BranchId>)
    requires k <= |plan| && ever <= ever0 + SetOf(PlanIds(plan)[..k]) && ever0 <= issued0 <= issued
    requires forall j :: 0 <= j < |plan| ==> plan[j].branch in issued && plan[j].branch !in issued0
    ensures ever <= issued && ever * issued0 <= ever0
  {
    forall b | b in SetOf(PlanIds(plan)[..k]) ensures b in issued && b !in issued0 {
      var j :| 0 <= j < k && PlanIds(plan)[j] == b;
    }
  }

  /** After `k` moves, nothing beyond their branches was ever named or answered. */
  ghost predicate SettleUse(plan: seq<Planned>, k: nat, issued0: set<BranchId>, ever0: set<BranchId>,
                            ever: set<BranchId>, heard0: set<BranchId>, heard: set<BranchId>)
  {
    && k <= |plan| && ever <= ever0 + SetOf(PlanIds(plan)[..k]) && ever * issued0 <= ever0
    && heard <= heard0 + SetOf(PlanIds(plan)[..k])
  }

  lemma SettleUseStep(plan: seq<Planned>, k: nat, c: nat, issued0: set<BranchId>, issued: set<BranchId>,
                      ever0: set<BranchId>, ever: set<BranchId>, ever': set<BranchId>, heard0: set<BranchId>,
                      heard: set<BranchId>, heard': set<BranchId>)
    requires SettleUse(plan, k, issued0, ever0, ever, heard0, heard) && k <= c <= |plan| && ever0 <= issued0 <= issued
    requires ever' <= ever + SetOf(PlanIds(plan)[k..c]) && heard' <= heard + SetOf(PlanIds(plan)[k..c])
    requires forall j :: 0 <= j < |plan| ==> plan[j].branch in issued && plan[j].branch !in issued0
    ensures SettleUse(plan, c, issued0, ever0, ever', heard0, heard') && ever' <= issued
  {
    EverProgress(plan, k, c, ever0, ever, ever');
    EverProgress(plan, k, c, heard0, heard, heard');
    EverIsNew(plan, c, ever0, ever', issued0, issued);
  }

  lemma ChunkIds(pending: seq<Planned>, k: nat, c: nat)
    requires k <= c <= |pending| && Distinct(PlanIds(pending))
    ensures Distinct(PlanIds(pending)[k..c])
    ensures forall b :: b in SetOf(PlanIds(pending)[k..c]) <==> b in PlanIds(pending)[k..c]
    ensures forall b :: b in PlanIds(pending)[k..c] ==> exists j :: k <= j < c && pending[j].branch == b
  {
  }

  lemma ChunkIsNew(s: SearchState, entries: seq<Settling>, pending: seq<Planned>, k: nat, c: nat,
                   issued0: set<BranchId>, issued: set<BranchId>)
    requires k <= c <= |pending| && SettlePlan(entries, pending, Live(s), issued0, issued)
    requires forall j :: k <= j < c ==> pending[j].branch !in SetOf(s.all)
    ensures NewBranches(s, PlanIds(pending)[k..c], issued) && SetOf(PlanIds(pending)[k..c]) !! SetOf(s.all)
  {
    ChunkIds(pending, k, c);
  }

  lemma ReleasedAside(before: SearchState, middle: SearchState, ids: seq<BranchId>, after: SearchState)
    requires OnTheSide(before, middle) && SetOf(ids) !! SetOf(before.all)
    requires after == middle.(released := after.released)
    requires after.released == middle.released || after.released == middle.released + SetOf(ids)
    ensures OnTheSide(before, after)
  {
  }

  method ScoreSettled(r: Rules, pending: seq<Planned>, k: nat, c: nat, results: map<BranchId, BranchResult>,
                      scores0: map<BranchId, Settled>, ghost answers: map<BranchId, Emulated>)
    returns (scores: map<BranchId, Settled>)
    requires ScoresOf(r, pending, k, answers, scores0) && Heard(pending, k, c, results, answers)
    requires DistinctParents(pending)
    ensures ScoresOf(r, pending, c, answers, scores)
  {
    scores := scores0;
    for j := k to c
      invariant ScoresOf(r, pending, j, answers, scores)
    {
      var next := Scores(r, scores, pending[j].node.branch, Answer(results, pending[j].branch));
      ScoresStep(r, pending, k, c, j, results, scores, answers, next);
      scores := next;
    }
  }

  function Scores(r: Rules, scores: map<BranchId, Settled>, parent: BranchId,
                  dto: Option<Dto>): map<BranchId, Settled>
  {
    if dto.Some? then scores[parent := Settled(r.score(dto.value), dto.value)] else scores
  }

  lemma HeardOne(pending: seq<Planned>, k: nat, c: nat, j: nat, results: map<BranchId, BranchResult>,
                 answers: map<BranchId, Emulated>)
    requires Heard(pending, k, c, results, answers) && k <= j < c
    ensures Heard(pending, j, j + 1, results, answers)
  {
  }

  lemma ScoresStep(r: Rules, pending: seq<Planned>, k: nat, c: nat, j: nat, results: map<BranchId, BranchResult>,
                   scores: map<BranchId, Settled>, answers: map<BranchId, Emulated>, next: map<BranchId, Settled>)
    requires j < |pending| && ScoresOf(r, pending, j, answers, scores) && DistinctParents(pending)
    requires next == Scores(r, scores, pending[j].node.branch, Answer(results, pending[j].branch))
    requires Heard(pending, k, c, results, answers) && k <= j < c
    ensures ScoresOf(r, pending, j + 1, answers, next)
  {
    HeardOne(pending, k, c, j, results, answers);
    forall i | 0 <= i < j ensures ScoreOf(r, pending[i], answers, next) {
      assert ScoreOf(r, pending[i], answers, scores);
    }
    assert ScoreOf(r, pending[j], answers, next);
  }
}
