/** Growing the frontier by one ply: proposing candidate actions, scoring what came back, and
    the depth and continuation counters that bound the search. */
module BeamFrontier {
  import opened Wrappers
  import opened WireContract
  import opened CombatDecision
  import opened BeamModel

  /** Everything a ply is judged by. `score` is the value model. */
  datatype Rules = Rules(cfg: Config, wholeRun: bool, rootDto: Dto, score: Dto -> real)

  predicate ValidRules(r: Rules) {
    ValidConfig(r.cfg)
  }

  // ----- judging one emulated branch ---------------------------------------------------

  datatype Verdict =
    | BranchFault
    | OutOfScopeDrop
    | ContinuationLimited
    | Expandable(node: BeamNode)
    | Leaf(node: BeamNode, atMaxDepth: bool)

  predicate IsContinuationMove(p: Planned) {
    var t := TypeForAction(p.node.dto, p.action);
    t.Some? && t.value in CONTINUATION_TYPES
  }

  /** The child's depth counters: a continuation move costs a continuation step, any other
      move a combat depth. */
  function ChildCombatDepth(p: Planned): nat {
    p.node.combatDepth + if IsContinuationMove(p) then 0 else 1
  }

  function ChildSteps(p: Planned): nat {
    if IsContinuationMove(p) then p.node.continuationSteps + 1 else 0
  }

  /** States that get a fresh score; every other child inherits its parent's. */
  predicate Scored(r: Rules, dto: Dto) {
    IsTerminal(dto) || (!IsContinuation(dto) && !OutOfScope(r.wholeRun, dto, r.cfg.allowed))
  }

  function ChildNode(p: Planned, dto: Dto, decisionPoint: string, value: real): BeamNode {
    BeamNode(p.branch, p.node.branch, p.rngId, decisionPoint, dto, p.node.depth + 1, value,
             if p.node.rootAction.Some? then p.node.rootAction else Some(p.action), Some(p.action),
             ChildCombatDepth(p), ChildSteps(p), IsTerminal(dto))
  }

  function ChildOf(r: Rules, p: Planned, dto: Dto, decisionPoint: string): BeamNode {
    ChildNode(p, dto, decisionPoint, if Scored(r, dto) then r.score(dto) else p.node.value)
  }

  /** The fate of one emulated branch, first match wins. */
  function Judge(r: Rules, p: Planned, result: BranchResult): Verdict {
    match result
    case Unresolved => BranchFault
    case Resolved(partial, maybeDto, decisionPoint) =>
      if maybeDto.None? then BranchFault
      else
        var dto := maybeDto.value;
        if OutOfScope(r.wholeRun, dto, r.cfg.allowed) then OutOfScopeDrop
        else
          var node := ChildOf(r, p, dto, decisionPoint);
          if IsTerminal(dto) || decisionPoint == "" || (partial && !r.cfg.expandPartial) then Leaf(node, false)
          else if r.cfg.turnBoundary && CrossedTurnBoundary(dto, r.rootDto.turn) then Leaf(node, false)
          else if IsContinuation(dto) then
            if node.continuationSteps >= r.cfg.maxContinuation then ContinuationLimited else Expandable(node)
          else if node.combatDepth >= r.cfg.maxDepth then Leaf(node, true)
          else Expandable(node)
  }

  function JudgeIn(r: Rules, p: Planned, results: map<BranchId, BranchResult>): Verdict {
    Judge(r, p, if p.branch in results then results[p.branch] else Unresolved)
  }

  function Expandables(r: Rules, meta: seq<Planned>, results: map<BranchId, BranchResult>): seq<BeamNode> {
    if meta == [] then []
    else
      var front := Expandables(r, meta[..|meta| - 1], results);
      match JudgeIn(r, meta[|meta| - 1], results)
      case Expandable(n) => front + [n]
      case _ => front
  }

  function Leaves(r: Rules, meta: seq<Planned>, results: map<BranchId, BranchResult>): seq<BeamNode> {
    if meta == [] then []
    else
      var front := Leaves(r, meta[..|meta| - 1], results);
      match JudgeIn(r, meta[|meta| - 1], results)
      case Leaf(n, _) => front + [n]
      case _ => front
  }

  datatype Tally = Tally(faulted: nat, outOfScope: nat, limited: nat, atMaxDepth: nat)

  /** How many items faulted, were dropped out of scope, or ran out of continuation steps, and
      how many of the leaves are leaves because of their depth. */
  function Lost(r: Rules, meta: seq<Planned>, results: map<BranchId, BranchResult>): Tally {
    if meta == [] then Tally(0, 0, 0, 0)
    else
      var front := Lost(r, meta[..|meta| - 1], results);
      match JudgeIn(r, meta[|meta| - 1], results)
      case BranchFault => front.(faulted := front.faulted + 1)
      case OutOfScopeDrop => front.(outOfScope := front.outOfScope + 1)
      case ContinuationLimited => front.(limited := front.limited + 1)
      case Leaf(_, true) => front.(atMaxDepth := front.atMaxDepth + 1)
      case _ => front
  }

  /** The score map has this item's own fresh score exactly when its state is one to score. */
  ghost predicate ScoreEntry(r: Rules, p: Planned, results: map<BranchId, BranchResult>, scores: map<BranchId, real>) {
    p.branch in results && results[p.branch].Resolved? && results[p.branch].dto.Some? ==>
      var dto := results[p.branch].dto.value;
      if Scored(r, dto) then p.branch in scores && scores[p.branch] == r.score(dto) else p.branch !in scores
  }

  /** The verdict with the score already looked up. */
  function JudgeScored(r: Rules, p: Planned, result: BranchResult, value: real): Verdict
    requires result.Resolved? && result.dto.Some?
  {
    var dto := result.dto.value;
    if OutOfScope(r.wholeRun, dto, r.cfg.allowed) then OutOfScopeDrop
    else
      var node := ChildNode(p, dto, result.decisionPoint, value);
      if IsTerminal(dto) || result.decisionPoint == "" || (result.partial && !r.cfg.expandPartial)
      then Leaf(node, false)
      else if r.cfg.turnBoundary && CrossedTurnBoundary(dto, r.rootDto.turn) then Leaf(node, false)
      else if IsContinuation(dto) then
        if node.continuationSteps >= r.cfg.maxContinuation then ContinuationLimited else Expandable(node)
      else if node.combatDepth >= r.cfg.maxDepth then Leaf(node, true)
      else Expandable(node)
  }

  /** The first pass: one score per state that needs one, by branch. */
  method ScoreStates(r: Rules, meta: seq<Planned>, results: map<BranchId, BranchResult>)
    returns (scores: map<BranchId, real>)
    requires Distinct(PlanIds(meta))
    ensures forall i :: 0 <= i < |meta| ==> ScoreEntry(r, meta[i], results, scores)
  {
    scores := map[];
    for n := 0 to |meta|
      invariant forall b :: b in scores ==> b in PlanIds(meta)[..n]
      invariant forall i :: 0 <= i < n ==> ScoreEntry(r, meta[i], results, scores)
    {
      var p := meta[n];
      assert PlanIds(meta)[n] == p.branch;
      assert forall i :: 0 <= i < n ==> meta[i].branch == PlanIds(meta)[i];
      if p.branch in results && results[p.branch].Resolved? && results[p.branch].dto.Some? {
        var dto := results[p.branch].dto.value;
        if Scored(r, dto) {
          scores := scores[p.branch := r.score(dto)];
        }
      }
    }
  }

  /** The two-pass scoring of a ply: first the states that need a score, then the verdicts.
      `next` and `leaves` keep the order of the items. */
  method ScoreFrontier(r: Rules, meta: seq<Planned>, results: map<BranchId, BranchResult>)
    returns (next: seq<BeamNode>, leaves: seq<BeamNode>, tally: Tally)
    requires Distinct(PlanIds(meta))
    ensures next == Expandables(r, meta, results) && leaves == Leaves(r, meta, results)
    ensures tally == Lost(r, meta, results)
  {
    var scores := ScoreStates(r, meta, results);
    next, leaves, tally := [], [], Tally(0, 0, 0, 0);
    for n := 0 to |meta|
      invariant next == Expandables(r, meta[..n], results) && leaves == Leaves(r, meta[..n], results)
      invariant tally == Lost(r, meta[..n], results)
    {
      assert meta[..n + 1][..n] == meta[..n];
      var p := meta[n];
      assert ScoreEntry(r, p, results, scores);
      if p.branch !in results || results[p.branch].Unresolved? || results[p.branch].dto.None? {
        tally := tally.(faulted := tally.faulted + 1);
      } else {
        var value := if p.branch in scores then scores[p.branch] else p.node.value;
        match JudgeScored(r, p, results[p.branch], value) {
          case OutOfScopeDrop => tally := tally.(outOfScope := tally.outOfScope + 1);
          case ContinuationLimited => tally := tally.(limited := tally.limited + 1);
          case Expandable(node) => next := next + [node];
          case Leaf(node, atMaxDepth) =>
            leaves := leaves + [node];
            tally := if atMaxDepth then tally.(atMaxDepth := tally.atMaxDepth + 1) else tally;
        }
      }
    }
    assert meta[..|meta|] == meta;
  }

  /** The state an item resolved to, when the search may look at it: readable and, on whole runs,
      terminal or in combat with searchable actions only. */
  ghost predicate UsableState(r: Rules, p: Planned, results: map<BranchId, BranchResult>, dto: Dto, point: string,
                              partial: bool)
  {
    && p.branch in results && results[p.branch] == Resolved(partial, Some(dto), point)
    && (r.wholeRun ==> IsTerminal(dto) || (dto.combatBoundary && Searchable(dto, r.cfg.allowed)))
  }

  /** The line has to end here: a terminal state, nothing to decide, a partial result that is not
      to be expanded, or the next player turn under turn-boundary scoring. */
  ghost predicate EndsLine(r: Rules, dto: Dto, point: string, partial: bool) {
    || IsTerminal(dto) || point == "" || (partial && !r.cfg.expandPartial)
    || (r.cfg.turnBoundary && r.rootDto.turn.Some? && dto.turn.Some? && dto.turn.value > r.rootDto.turn.value)
  }

  /** What makes an item go on, end its line, run out of choices, fall out of scope or fault: going
      on takes a usable state that does not end the line, and a choice or a move still allowed. */
  lemma VerdictIff(r: Rules, p: Planned, results: map<BranchId, BranchResult>, dto: Dto, point: string, partial: bool)
    requires p.branch in results && results[p.branch] == Resolved(partial, Some(dto), point)
    ensures var v, chooses := JudgeIn(r, p, results), IsContinuationMove(p);
      var steps := if chooses then p.node.continuationSteps + 1 else 0;
      var moves := if chooses then p.node.combatDepth else p.node.combatDepth + 1;
      var usable, ends := UsableState(r, p, results, dto, point, partial), EndsLine(r, dto, point, partial);
      && (v.Expandable? <==> usable && !ends && (if IsContinuation(dto) then steps < r.cfg.maxContinuation
                                                 else moves < r.cfg.maxDepth))
      && (v.Leaf? <==> usable && (ends || (!IsContinuation(dto) && moves >= r.cfg.maxDepth)))
      && (v.ContinuationLimited? <==> usable && !ends && IsContinuation(dto) && steps >= r.cfg.maxContinuation)
      && (v.OutOfScopeDrop? <==> !usable) && !v.BranchFault?
      && (v.Leaf? ==> (v.atMaxDepth <==> !ends))
  {
  }

  /** Anything that did not come back as a readable state is a fault. */
  lemma FaultIff(r: Rules, p: Planned, results: map<BranchId, BranchResult>)
    ensures JudgeIn(r, p, results).BranchFault? <==>
      p.branch !in results || results[p.branch].Unresolved? || results[p.branch].dto.None?
  {
  }

  predicate LeafByDepth(v: Verdict) {
    v.Leaf? && v.atMaxDepth
  }

  ghost predicate SomeLimited(r: Rules, meta: seq<Planned>, results: map<BranchId, BranchResult>) {
    exists p :: p in meta && JudgeIn(r, p, results).ContinuationLimited?
  }

  ghost predicate SomeAtMaxDepth(r: Rules, meta: seq<Planned>, results: map<BranchId, BranchResult>) {
    exists p :: p in meta && LeafByDepth(JudgeIn(r, p, results))
  }

  /** The counts stand for items: some item is lost for want of choices exactly when one is counted,
      and the same for leaves that are leaves because of their depth. */
  lemma {:induction false} LostCounts(r: Rules, meta: seq<Planned>, results: map<BranchId, BranchResult>)
    ensures Lost(r, meta, results).limited > 0 <==> SomeLimited(r, meta, results)
    ensures Lost(r, meta, results).atMaxDepth > 0 <==> SomeAtMaxDepth(r, meta, results)
  {
    if meta != [] {
      var front, last := meta[..|meta| - 1], meta[|meta| - 1];
      assert forall p :: p in meta <==> p in front || p == last;
      LostCounts(r, front, results);
      LostOne(r, meta, results);
    }
  }

  lemma LostOne(r: Rules, meta: seq<Planned>, results: map<BranchId, BranchResult>)
    requires meta != []
    ensures var before, after := Lost(r, meta[..|meta| - 1], results), Lost(r, meta, results);
      var v := JudgeIn(r, meta[|meta| - 1], results);
      && after.limited == before.limited + (if v.ContinuationLimited? then 1 else 0)
      && after.atMaxDepth == before.atMaxDepth + (if LeafByDepth(v) then 1 else 0)
  {
  }

  /** The five fates split the items of a ply exactly. */
  lemma {:induction false} FatesPartition(r: Rules, meta: seq<Planned>, results: map<BranchId, BranchResult>)
    ensures var lost := Lost(r, meta, results);
      |Expandables(r, meta, results)| + |Leaves(r, meta, results)|
      + lost.faulted + lost.outOfScope + lost.limited == |meta|
  {
    if meta != [] {
      FatesPartition(r, meta[..|meta| - 1], results);
    }
  }

  lemma {:induction false} ExpandableOrigin(r: Rules, meta: seq<Planned>, results: map<BranchId, BranchResult>)
    ensures forall n :: n in Expandables(r, meta, results) ==>
      exists i :: 0 <= i < |meta| && JudgeIn(r, meta[i], results) == Expandable(n)
  {
    if meta != [] {
      ExpandableOrigin(r, meta[..|meta| - 1], results);
      forall n | n in Expandables(r, meta, results)
        ensures exists i :: 0 <= i < |meta| && JudgeIn(r, meta[i], results) == Expandable(n)
      {
        if n in Expandables(r, meta[..|meta| - 1], results) {
          var i :| 0 <= i < |meta| - 1 && JudgeIn(r, meta[..|meta| - 1][i], results) == Expandable(n);
          assert meta[i] == meta[..|meta| - 1][i];
        } else {
          assert JudgeIn(r, meta[|meta| - 1], results) == Expandable(n);
        }
      }
    }
  }

  predicate IsLeaf(v: Verdict, n: BeamNode) {
    v.Leaf? && v.node == n
  }

  lemma {:induction false} LeafOrigin(r: Rules, meta: seq<Planned>, results: map<BranchId, BranchResult>)
    ensures forall n :: n in Leaves(r, meta, results) ==>
      exists i :: 0 <= i < |meta| && IsLeaf(JudgeIn(r, meta[i], results), n)
  {
    if meta != [] {
      LeafOrigin(r, meta[..|meta| - 1], results);
      forall n | n in Leaves(r, meta, results)
        ensures exists i :: 0 <= i < |meta| && IsLeaf(JudgeIn(r, meta[i], results), n)
      {
        if n in Leaves(r, meta[..|meta| - 1], results) {
          var i :| 0 <= i < |meta| - 1 && IsLeaf(JudgeIn(r, meta[..|meta| - 1][i], results), n);
          assert meta[i] == meta[..|meta| - 1][i];
        } else {
          assert IsLeaf(JudgeIn(r, meta[|meta| - 1], results), n);
        }
      }
    }
  }

  // ----- depth counters ----------------------------------------------------------------

  /** Where a whole frontier stands: resolved states after `depth` moves, or choice states
      `steps` choices into the move that reached `depth`. */
  datatype Level = Stable(depth: nat) | Choosing(depth: nat, steps: nat)

  predicate AtLevel(n: BeamNode, level: Level) {
    n.combatDepth == level.depth
    && match level
       case Stable(_) => !IsContinuation(n.dto)
       case Choosing(_, steps) => IsContinuation(n.dto) && n.continuationSteps == steps
  }

  predicate OpenLevel(cfg: Config, level: Level) {
    match level
    case Stable(d) => d < cfg.maxDepth
    case Choosing(d, steps) => d <= cfg.maxDepth && steps < cfg.maxContinuation
  }

  /** `depths` moves, each with a full run of choices. */
  function Rounds(depths: nat, choices: nat): nat {
    if depths == 0 then 0 else choices + 1 + Rounds(depths - 1, choices)
  }

  lemma {:induction false} RoundsIsProduct(depths: nat, choices: nat)
    ensures Rounds(depths, choices) == depths * (choices + 1)
  {
    if depths > 0 {
      RoundsIsProduct(depths - 1, choices);
    }
  }

  /** How many more plies a frontier at this level can have. */
  function PliesLeft(cfg: Config, level: Level): nat
    requires OpenLevel(cfg, level)
  {
    Rounds(cfg.maxDepth - level.depth, cfg.maxContinuation)
    + match level case Stable(_) => 0 case Choosing(_, steps) => cfg.maxContinuation - steps
  }

  /** The bound on a whole search. */
  function PlyBound(cfg: Config): nat {
    cfg.maxContinuation + cfg.maxDepth * (cfg.maxContinuation + 1)
  }

  /** The two levels a ply can lead to. */
  function NextChoosing(level: Level): Level {
    match level case Stable(d) => Choosing(d + 1, 0) case Choosing(d, s) => Choosing(d, s + 1)
  }

  function NextStable(level: Level): Level {
    match level case Stable(d) => Stable(d + 1) case Choosing(d, _) => Stable(d)
  }

  /** Every open level a ply leads to is strictly closer to the end. */
  lemma PliesDecrease(cfg: Config, level: Level, next: Level)
    requires OpenLevel(cfg, level) && OpenLevel(cfg, next)
    requires next == NextChoosing(level) || next == NextStable(level)
    ensures PliesLeft(cfg, next) < PliesLeft(cfg, level)
  {
  }

  lemma RootLevelWithinBound(cfg: Config, level: Level)
    requires OpenLevel(cfg, level) && level.depth == 0 && (level.Choosing? ==> level.steps == 0)
    ensures PliesLeft(cfg, level) <= PlyBound(cfg)
  {
    RoundsIsProduct(cfg.maxDepth, cfg.maxContinuation);
  }

  /** What the search relies on in every node it may expand or keep. */
  predicate SoundNode(r: Rules, n: BeamNode) {
    && Unmixed(n.dto) && n.decisionPoint != ""
    && if n.branch == ROOT_BRANCH_ID then n == RootNode(n.dto, n.decisionPoint) && n.dto == r.rootDto
       else n.rngId > 0 && SoundChild(r, n)
  }

  /** A created node: its root action is available at the root, and if its state is resolved it
      carries that state's own fresh score. */
  predicate SoundChild(r: Rules, n: BeamNode) {
    && n.rootAction.Some? && IsAvailable(r.rootDto, n.rootAction.value)
    && n.terminal == IsTerminal(n.dto)
    && (MacroResolved(n) ==> n.value == r.score(n.dto))
  }

  predicate SoundPlan(r: Rules, p: Planned) {
    && SoundNode(r, p.node) && Searchable(p.node.dto, r.cfg.allowed) && IsAvailable(p.node.dto, p.action)
    && p.branch != ROOT_BRANCH_ID && p.rngId > 0
    && (p.node.branch != ROOT_BRANCH_ID ==> p.rngId == p.node.rngId)
  }

  lemma ChildIsSound(r: Rules, p: Planned, dto: Dto, decisionPoint: string)
    requires SoundPlan(r, p) && Unmixed(dto) && !OutOfScope(r.wholeRun, dto, r.cfg.allowed)
    ensures SoundChild(r, ChildOf(r, p, dto, decisionPoint))
    ensures decisionPoint != "" ==> SoundNode(r, ChildOf(r, p, dto, decisionPoint))
  {
  }

  /** A surviving branch of a frontier at `level` is a sound node one of the two levels on; a
      choice state among them still has steps left, a resolved one still has depth left. */
  lemma ExpandableAdvances(r: Rules, p: Planned, results: map<BranchId, BranchResult>, level: Level)
    requires ValidRules(r) && SoundPlan(r, p) && ReadableUnmixed(results)
    requires AtLevel(p.node, level) && OpenLevel(r.cfg, level)
    requires JudgeIn(r, p, results).Expandable?
    ensures var n := JudgeIn(r, p, results).node;
      && n.branch == p.branch && SoundNode(r, n) && n.depth == p.node.depth + 1 && n.parent == p.node.branch
      && InScopeIfWholeRun(r, n) && !n.terminal
      && (if IsContinuation(n.dto)
          then AtLevel(n, NextChoosing(level)) && OpenLevel(r.cfg, NextChoosing(level))
          else AtLevel(n, NextStable(level)) && OpenLevel(r.cfg, NextStable(level)))
  {
    SelectedActionType(p.node.dto, p.action, r.cfg.allowed);
    var result := results[p.branch];
    ChildIsSound(r, p, result.dto.value, result.decisionPoint);
  }

  predicate InScopeIfWholeRun(r: Rules, n: BeamNode) {
    r.wholeRun ==> InScope(r.wholeRun, n.dto, r.cfg.allowed)
  }

  lemma LeafIsSound(r: Rules, p: Planned, results: map<BranchId, BranchResult>)
    requires SoundPlan(r, p) && ReadableUnmixed(results) && JudgeIn(r, p, results).Leaf?
    ensures var n := JudgeIn(r, p, results).node;
      && n.branch == p.branch && n.rngId == p.rngId && SoundChild(r, n)
      && n.depth == p.node.depth + 1 && n.parent == p.node.branch
  {
    var result := results[p.branch];
    ChildIsSound(r, p, result.dto.value, result.decisionPoint);
  }

  /** The line of a mixed resolved state that answers its own choice action with itself. */
  function MixedLine(r: Rules, start: BeamNode, action: string, n: nat): BeamNode {
    if n == 0 then start
    else ChildOf(r, Planned(MixedLine(r, start, action, n - 1), action, "b", 1), start.dto, "d")
  }

  /** Why the ply bound needs the assumption that choice actions are never offered next to
      others: a state that mixes them and keeps answering its choice action with itself is
      judged expandable for ever, at the combat depth it started from. */
  lemma {:induction false} MixedStateNeverAdvances(r: Rules, start: BeamNode, action: string, n: nat)
    requires ValidRules(r) && !r.wholeRun && !r.cfg.turnBoundary
    requires !IsContinuation(start.dto) && !IsTerminal(start.dto) && start.combatDepth < r.cfg.maxDepth
    requires IsContinuationMove(Planned(start, action, "b", 1))
    ensures var line := MixedLine(r, start, action, n);
      line.dto == start.dto && line.combatDepth == start.combatDepth
      && Judge(r, Planned(line, action, "b", 1), Resolved(false, Some(start.dto), "d"))
         == Expandable(MixedLine(r, start, action, n + 1))
  {
    if n > 0 {
      MixedStateNeverAdvances(r, start, action, n - 1);
    }
  }

  /** Such a state: one card next to one card choice. */
  lemma MixedStateExists(score: Dto -> real) returns (r: Rules, start: BeamNode, action: string)
    ensures ValidRules(r) && !r.wholeRun && !r.cfg.turnBoundary && Searchable(start.dto, r.cfg.allowed)
    ensures !IsContinuation(start.dto) && !IsTerminal(start.dto) && start.combatDepth < r.cfg.maxDepth
    ensures IsContinuationMove(Planned(start, action, "b", 1)) && !Unmixed(start.dto)
  {
    var actions := [Action("choose", ChoiceCard, true), Action("strike", Card, true)];
    var dto := Dto(Some(actions), false, None, true);
    action := "choose";
    start := RootNode(dto, "d");
    r := Rules(Config(8, 4, 2, 64, true, true, {Card, ChoiceCard}, 8, 3, false), false, dto, score);
    assert actions[0].available && actions[1].available;
    assert Offers(actions, Card) && Offers(actions, ChoiceCard);
    assert ActionTypeFor(actions, "choose") == Some(ChoiceCard);
  }
}
