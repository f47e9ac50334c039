/** The data the beam search works on: its configuration, nodes and planned branches, the
    allocator of fresh ids, and the emulator behind the client. */
module BeamModel {
  import opened Wrappers
  import opened WireContract
  import opened CombatDecision
  import opened Decimals
  import opened BranchLog

  datatype Config = Config(
    beamWidth: nat, topK: nat, maxDepth: nat, maxBatchSize: nat,
    expandPartial: bool, releaseOnFinish: bool, allowed: set<ActionType>,
    maxContinuation: nat, maxAttempts: nat, turnBoundary: bool)

  predicate ValidConfig(c: Config) {
    c.beamWidth > 0 && c.topK > 0 && c.maxDepth > 0 && c.maxBatchSize > 0
    && c.maxContinuation > 0 && c.maxAttempts > 0
  }

  datatype BeamNode = BeamNode(
    branch: BranchId, parent: BranchId, rngId: int, decisionPoint: string, dto: Dto,
    depth: nat, value: real, rootAction: Option<string>, action: Option<string>,
    combatDepth: nat, continuationSteps: nat, terminal: bool)

  function RootNode(dto: Dto, decisionPoint: string): BeamNode {
    BeamNode(ROOT_BRANCH_ID, ROOT_BRANCH_ID, 0, decisionPoint, dto, 0, 0.0, None, None, 0, 0, false)
  }

  predicate MacroResolved(n: BeamNode) {
    n.terminal || !IsContinuation(n.dto)
  }

  /** One branch the search has planned: a candidate action of a beam node. */
  datatype Planned = Planned(node: BeamNode, action: string, branch: BranchId, rngId: int)

  function ItemFor(p: Planned): EmulateItem {
    EmulateItem(p.node.branch, p.branch, p.rngId, p.node.decisionPoint, p.action)
  }

  function ItemsFor(plan: seq<Planned>): seq<EmulateItem> {
    seq(|plan|, i requires 0 <= i < |plan| => ItemFor(plan[i]))
  }

  function ItemBranches(items: seq<EmulateItem>): set<BranchId> {
    set i | 0 <= i < |items| :: items[i].branch
  }

  function PlanIds(plan: seq<Planned>): (ids: seq<BranchId>)
    ensures |ids| == |plan| && forall i :: 0 <= i < |plan| ==> ids[i] == plan[i].branch
  {
    seq(|plan|, i requires 0 <= i < |plan| => plan[i].branch)
  }

  function Ids(nodes: seq<BeamNode>): set<BranchId> {
    set i | 0 <= i < |nodes| :: nodes[i].branch
  }

  ghost predicate Distinct(ids: seq<BranchId>) {
    forall i, j :: 0 <= i < j < |ids| ==> ids[i] != ids[j]
  }

  ghost predicate DistinctNodes(nodes: seq<BeamNode>) {
    forall i, j :: 0 <= i < j < |nodes| ==> nodes[i].branch != nodes[j].branch
  }

  function SetOf(ids: seq<BranchId>): set<BranchId> {
    set i | 0 <= i < |ids| :: ids[i]
  }

  lemma SetOfAppend(a: seq<BranchId>, b: seq<BranchId>)
    ensures SetOf(a + b) == SetOf(a) + SetOf(b)
  {
    forall x | x in SetOf(b) ensures x in SetOf(a + b) {
      var i :| 0 <= i < |b| && b[i] == x;
      assert (a + b)[|a| + i] == x;
    }
    forall x | x in SetOf(a) ensures x in SetOf(a + b) {
      var i :| 0 <= i < |a| && a[i] == x;
      assert (a + b)[i] == x;
    }
  }

  // ----- fresh ids ---------------------------------------------------------------------

  function BranchName(prefix: string, n: nat): BranchId {
    "bs-" + prefix + "-" + PrintNat(n)
  }

  lemma BranchNameInjective(prefix: string, m: nat, n: nat)
    requires BranchName(prefix, m) == BranchName(prefix, n)
    ensures m == n
  {
    var front := "bs-" + prefix + "-";
    assert BranchName(prefix, m)[|front|..] == PrintNat(m);
    assert BranchName(prefix, n)[|front|..] == PrintNat(n);
    PrintNatInjective(m, n);
  }

  lemma BranchNameIsNotRoot(prefix: string, n: nat)
    ensures BranchName(prefix, n) != ROOT_BRANCH_ID && BranchName(prefix, n) != ""
  {
    assert BranchName(prefix, n)[0] == 'b' && ROOT_BRANCH_ID[0] == 'r';
  }

  class BranchIdAllocator {
    const prefix: string
    var branchCounter: nat
    var rngCounter: nat
    ghost var issued: set<BranchId>

    ghost predicate Valid()
      reads this
    {
      && (forall b :: b in issued ==> exists k: nat :: k <= branchCounter && b == BranchName(prefix, k))
      && ROOT_BRANCH_ID !in issued && "" !in issued
    }

    constructor (prefix: string)
      ensures Valid() && issued == {}
    {
      this.prefix := prefix;
      branchCounter, rngCounter, issued := 0, 0, {};
    }

    /** A branch id never issued before, and never the root. */
    method NextBranchId() returns (b: BranchId)
      requires Valid()
      modifies this
      ensures Valid() && rngCounter == old(rngCounter)
      ensures b !in old(issued) && issued == old(issued) + {b}
      ensures b != ROOT_BRANCH_ID && b != ""
    {
      branchCounter := branchCounter + 1;
      b := BranchName(prefix, branchCounter);
      BranchNameIsNotRoot(prefix, branchCounter);
      if b in issued {
        var k: nat :| k <= branchCounter - 1 && b == BranchName(prefix, k);
        BranchNameInjective(prefix, k, branchCounter);
      }
      issued := issued + {b};
    }

    method NextRngId() returns (r: int)
      requires Valid()
      modifies this
      ensures Valid() && issued == old(issued) && branchCounter == old(branchCounter)
      ensures r == rngCounter == old(rngCounter) + 1
    {
      rngCounter := rngCounter + 1;
      r := rngCounter;
    }
  }

  // ----- the emulator behind the client ------------------------------------------------

  /** One branch's outcome: `Resolved` is a `completed` or `partial` status, with the masked
      state when it is readable. */
  datatype BranchResult = Unresolved | Resolved(partial: bool, dto: Option<Dto>, decisionPoint: string)

  /** What the server answered for one branch, and the item that asked for it. */
  datatype Emulated = Emulated(item: EmulateItem, result: BranchResult)

  /** The later record still has every answer of the earlier one. */
  ghost predicate Extends(before: map<BranchId, Emulated>, after: map<BranchId, Emulated>) {
    forall b :: b in before ==> b in after && after[b] == before[b]
  }

  /** The item asks for exactly this move: its action, in its state, below its node, with its rng. */
  predicate AsksFor(item: EmulateItem, p: Planned) {
    && item.parent == p.node.branch && item.decisionPoint == p.node.decisionPoint
    && item.branch == p.branch && item.action == p.action && item.rngId == p.rngId
  }

  /** The server's answers to the moves from `k` up to `c` are on record: each branch's own result,
      or unresolved when the results do not mention it. */
  ghost predicate Heard(plan: seq<Planned>, k: nat, c: nat, results: map<BranchId, BranchResult>,
                        answers: map<BranchId, Emulated>)
  {
    && k <= c <= |plan|
    && forall j :: k <= j < c ==>
         && plan[j].branch in answers && AsksFor(answers[plan[j].branch].item, plan[j])
         && answers[plan[j].branch].result == if plan[j].branch in results then results[plan[j].branch] else Unresolved
  }

  lemma HeardChunk(plan: seq<Planned>, k: nat, c: nat, results: map<BranchId, BranchResult>,
                   answers: map<BranchId, Emulated>)
    requires k <= c <= |plan| && RecordedItems(ItemsFor(plan[k..c]), results, answers)
    ensures Heard(plan, k, c, results, answers)
  {
    var items := ItemsFor(plan[k..c]);
    forall j | k <= j < c ensures items[j - k] == ItemFor(plan[j]) && items[j - k].branch in answers {
    }
  }

  ghost predicate RecordedItems(items: seq<EmulateItem>, results: map<BranchId, BranchResult>,
                                answers: map<BranchId, Emulated>)
  {
    forall i :: 0 <= i < |items| ==>
      && items[i].branch in answers && answers[items[i].branch].item == items[i]
      && answers[items[i].branch].result
         == if items[i].branch in results then results[items[i].branch] else Unresolved
  }

  /** What one `emulate_actions` call gives back: the results, a usable or unusable rejection, a
      transport error before or after the request was handed over, or any other failure: a fault
      or an unreadable answer. */
  datatype EmulateReply =
    | Results(results: map<BranchId, BranchResult>)
    | RejectedBatch(unusable: bool)
    | TransportBroken(unusable: bool, uncertain: bool)
    | OtherError

  datatype CleanupReply =
    | CleanupDone
    | CleanupRefused(unusable: bool)
    | CleanupNotSent(unusable: bool)
    | CleanupUncertain

  /** The readable states never offer continuation actions next to others. */
  predicate ReadableUnmixed(results: map<BranchId, BranchResult>) {
    forall b :: b in results && results[b].Resolved? && results[b].dto.Some? ==> Unmixed(results[b].dto.value)
  }

  /** What is assumed of the emulator, and what the client keeps: an uncertain request stays
      pending or ends the session. */
  predicate WellBehaved(reply: EmulateReply) {
    && (reply.Results? ==> ReadableUnmixed(reply.results))
    && (reply.TransportBroken? && reply.uncertain ==> reply.unusable)
  }

  /** The request may have been carried out although no results came back. */
  predicate LeavesDoubt(reply: EmulateReply) {
    reply.OtherError? || (reply.TransportBroken? && reply.uncertain)
  }

  function EmulateEntry(items: seq<EmulateItem>, reply: EmulateReply): seq<Exchange> {
    if reply.Results? then [Confirmed(ItemBranches(items))]
    else if LeavesDoubt(reply) then [InDoubt(ItemBranches(items))]
    else []
  }

  function ReleaseEntry(ids: seq<BranchId>, reply: CleanupReply): seq<Exchange> {
    if reply.CleanupDone? then [Released(SetOf(ids))]
    else if reply.CleanupUncertain? then [ReleaseInDoubt(SetOf(ids))]
    else []
  }

  lemma EntryIsOrderly(items: seq<EmulateItem>, reply: EmulateReply, live: set<BranchId>, ever: set<BranchId>,
                       log: seq<Exchange>, limit: Option<nat>)
    requires AcceptableBatch(items, limit) && Orderly(log) && live == LiveAfter(log) && ever == EverAfter(log)
    requires live <= ever && forall i :: 0 <= i < |items| ==> items[i].branch !in ever
    ensures Orderly(log + EmulateEntry(items, reply)) && ROOT_BRANCH_ID !in ItemBranches(items)
    ensures LiveAfter(log + EmulateEntry(items, reply)) == if reply.Results? then live + ItemBranches(items) else live
    ensures EverAfter(log + EmulateEntry(items, reply))
            == if EmulateEntry(items, reply) == [] then ever else ever + ItemBranches(items)
  {
    var entry := EmulateEntry(items, reply);
    assert items[0].branch in ItemBranches(items);
    forall b | b in ItemBranches(items) ensures b != ROOT_BRANCH_ID && b !in ever {
      var i :| 0 <= i < |items| && items[i].branch == b;
      assert ItemWellFormed(items[i]);
    }
    if entry == [] {
      assert log + entry == log;
    } else {
      assert (log + entry)[..|log|] == log && |log + entry| == |log| + 1;
    }
  }

  lemma ReleaseIsOrderly(ids: seq<BranchId>, reply: CleanupReply, live: set<BranchId>, ever: set<BranchId>,
                         log: seq<Exchange>)
    requires Orderly(log) && live == LiveAfter(log) && ever == EverAfter(log) && forall b :: b in ids ==> b in live
    ensures Orderly(log + ReleaseEntry(ids, reply)) && EverAfter(log + ReleaseEntry(ids, reply)) == ever
    ensures LiveAfter(log + ReleaseEntry(ids, reply)) == if reply.CleanupDone? then live - SetOf(ids) else live
  {
    var entry := ReleaseEntry(ids, reply);
    if entry == [] {
      assert log + entry == log;
    } else {
      assert (log + entry)[..|log|] == log && |log + entry| == |log| + 1;
    }
  }

  ghost function ItemOn(items: seq<EmulateItem>, b: BranchId): EmulateItem
    requires b in ItemBranches(items)
  {
    var i :| 0 <= i < |items| && items[i].branch == b;
    items[i]
  }

  /** The record with the answers to one more request. */
  ghost function Recorded(answers: map<BranchId, Emulated>, items: seq<EmulateItem>,
                          results: map<BranchId, BranchResult>): map<BranchId, Emulated>
  {
    answers + map b | b in ItemBranches(items) ::
      Emulated(ItemOn(items, b), if b in results then results[b] else Unresolved)
  }

  lemma RecordedAreItems(answers: map<BranchId, Emulated>, items: seq<EmulateItem>,
                         results: map<BranchId, BranchResult>, ever: set<BranchId>)
    requires DistinctBranches(items) && answers.Keys <= ever
    requires forall i :: 0 <= i < |items| ==> items[i].branch !in ever
    ensures var answers' := Recorded(answers, items, results);
      && Extends(answers, answers') && answers'.Keys == answers.Keys + ItemBranches(items)
      && RecordedItems(items, results, answers')
  {
    forall i | 0 <= i < |items|
      ensures items[i].branch in ItemBranches(items) && ItemOn(items, items[i].branch) == items[i]
    {
      var j :| 0 <= j < |items| && items[j].branch == items[i].branch && items[j] == ItemOn(items, items[i].branch);
      assert i == j;
    }
  }

  /** The client as the search sees it. Its answers are arbitrary; its preconditions are the
      checks of the wire contract and the existence of every branch a request names, so each
      call below is also a proof that the request passes them. */
  class EmulatorClient {
    const wholeRun: bool
    const batchLimit: Option<nat>
    var unusable: bool
    // What is confirmed to exist, what ever was or may have been created, and the requests
    // behind both.
    ghost var live: set<BranchId>
    ghost var ever: set<BranchId>
    ghost var log: seq<Exchange>
    ghost var cancelled: set<BranchId>
    // The server's answer for every branch it confirmed.
    ghost var answers: map<BranchId, Emulated>

    ghost predicate Valid()
      reads this
    {
      && (batchLimit.Some? ==> batchLimit.value > 0) && ROOT_BRANCH_ID !in ever && live <= ever
      && answers.Keys <= ever
      && Orderly(log) && live == LiveAfter(log) && ever == EverAfter(log)
    }

    constructor (wholeRun: bool, batchLimit: Option<nat>)
      requires batchLimit.Some? ==> batchLimit.value > 0
      ensures Valid() && live == {} && log == [] && !unusable && answers == map[]
      ensures this.wholeRun == wholeRun && this.batchLimit == batchLimit
    {
      this.wholeRun, this.batchLimit := wholeRun, batchLimit;
      unusable, live, ever, log, cancelled, answers := false, {}, {}, [], {}, map[];
    }

    method EmulateActions(items: seq<EmulateItem>) returns (reply: EmulateReply)
      requires Valid()
      requires AcceptableBatch(items, batchLimit)
      requires forall i :: 0 <= i < |items| ==> items[i].parent == ROOT_BRANCH_ID || items[i].parent in live
      requires forall i :: 0 <= i < |items| ==> items[i].branch !in ever
      modifies this
      ensures Valid() && WellBehaved(reply)
      ensures live == (if reply.Results? then old(live) + ItemBranches(items) else old(live))
      ensures log == old(log) + EmulateEntry(items, reply)
      ensures ever == (if EmulateEntry(items, reply) == [] then old(ever) else old(ever) + ItemBranches(items))
      ensures Extends(old(answers), answers)
      ensures answers.Keys == if reply.Results? then old(answers.Keys) + ItemBranches(items) else old(answers.Keys)
      ensures reply.Results? ==> RecordedItems(items, reply.results, answers)
      ensures reply.RejectedBatch? ==> unusable == reply.unusable
      ensures reply.TransportBroken? ==> unusable == reply.unusable
    {
      assert WellBehaved(OtherError);
      reply :| WellBehaved(reply);
      var broken: bool := *;
      unusable := match reply
        case RejectedBatch(u) => u
        case TransportBroken(u, _) => u
        case _ => broken;
      EntryIsOrderly(items, reply, live, ever, log, batchLimit);
      if reply.Results? {
        live := live + ItemBranches(items);
        RecordedAreItems(answers, items, reply.results, old(ever));
        answers := Recorded(answers, items, reply.results);
      }
      if EmulateEntry(items, reply) != [] {
        ever := ever + ItemBranches(items);
      }
      log := log + EmulateEntry(items, reply);
    }

    /** `cancel_branches`: names only branches that still exist, and removes none. */
    method CancelBranches(ids: seq<BranchId>) returns (reply: CleanupReply)
      requires Valid() && AcceptableIds(ids)
      requires forall b :: b in ids ==> b in live
      modifies this
      ensures Valid() && live == old(live) && ever == old(ever) && log == old(log) && answers == old(answers)
      ensures cancelled == if reply.CleanupDone? then old(cancelled) + SetOf(ids) else old(cancelled)
      ensures reply.CleanupRefused? ==> unusable == reply.unusable
      ensures reply.CleanupNotSent? ==> unusable == reply.unusable
    {
      reply := *;
      var broken: bool := *;
      unusable := match reply
        case CleanupRefused(u) => u
        case CleanupNotSent(u) => u
        case _ => broken;
      if reply.CleanupDone? {
        cancelled := cancelled + SetOf(ids);
      }
    }

    /** `release_branches`: names only branches that still exist, so none is successfully
        released twice. */
    method ReleaseBranches(ids: seq<BranchId>) returns (reply: CleanupReply)
      requires Valid() && AcceptableIds(ids)
      requires forall b :: b in ids ==> b in live
      modifies this
      ensures Valid() && ever == old(ever) && cancelled == old(cancelled) && answers == old(answers)
      ensures live == (if reply.CleanupDone? then old(live) - SetOf(ids) else old(live))
      ensures log == old(log) + ReleaseEntry(ids, reply)
      ensures reply.CleanupRefused? ==> unusable == reply.unusable
      ensures reply.CleanupNotSent? ==> unusable == reply.unusable
    {
      reply := *;
      var broken: bool := *;
      unusable := match reply
        case CleanupRefused(u) => u
        case CleanupNotSent(u) => u
        case _ => broken;
      ReleaseIsOrderly(ids, reply, live, ever, log);
      if reply.CleanupDone? {
        live := live - SetOf(ids);
      }
      log := log + ReleaseEntry(ids, reply);
    }
  }

  /** The batch size a request may have: the configured one, cut to the server's limit. */
  function BatchSize(c: Config, limit: Option<nat>): (n: nat)
    requires ValidConfig(c) && (limit.Some? ==> limit.value > 0)
    ensures n > 0 && n <= c.maxBatchSize && (limit.Some? ==> n <= limit.value)
    ensures n == c.maxBatchSize || limit == Some(n)
  {
    if limit.Some? && limit.value < c.maxBatchSize then limit.value else c.maxBatchSize
  }

  /** The shared active-branch budget, which only whole-run instances have. */
  function ActiveCapacity(wholeRun: bool, limit: Option<nat>): Option<nat> {
    if wholeRun then limit else None
  }

  predicate InScope(wholeRun: bool, dto: Dto, allowed: set<ActionType>) {
    (!wholeRun || dto.combatBoundary) && Searchable(dto, allowed)
  }

  predicate OutOfScope(wholeRun: bool, dto: Dto, allowed: set<ActionType>) {
    wholeRun && !IsTerminal(dto) && !InScope(wholeRun, dto, allowed)
  }
}
