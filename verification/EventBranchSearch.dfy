/** Evaluating the options of an event on branches, and who owns those branches afterwards. */
module EventBranchSearch {
  import opened Wrappers
  import opened WireContract
  import opened SelectionAudit
  import opened SessionClient
  import opened TrainingClient

  datatype Candidate = Candidate(branch: BranchId, action: string, rngId: int)

  datatype EventResult = Chosen(action: string) | NoChoice | Raised

  function BranchesOf(candidates: seq<Candidate>): seq<BranchId> {
    seq(|candidates|, i requires 0 <= i < |candidates| => candidates[i].branch)
  }

  /** Each candidate's branch id carries its index, so no two are equal. */
  ghost predicate DistinctCandidates(candidates: seq<Candidate>) {
    forall i, j :: 0 <= i < j < |candidates| ==> candidates[i].branch != candidates[j].branch
  }

  function ItemOf(c: Candidate, decisionPoint: string): EmulateItem {
    EmulateItem(ROOT_BRANCH_ID, c.branch, c.rngId, decisionPoint, c.action)
  }

  // ----- the choice --------------------------------------------------------------------

  /** The HP an answer says the branch left the player with, when it completed and left any. */
  function HpFromResult(results: map<BranchId, BranchReport>, b: BranchId): Option<real> {
    if b !in results || !results[b].completed then None
    else if results[b].hp.Some? && results[b].hp.value > 0.0 then results[b].hp else None
  }

  /** The request was answered, and says that the player lives on in this branch. */
  ghost predicate Survives(o: Outcome, b: BranchId) {
    && o.Answered? && o.response.Completed? && b in o.response.results
    && o.response.results[b].completed && o.response.results[b].hp.Some? && o.response.results[b].hp.value > 0.0
  }

  ghost function HpLeft(o: Outcome, b: BranchId): real
    requires Survives(o, b)
  {
    o.response.results[b].hp.value
  }

  /** `i` is the first candidate with the highest HP among those that survive, each by the outcome
      of the request that tried it. */
  ghost predicate FirstBest(candidates: seq<Candidate>, outcomes: seq<Outcome>, i: nat) {
    && i < |candidates| == |outcomes| && Survives(outcomes[i], candidates[i].branch)
    && forall j :: 0 <= j < |candidates| && Survives(outcomes[j], candidates[j].branch) ==>
         HpLeft(outcomes[j], candidates[j].branch) <= HpLeft(outcomes[i], candidates[i].branch)
         && (j < i ==> HpLeft(outcomes[j], candidates[j].branch) < HpLeft(outcomes[i], candidates[i].branch))
  }

  /** The action of the first best candidate, and no choice exactly when none survives. */
  ghost predicate BestChoice(candidates: seq<Candidate>, outcomes: seq<Outcome>, r: EventResult) {
    && |outcomes| == |candidates|
    && match r
       case Chosen(action) => exists i: nat :: FirstBest(candidates, outcomes, i) && candidates[i].action == action
       case NoChoice => forall j :: 0 <= j < |candidates| ==> !Survives(outcomes[j], candidates[j].branch)
       case Raised => false
  }

  /** One request tried all the candidates. */
  ghost function ForAll(candidates: seq<Candidate>, o: Outcome): (r: seq<Outcome>)
    ensures |r| == |candidates| && forall i :: 0 <= i < |r| ==> r[i] == o
  {
    seq(|candidates|, i => o)
  }

  method BestFromBatch(candidates: seq<Candidate>, results: map<BranchId, BranchReport>, ghost o: Outcome)
    returns (r: EventResult)
    requires o.Answered? && o.response.Completed? && results == o.response.results
    ensures BestChoice(candidates, ForAll(candidates, o), r)
  {
    ghost var outcomes := ForAll(candidates, o);
    r := NoChoice;
    var best: nat, bestHp: real := 0, 0.0;
    for n := 0 to |candidates|
      invariant ChosenSoFar(candidates, outcomes[..n], r, best, bestHp)
    {
      var hp := HpFromResult(results, candidates[n].branch);
      assert outcomes[..n + 1] == outcomes[..n] + [o];
      OneMoreChoice(candidates, outcomes[..n], r, best, bestHp, o);
      if hp.Some? && (r.NoChoice? || hp.value > bestHp) {
        r, best, bestHp := Chosen(candidates[n].action), n, hp.value;
      }
    }
    assert outcomes[..|candidates|] == outcomes;
    ChosenOverAll(candidates, outcomes, r, best, bestHp);
  }

  /** The running choice after as many candidates as there are outcomes. */
  ghost predicate ChosenSoFar(candidates: seq<Candidate>, outcomes: seq<Outcome>, r: EventResult, best: nat,
                              bestHp: real)
  {
    && |outcomes| <= |candidates|
    && match r
       case NoChoice => forall j :: 0 <= j < |outcomes| ==> !Survives(outcomes[j], candidates[j].branch)
       case Chosen(action) =>
         FirstBest(candidates[..|outcomes|], outcomes, best)
         && candidates[best].action == action && HpLeft(outcomes[best], candidates[best].branch) == bestHp
       case Raised => false
  }

  lemma ChosenOverAll(candidates: seq<Candidate>, outcomes: seq<Outcome>, r: EventResult, best: nat, bestHp: real)
    requires |outcomes| == |candidates| && ChosenSoFar(candidates, outcomes, r, best, bestHp)
    ensures BestChoice(candidates, outcomes, r)
  {
    assert candidates[..|candidates|] == candidates;
    if r.Chosen? {
      assert FirstBest(candidates, outcomes, best);
    }
  }

  /** A further outcome replaces the choice so far only if it leaves more HP. */
  lemma OneMoreChoice(candidates: seq<Candidate>, outcomes: seq<Outcome>, r: EventResult, best: nat, bestHp: real,
                      o: Outcome)
    requires |outcomes| < |candidates| && ChosenSoFar(candidates, outcomes, r, best, bestHp)
    ensures var n := |outcomes|;
      if Survives(o, candidates[n].branch) && (r.NoChoice? || HpLeft(o, candidates[n].branch) > bestHp)
      then ChosenSoFar(candidates, outcomes + [o], Chosen(candidates[n].action), n, HpLeft(o, candidates[n].branch))
      else ChosenSoFar(candidates, outcomes + [o], r, best, bestHp)
  {
    var n := |outcomes|;
    assert candidates[..n + 1] == candidates[..n] + [candidates[n]];
  }

  // ----- ownership ---------------------------------------------------------------------

  /** The outcomes after which an emulate request may have left its branches behind. */
  predicate MayHaveCreated(o: Outcome) {
    o.AnswerLost? || (o.Answered? && !o.response.Rejected?)
  }

  /** The branch waits for the exact replay: the request that may have created it, or that
      followed it, is pending, and its record will release the branch. */
  predicate DeferredOwner(c: ClientState, b: BranchId) {
    c.pending.Some? && IsEmulate(c.pending.value.op)
    && c.cleanup.Some? && c.cleanup.value.token == c.pending.value && b in c.cleanup.value.branches
  }

  /** Between two requests of an evaluation on a live client: nothing is pending and the scope
      owns exactly what may exist, or the pending request carries all of it. */
  ghost predicate Owned(c: ClientState, created: seq<BranchId>, maybe: set<BranchId>) {
    !c.invalid ==>
      if c.pending.None? then c.cleanup.None? && forall b :: b in maybe <==> b in created
      else forall b :: b in maybe ==> DeferredOwner(c, b)
  }

  ghost predicate DistinctIds(ids: seq<BranchId>) {
    forall i, j :: 0 <= i < j < |ids| ==> ids[i] != ids[j]
  }

  /** Hands the branches to the pending retry, when there is one. A failure to attach them is
      an error of its own. */
  method DeferRetryCleanup(client: AsyncTrainingApiClient, instance: string, ids: seq<BranchId>)
    requires client.Valid()
    modifies client
    ensures client.Valid()
    ensures client.State() ==
      var c := old(client.State());
      if c.pending.None? then c
      else match Deferred(c, c.pending.value, instance, ids)
           case Success(d) => d
           case Failure(_) => c
  {
    if client.pendingRetry.Some? {
      var error := client.DeferBranchCleanupAfterRetry(client.pendingRetry.value, instance, ids);
    }
  }

  /** An emulate request that ended uncertain, followed by the hand-over: every branch it may
      have created and every branch owned before is left with the retry token, exactly when no
      older cleanup record is still around. */
  lemma UncertainHandOver(c: ClientState, op: Operation, o: Outcome, instance: string, ids: seq<BranchId>)
    requires ClientInv(c) && Usable(c) && CanBuild(c, op) && IsEmulate(op)
    requires InstanceOf(op) == Some(instance)
    requires forall b :: b in CreatedBranches(op) ==> b in ids
    requires forall b :: b in ids ==> b != "" && b != ROOT_BRANCH_ID
    requires o.AnswerLost? || o == Answered(Malformed)
    ensures var d := AfterFresh(c, NextRequest(c, op), o);
      d.pending == Some(NextRequest(c, op))
      && (Deferred(d, NextRequest(c, op), instance, ids).Success? <==> c.cleanup.None?)
      && (c.cleanup.None? ==>
            forall b :: b in ids ==> DeferredOwner(Deferred(d, NextRequest(c, op), instance, ids).value, b))
  {
    LostIsPending(c, op, o);
    SomethingIsCreated(c, op);
    HandOver(AfterFresh(c, NextRequest(c, op), o), NextRequest(c, op), instance, ids);
  }

  lemma LostIsPending(c: ClientState, op: Operation, o: Outcome)
    requires Usable(c) && IsEmulate(op) && (o.AnswerLost? || o == Answered(Malformed))
    ensures var d := AfterFresh(c, NextRequest(c, op), o);
      d.pending == Some(NextRequest(c, op)) && d.cleanup == c.cleanup && !d.invalid
  {
  }

  lemma SomethingIsCreated(c: ClientState, op: Operation)
    requires CanBuild(c, op) && IsEmulate(op)
    ensures CreatedBranches(op) != {}
  {
    match op
    case EmulateAction(_, item) => assert item.branch in CreatedBranches(op);
    case EmulateActions(_, items) => assert items[0].branch in CreatedBranches(op);
  }

  lemma HandOver(d: ClientState, q: Request, instance: string, ids: seq<BranchId>)
    requires d.pending == Some(q) && !d.invalid && IsEmulate(q.op) && InstanceOf(q.op) == Some(instance)
    requires CreatedBranches(q.op) != {} && forall b :: b in CreatedBranches(q.op) ==> b in ids
    requires forall b :: b in ids ==> b != "" && b != ROOT_BRANCH_ID
    requires d.cleanup.Some? ==> d.cleanup.value.token != q
    ensures Deferred(d, q, instance, ids).Success? <==> d.cleanup.None?
    ensures d.cleanup.None? ==> forall b :: b in ids ==> DeferredOwner(Deferred(d, q, instance, ids).value, b)
  {
  }

  /** The price of a refused release replay: its record stays behind, and the branches of the
      next evaluation that ends uncertain can no longer be handed over. */
  lemma RefusedReleaseStrandsNextEvaluation(
      c: ClientState, release: Request, refusal: Outcome, op: Operation, instance: string, ids: seq<BranchId>)
    requires ClientInv(c) && Executable(c, release) && c.pending == Some(release)
    requires ReleaseReplayRefused(c, release, refusal)
    requires var d := AfterReplay(c, release, refusal);
      CanBuild(d, op) && IsEmulate(op) && InstanceOf(op) == Some(instance)
    ensures var d := AfterReplay(c, release, refusal);
      var lost := AfterFresh(d, NextRequest(d, op), AnswerLost);
      Usable(d) && lost.pending == Some(NextRequest(d, op))
      && Deferred(lost, NextRequest(d, op), instance, ids).Failure?
      && forall b :: !DeferredOwner(lost, b)
  {
    CallKeepsInv(c, release, refusal);
  }

  /** The request was answered, with success or without, and the client can go on. */
  predicate Conclusive(o: Outcome, c: ClientState) {
    o.Answered? && !o.response.Malformed? && Usable(c)
  }

  /** How one emulate request of an evaluation ended, as the evaluation sees it. */
  datatype Attempt = Done(results: map<BranchId, BranchReport>) | Refused | BranchFaulted | Failed

  /** Sends one emulate request. When it ends without a definitive answer, `owned` and the
      branches it may have created itself are handed to its retry token. */
  method TryEmulate(client: AsyncTrainingApiClient, instance: string, op: Operation,
                    owned: seq<BranchId>, own: seq<BranchId>)
    returns (t: Attempt, ghost o: Outcome)
    requires client.Valid() && IsEmulate(op) && InstanceOf(op) == Some(instance)
    requires forall b :: b in own <==> b in CreatedBranches(op)
    requires forall b :: b in owned ==> b != "" && b != ROOT_BRANCH_ID
    modifies client, client.audit, client.connection
    ensures client.Valid()
    ensures client.State().instance == old(client.State()).instance
    ensures !t.Failed? ==> CanBuild(old(client.State()), op)
    ensures !t.Failed? ==> Usable(client.State()) && client.State().instance == Some(instance)
    ensures !t.Failed? ==> client.State().cleanup == old(client.State()).cleanup
    ensures !t.Failed? ==> client.State() == AfterFresh(old(client.State()), NextRequest(old(client.State()), op), o)
    ensures t.Done? <==> o.Answered? && o.response.Completed?
    ensures t.Done? ==> t.results == o.response.results
    ensures t.Failed? <==> !Conclusive(o, client.State())
    ensures t.Refused? ==> o.Answered? && o.response.Rejected?
    ensures !t.Failed? ==> (MayHaveCreated(o) <==> t.Done? || t.BranchFaulted?)
    ensures t.Failed? && !client.State().invalid && Usable(old(client.State()))
            && old(client.State()).cleanup.None? ==>
      if client.State().pending.None? then client.State().cleanup.None? && !MayHaveCreated(o)
      else forall b :: b in owned + own ==> DeferredOwner(client.State(), b)
  {
    ghost var before := client.State();
    var answer;
    answer, o := client.Call(op);
    match answer {
      case Answer(response) => t := Done(response.results);
      case OperationError(response) =>
        var unusable := client.pendingRetry.Some? || client.sessionInvalid;
        t := if unusable then Failed else if response.Faulted? then BranchFaulted else Refused;
      case _ =>
        if !answer.LocalError? && !MayHaveCreated(o) {
        } else if !answer.LocalError? && Usable(before) && before.cleanup.None? {
          BuiltIdsAreNamed(before, op);
          UncertainHandOver(before, op, o, instance, owned + own);
        }
        DeferRetryCleanup(client, instance, owned + own);
        t := Failed;
    }
  }

  lemma BuiltIdsAreNamed(c: ClientState, op: Operation)
    requires CanBuild(c, op) && IsEmulate(op)
    ensures forall b :: b in CreatedBranches(op) ==> b != "" && b != ROOT_BRANCH_ID
  {
  }

  lemma BatchIdsAcceptable(c: ClientState, instance: string, items: seq<EmulateItem>, ids: seq<BranchId>)
    requires CanBuild(c, EmulateActions(instance, items)) && |ids| == |items|
    requires forall i :: 0 <= i < |ids| ==> ids[i] == items[i].branch
    ensures AcceptableIds(ids)
  {
    assert AcceptableBatch(items, c.batchLimit);
    assert forall i :: 0 <= i < |ids| ==> ItemWellFormed(items[i]);
  }

  /** One request for all candidates, on servers that accept event batches. */
  method EvaluateBatch(client: AsyncTrainingApiClient, instance: string, decisionPoint: string,
                       candidates: seq<Candidate>)
    returns (r: EventResult, created: seq<BranchId>, ghost maybe: set<BranchId>, ghost o: Outcome)
    requires client.Valid() && DistinctCandidates(candidates)
    modifies client, client.audit, client.connection
    ensures client.Valid()
    ensures ScopeClosed(client.State(), old(client.State()), instance, created, maybe)
    ensures r.Raised? <==> !Conclusive(o, client.State())
    ensures !r.Raised? ==> BestChoice(candidates, ForAll(candidates, o), r)
    ensures !r.Raised? ==> client.State() == AfterBatch(old(client.State()), instance, decisionPoint, candidates, o)
  {
    created, maybe := [], {};
    var ids := BranchesOf(candidates);
    var items := seq(|candidates|, i requires 0 <= i < |candidates| => ItemOf(candidates[i], decisionPoint));
    var op := EmulateActions(instance, items);
    assert forall i :: 0 <= i < |ids| ==> ids[i] == items[i].branch;
    assert items == AskedItems(candidates, decisionPoint);
    ghost var before := client.State();
    var t;
    t, o := TryEmulate(client, instance, op, [], ids);
    if MayHaveCreated(o) {
      maybe := set b | b in ids;
    }
    if !t.Failed? {
      BatchIdsAcceptable(before, instance, items, ids);
    }
    match t {
      case Done(results) =>
        created := ids;
        r := BestFromBatch(candidates, results, o);
      case BranchFaulted =>
        created, r := ids, NoChoice;
      case Refused =>
        r := NoChoice;
      case Failed =>
        r := Raised;
        assert forall b :: b in ids ==> b in [] + ids;
    }
  }

  /** What an evaluation asks for each candidate: its own action in the event, on its own branch
      below the root and with its own rng. */
  ghost function AskedItems(candidates: seq<Candidate>, decisionPoint: string): seq<EmulateItem> {
    seq(|candidates|, i requires 0 <= i < |candidates| =>
      EmulateItem(ROOT_BRANCH_ID, candidates[i].branch, candidates[i].rngId, decisionPoint, candidates[i].action))
  }

  /** The last request had no conclusive end. */
  ghost predicate EndedInDoubt(outcomes: seq<Outcome>, c: ClientState) {
    outcomes != [] && !Conclusive(outcomes[|outcomes| - 1], c)
  }

  /** The client after one request for all candidates, which ended in `o`. */
  ghost function AfterBatch(c: ClientState, instance: string, decisionPoint: string, candidates: seq<Candidate>,
                            o: Outcome): ClientState
  {
    AfterFresh(c, NextRequest(c, EmulateActions(instance, AskedItems(candidates, decisionPoint))), o)
  }

  /** The client after one request for each of the first candidates, which ended in `outcomes`. */
  ghost function AfterSingles(c: ClientState, instance: string, decisionPoint: string, candidates: seq<Candidate>,
                              outcomes: seq<Outcome>): ClientState
    requires |outcomes| <= |candidates|
  {
    if outcomes == [] then c
    else
      var n := |outcomes| - 1;
      var d := AfterSingles(c, instance, decisionPoint, candidates, outcomes[..n]);
      AfterFresh(d, NextRequest(d, EmulateAction(instance, AskedItems(candidates, decisionPoint)[n])), outcomes[n])
  }

  lemma OneMoreSingle(c: ClientState, instance: string, decisionPoint: string, candidates: seq<Candidate>,
                      outcomes: seq<Outcome>, o: Outcome)
    requires |outcomes| < |candidates|
    ensures var d, x := AfterSingles(c, instance, decisionPoint, candidates, outcomes), candidates[|outcomes|];
      var item := EmulateItem(ROOT_BRANCH_ID, x.branch, x.rngId, decisionPoint, x.action);
      AfterSingles(c, instance, decisionPoint, candidates, outcomes + [o])
      == AfterFresh(d, NextRequest(d, EmulateAction(instance, item)), o)
  {
    assert (outcomes + [o])[..|outcomes|] == outcomes;
  }

  ghost predicate FromPrefix(ids: seq<BranchId>, candidates: seq<Candidate>, n: nat)
    requires n <= |candidates|
  {
    forall b :: b in ids ==> exists i :: 0 <= i < n && candidates[i].branch == b
  }

  lemma FromPrefixGrows(ids: seq<BranchId>, candidates: seq<Candidate>, n: nat)
    requires n < |candidates| && FromPrefix(ids, candidates, n) && DistinctCandidates(candidates)
    ensures FromPrefix(ids, candidates, n + 1) && FromPrefix(ids + [candidates[n].branch], candidates, n + 1)
    ensures candidates[n].branch !in ids
  {
    forall b | b in ids + [candidates[n].branch]
      ensures exists i :: 0 <= i < n + 1 && candidates[i].branch == b
    {
      if b in ids {
        var i :| 0 <= i < n && candidates[i].branch == b;
        assert 0 <= i < n + 1;
      } else {
        assert candidates[n].branch == b;
      }
    }
  }

  /** Where the loop over single candidates stands: the branches it owns come from the candidates
      tried, and `r` is the choice so far. */
  ghost predicate Progress(candidates: seq<Candidate>, n: nat, created: seq<BranchId>, outcomes: seq<Outcome>,
                           r: EventResult, best: nat, bestHp: real)
  {
    && n == |outcomes| <= |candidates| && FromPrefix(created, candidates, n)
    && ChosenSoFar(candidates, outcomes, r, best, bestHp)
  }

  ghost predicate Scoped(c: ClientState, before: ClientState, instance: string,
                         created: seq<BranchId>, maybe: set<BranchId>)
  {
    && (Usable(before) ==> Usable(c)) && c.cleanup == before.cleanup && c.instance == before.instance
    && (forall b :: b in maybe <==> b in created)
    && (created != [] ==> CanBuild(c, ReleaseBranches(instance, created)))
  }

  ghost predicate ScopeClosed(c: ClientState, before: ClientState, instance: string,
                              created: seq<BranchId>, maybe: set<BranchId>)
  {
    && (Usable(before) && before.cleanup.None? ==> Owned(c, created, maybe))
    && (created != [] && Usable(c) ==> CanBuild(c, ReleaseBranches(instance, created)))
  }

  /** One candidate of the loop: either the scope goes on, owning its branch if it may exist,
      or the evaluation fails with every branch accounted for. */
  method EvaluateCandidate(client: AsyncTrainingApiClient, instance: string, decisionPoint: string,
                           c: Candidate, created: seq<BranchId>, ghost maybe: set<BranchId>,
                           ghost before: ClientState)
    returns (failed: bool, hp: Option<real>, created': seq<BranchId>, ghost maybe': set<BranchId>, ghost o: Outcome)
    requires client.Valid() && Scoped(client.State(), before, instance, created, maybe)
    requires c.branch !in created
    modifies client, client.audit, client.connection
    ensures client.Valid()
    ensures !failed ==> Scoped(client.State(), before, instance, created', maybe')
    ensures failed ==> ScopeClosed(client.State(), before, instance, created', maybe')
    ensures created' == created || created' == created + [c.branch]
    ensures failed <==> !Conclusive(o, client.State())
    ensures !failed ==> (hp.Some? <==> Survives(o, c.branch)) && (hp.Some? ==> hp.value == HpLeft(o, c.branch))
    ensures !failed ==>
      var d, item := old(client.State()), EmulateItem(ROOT_BRANCH_ID, c.branch, c.rngId, decisionPoint, c.action);
      client.State() == AfterFresh(d, NextRequest(d, EmulateAction(instance, item)), o)
  {
    failed, hp, created', maybe' := false, None, created, maybe;
    var t;
    t, o := TryEmulate(client, instance, EmulateAction(instance, ItemOf(c, decisionPoint)),
                           created, [c.branch]);
    match t {
      case Failed =>
        failed := true;
        if MayHaveCreated(o) {
          maybe' := maybe + {c.branch};
        }
        assert forall x :: x in maybe' ==> x in created + [c.branch];
      case Refused =>
      case BranchFaulted =>
        created', maybe' := created + [c.branch], maybe + {c.branch};
      case Done(results) =>
        created', maybe' := created + [c.branch], maybe + {c.branch};
        hp := HpFromResult(results, c.branch);
    }
  }

  /** One request per candidate, on servers without event batches. */
  method EvaluateSingly(client: AsyncTrainingApiClient, instance: string, decisionPoint: string,
                        candidates: seq<Candidate>)
    returns (r: EventResult, created: seq<BranchId>, ghost maybe: set<BranchId>, ghost outcomes: seq<Outcome>)
    requires client.Valid() && DistinctCandidates(candidates)
    modifies client, client.audit, client.connection
    ensures client.Valid()
    ensures ScopeClosed(client.State(), old(client.State()), instance, created, maybe)
    ensures r.Chosen? ==> |outcomes| == |candidates|
    ensures !r.Raised? && |outcomes| == |candidates| ==> BestChoice(candidates, outcomes, r)
    ensures !r.Raised? ==> |outcomes| <= |candidates|
    ensures r.Raised? ==> EndedInDoubt(outcomes, client.State())
    ensures !r.Raised? ==>
      client.State() == AfterSingles(old(client.State()), instance, decisionPoint, candidates, outcomes)
  {
    r, created, maybe, outcomes := NoChoice, [], {}, [];
    var best: nat, bestHp: real := 0, 0.0;
    ghost var before := client.State();
    var n := 0;
    while n < |candidates|
      invariant client.Valid() && Scoped(client.State(), before, instance, created, maybe)
      invariant Progress(candidates, n, created, outcomes, r, best, bestHp)
      invariant client.State() == AfterSingles(before, instance, decisionPoint, candidates, outcomes)
    {
      var expired: bool := *;
      if expired {
        return NoChoice, created, maybe, outcomes;
      }
      FromPrefixGrows(created, candidates, n);
      var failed, hp;
      ghost var o;
      failed, hp, created, maybe, o :=
        EvaluateCandidate(client, instance, decisionPoint, candidates[n], created, maybe, before);
      if failed {
        return Raised, created, maybe, outcomes + [o];
      }
      OneMoreChoice(candidates, outcomes, r, best, bestHp, o);
      OneMoreSingle(before, instance, decisionPoint, candidates, outcomes, o);
      outcomes := outcomes + [o];
      if hp.Some? && (r.NoChoice? || hp.value > bestHp) {
        r, best, bestHp := Chosen(candidates[n].action), n, hp.value;
      }
      n := n + 1;
    }
    ChosenOverAll(candidates, outcomes, r, best, bestHp);
  }

  // ----- the whole evaluation ----------------------------------------------------------

  /** The release issued on the way out, with its outcome. */
  datatype FinalRelease = NoRelease | Issued(branches: seq<BranchId>, outcome: Outcome)

  predicate ReleaseOwner(f: FinalRelease, b: BranchId) {
    f.Issued? && b in f.branches
  }

  /** The final release was answered with success. */
  predicate Gone(f: FinalRelease, b: BranchId) {
    ReleaseOwner(f, b) && f.outcome.Answered? && f.outcome.response.Completed?
  }

  /** The final release is the pending request. */
  predicate ReleasePending(c: ClientState, instance: string, f: FinalRelease, b: BranchId) {
    ReleaseOwner(f, b) && c.pending.Some? && c.pending.value.op == ReleaseBranches(instance, f.branches)
  }

  /** The final release was not sent, turned away in transport, rejected or faulted: it is logged,
      or raised, and nothing else. */
  predicate ReleaseFailed(f: FinalRelease) {
    f.Issued? && (f.outcome.NotSent? || f.outcome.TransportRefused?
                  || (f.outcome.Answered? && (f.outcome.response.Rejected? || f.outcome.response.Faulted?)))
  }

  /** What became of a branch the evaluation may have created. After a failed release nobody will
      release it; otherwise it is gone, or waits for the exact replay of the release or of the
      request it was deferred on, and only one of these. */
  predicate AccountedFor(c: ClientState, instance: string, f: FinalRelease, b: BranchId) {
    var gone, pending, deferred := Gone(f, b), ReleasePending(c, instance, f, b), DeferredOwner(c, b);
    if ReleaseFailed(f) then !gone && !pending && !deferred
    else (gone || pending || deferred) && !(gone && pending) && !(gone && deferred) && !(pending && deferred)
  }

  lemma ReleaseAccounts(c: ClientState, instance: string, created: seq<BranchId>, o: Outcome, b: BranchId)
    requires Usable(c) && b in created
    requires !AfterFresh(c, NextRequest(c, ReleaseBranches(instance, created)), o).invalid
    ensures var d := AfterFresh(c, NextRequest(c, ReleaseBranches(instance, created)), o);
      AccountedFor(d, instance, Issued(created, o), b)
  {
  }

  lemma AllAccounted(c: ClientState, instance: string, created: seq<BranchId>, o: Outcome)
    requires Usable(c) && !AfterFresh(c, NextRequest(c, ReleaseBranches(instance, created)), o).invalid
    ensures var d := AfterFresh(c, NextRequest(c, ReleaseBranches(instance, created)), o);
      forall b :: b in created ==> AccountedFor(d, instance, Issued(created, o), b)
  {
    forall b | b in created
      ensures AccountedFor(AfterFresh(c, NextRequest(c, ReleaseBranches(instance, created)), o), instance,
                           Issued(created, o), b)
    {
      ReleaseAccounts(c, instance, created, o, b);
    }
  }

  /** The outcomes are those of this evaluation's own requests: one for all candidates, or one for
      each candidate tried, and `c` is the client after them. */
  ghost predicate Evaluated(before: ClientState, instance: string, decisionPoint: string, candidates: seq<Candidate>,
                            supportsBatch: bool, outcomes: seq<Outcome>, c: ClientState)
  {
    if outcomes == [] then c == before
    else if supportsBatch then
      && outcomes == ForAll(candidates, outcomes[0])
      && c == AfterBatch(before, instance, decisionPoint, candidates, outcomes[0])
    else |outcomes| <= |candidates| && c == AfterSingles(before, instance, decisionPoint, candidates, outcomes)
  }

  /** The client after the release on the way out. */
  ghost function AfterRelease(c: ClientState, instance: string, f: FinalRelease): ClientState {
    if f.NoRelease? then c else AfterFresh(c, NextRequest(c, ReleaseBranches(instance, f.branches)), f.outcome)
  }

  /** All candidates in one request, or one after the other. */
  method Evaluate(client: AsyncTrainingApiClient, instance: string, decisionPoint: string, candidates: seq<Candidate>,
                  supportsBatch: bool)
    returns (r: EventResult, created: seq<BranchId>, ghost maybe: set<BranchId>, ghost outcomes: seq<Outcome>)
    requires client.Valid() && DistinctCandidates(candidates) && candidates != []
    modifies client, client.audit, client.connection
    ensures client.Valid()
    ensures ScopeClosed(client.State(), old(client.State()), instance, created, maybe)
    ensures r.Chosen? ==> |outcomes| == |candidates|
    ensures r.Raised? ==> EndedInDoubt(outcomes, client.State())
    ensures !r.Raised? && |outcomes| == |candidates| ==> BestChoice(candidates, outcomes, r)
    ensures !r.Raised? ==>
      Evaluated(old(client.State()), instance, decisionPoint, candidates, supportsBatch, outcomes, client.State())
  {
    if supportsBatch {
      ghost var o;
      r, created, maybe, o := EvaluateBatch(client, instance, decisionPoint, candidates);
      outcomes := ForAll(candidates, o);
    } else {
      r, created, maybe, outcomes := EvaluateSingly(client, instance, decisionPoint, candidates);
    }
  }

  /** Evaluates an event's options on branches. Before it returns or raises, every branch it may
      have created is deferred on the retry token of the request that ended uncertain, or named by
      a release; whether that release does away with it is up to its outcome. Deadline tests are
      nondeterministic; `budgetLeft` is the one guarding the final release. */
  method BestEventOption(client: AsyncTrainingApiClient, instance: string, decisionPoint: string,
                         candidates: seq<Candidate>, supportsBatch: bool)
    returns (r: EventResult, ghost maybe: set<BranchId>, ghost budgetLeft: bool,
             ghost release: FinalRelease, ghost outcomes: seq<Outcome>, ghost evaluated: ClientState)
    requires client.Valid() && DistinctCandidates(candidates)
    modifies client, client.audit, client.connection
    ensures client.Valid()
    ensures r.Chosen? ==> |outcomes| == |candidates|
    ensures r.Raised? ==> EndedInDoubt(outcomes, evaluated)
                          || (release.Issued? && !Tolerated(release.outcome, client.State()))
    ensures release.Issued? && !Tolerated(release.outcome, client.State()) ==> r.Raised?
    ensures !r.Raised? && |outcomes| == |candidates| ==> BestChoice(candidates, outcomes, r)
    ensures !r.Raised? ==>
      && Evaluated(old(client.State()), instance, decisionPoint, candidates, supportsBatch, outcomes, evaluated)
      && client.State() == AfterRelease(evaluated, instance, release)
    ensures Usable(old(client.State())) && old(client.State()).cleanup.None?
            && !client.State().invalid && budgetLeft ==>
      forall b :: b in maybe ==>
        ReleaseOwner(release, b) != DeferredOwner(client.State(), b)
        && AccountedFor(client.State(), instance, release, b)
    ensures release.Issued? && (release.outcome.AnswerLost? || release.outcome == Answered(Malformed)) ==>
      client.State().pending.Some?
      && client.State().pending.value.op == ReleaseBranches(instance, release.branches)
    ensures release.Issued? ==> release.branches != []
  {
    r, maybe, budgetLeft, release, outcomes, evaluated := NoChoice, {}, true, NoRelease, [], client.State();
    if |candidates| <= 1 {
      return;
    }
    var created: seq<BranchId>;
    var expired: bool := *;
    if supportsBatch && expired {
      return;
    }
    r, created, maybe, outcomes := Evaluate(client, instance, decisionPoint, candidates, supportsBatch);
    evaluated := client.State();
    var timeLeft: bool := *;
    budgetLeft := timeLeft;
    var unusable := client.pendingRetry.Some? || client.sessionInvalid;
    if created != [] && timeLeft && !unusable {
      ghost var c := client.State();
      r, release := ReleaseCreated(client, instance, created, r);
      if !client.State().invalid {
        AllAccounted(c, instance, created, release.outcome);
      }
    }
  }

  /** A release that succeeded, or one that was rejected or not admitted while the client can go on,
      is logged at most. */
  predicate Tolerated(o: Outcome, c: ClientState) {
    || (o.Answered? && o.response.Completed?)
    || (Usable(c) && (o.NotSent? || o.TransportRefused? || (o.Answered? && o.response.Rejected?)))
  }

  /** The release in the `finally` block, and which of its failures reach the caller. */
  method ReleaseCreated(client: AsyncTrainingApiClient, instance: string, created: seq<BranchId>, primary: EventResult)
    returns (r: EventResult, ghost release: FinalRelease)
    requires client.Valid() && Usable(client.State())
    requires CanBuild(client.State(), ReleaseBranches(instance, created))
    modifies client, client.audit, client.connection
    ensures client.Valid()
    ensures release.Issued? && release.branches == created
    ensures client.State() ==
      var c := old(client.State());
      AfterFresh(c, NextRequest(c, ReleaseBranches(instance, created)), release.outcome)
    ensures r == if Tolerated(release.outcome, client.State()) then primary else Raised
  {
    var answer, o := client.Call(ReleaseBranches(instance, created));
    release := Issued(created, o);
    r := primary;
    var unusable := client.pendingRetry.Some? || client.sessionInvalid;
    match answer {
      case Answer(_) =>
      case OperationError(response) =>
        if response.Faulted? || unusable {
          r := Raised;
        }
      case TransportFailure(uncertain) =>
        if uncertain || unusable {
          r := Raised;
        }
      case SessionLost =>
        r := Raised;
      case _ =>
        r := Raised;
    }
  }
}
