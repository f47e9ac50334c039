/** Emulating one depth of the frontier: chunked requests, and local retries of branches that
    did not resolve, under fresh ids but with the same parent, action and rng. */
module BeamEmulate {
  import opened Wrappers
  import opened WireContract
  import opened BeamModel
  import opened CombatDecision

  /** The same logical item, possibly under another branch id. */
  predicate SameItem(p: Planned, q: Planned) {
    p.node == q.node && p.action == q.action && p.rngId == q.rngId
  }

  datatype Fatal = TimeBudget | BatchRejected | Raised

  /** The working lists of one depth batch: the outcomes that are final, keyed by logical
      position and by branch, and the items waiting for another attempt. */
  datatype Tracker = Tracker(
    final: map<nat, Planned>, results: map<BranchId, BranchResult>,
    retry: seq<Planned>, retryOrder: seq<nat>)

  function ResultFor(results: map<BranchId, BranchResult>, b: BranchId): BranchResult {
    if b in results then results[b] else Unresolved
  }

  /** What one item's result does to the lists: it is final when it resolved or was the last
      attempt, and waits otherwise. */
  function Tracked(t: Tracker, p: Planned, index: nat, result: BranchResult, last: bool): Tracker {
    if result.Resolved? || last then
      t.(final := t.final[index := p], results := t.results[p.branch := result])
    else t.(retry := t.retry + [p], retryOrder := t.retryOrder + [index])
  }

  /** The result is what the server answered when asked for exactly this move. */
  ghost predicate OwnAnswer(p: Planned, result: BranchResult, answers: map<BranchId, Emulated>) {
    p.branch in answers && AsksFor(answers[p.branch].item, p) && answers[p.branch].result == result
  }

  /** Every final item has the server's own answer to it as its result, and every branch created so
      far is final, was answered unresolved, or is one of those still to be booked. */
  ghost predicate AnswersInv(t: Tracker, created: seq<BranchId>, unbooked: seq<BranchId>,
                             answers: map<BranchId, Emulated>)
  {
    && (forall i :: i in t.final ==>
          t.final[i].branch in t.results && OwnAnswer(t.final[i], t.results[t.final[i].branch], answers))
    && (forall b :: b in created ==>
          b in answers && (b in t.results || answers[b].result.Unresolved? || b in unbooked))
  }

  lemma BookedAnswer(t: Tracker, created: seq<BranchId>, pending: seq<Planned>, k: nat, c: nat,
                     answers: map<BranchId, Emulated>, index: nat, result: BranchResult, last: bool)
    requires k < c <= |pending| && AnswersInv(t, created, PlanIds(pending)[k..c], answers)
    requires OwnAnswer(pending[k], result, answers) && pending[k].branch !in t.results
    ensures AnswersInv(Tracked(t, pending[k], index, result, last), created, PlanIds(pending)[k + 1..c], answers)
  {
    var t' := Tracked(t, pending[k], index, result, last);
    var ids := PlanIds(pending);
    assert ids[k..c] == [ids[k]] + ids[k + 1..c];
    forall b | b in created
      ensures b in t'.results || answers[b].result.Unresolved? || b in ids[k + 1..c]
    {
      assert b in t.results || answers[b].result.Unresolved? || b in ids[k..c];
    }
  }

  /** A chunk that came back is on record, and what was on record stays. */
  lemma HeardAnswers(t: Tracker, created: seq<BranchId>, pending: seq<Planned>, k: nat, c: nat,
                     results: map<BranchId, BranchResult>, before: map<BranchId, Emulated>,
                     answers: map<BranchId, Emulated>)
    requires AnswersInv(t, created, [], before) && Extends(before, answers)
    requires Heard(pending, k, c, results, answers)
    ensures AnswersInv(t, created + PlanIds(pending)[k..c], PlanIds(pending)[k..c], answers)
  {
    var more := PlanIds(pending)[k..c];
    forall b | b in more ensures b in answers {
      var i :| 0 <= i < |more| && more[i] == b;
      assert b == pending[k + i].branch;
    }
  }

  lemma KeptAnswers(t: Tracker, created: seq<BranchId>, before: map<BranchId, Emulated>,
                    answers: map<BranchId, Emulated>)
    requires AnswersInv(t, created, [], before) && Extends(before, answers)
    ensures AnswersInv(t, created, [], answers)
  {
  }

  ghost predicate Increasing(s: seq<nat>, bound: nat) {
    (forall i, j :: 0 <= i < j < |s| ==> s[i] < s[j]) && forall i :: 0 <= i < |s| ==> s[i] < bound
  }

  /** The final outcomes: each is a version of its logical item, tried at most `max` times, and
      unresolved only after all of them. `tries` counts the branches created for each item. */
  ghost predicate FinalEntry(plan: seq<Planned>, p: Planned, result: BranchResult, created: seq<BranchId>,
                             tries: multiset<nat>, max: nat, i: nat)
  {
    && i < |plan| && SameItem(p, plan[i]) && p.branch in created
    && 1 <= tries[i] <= max && (result.Resolved? || tries[i] == max)
  }

  ghost predicate FinalInv(plan: seq<Planned>, t: Tracker, created: seq<BranchId>, tries: multiset<nat>, max: nat) {
    && (forall i :: i in t.final ==>
          t.final[i].branch in t.results
          && FinalEntry(plan, t.final[i], t.results[t.final[i].branch], created, tries, max, i))
    && (forall i, j :: i in t.final && j in t.final && i != j ==> t.final[i].branch != t.final[j].branch)
  }

  function FinalIds(final: map<nat, Planned>): set<BranchId> {
    set i | i in final :: final[i].branch
  }

  /** The recorded results are exactly those of the final branches. */
  ghost predicate ResultsInv(t: Tracker) {
    t.results.Keys == FinalIds(t.final)
  }

  /** Items of one round that are still to be looked at, from position `k`; those before `c`
      have been sent in this round, so they count one attempt more than `a`. */
  ghost predicate PendingInv(plan: seq<Planned>, pending: seq<Planned>, order: seq<nat>, tries: multiset<nat>,
                             k: nat, c: nat, a: nat)
  {
    && |pending| == |order| && k <= c <= |pending|
    && Increasing(order, |plan|)
    && Distinct(PlanIds(pending))
    && (forall j :: 0 <= j < |pending| ==> SameItem(pending[j], plan[order[j]]))
    && (forall j :: k <= j < |pending| ==>
          tries[order[j]] == if j < c then a + 1 else a)
  }

  ghost predicate RetryInv(plan: seq<Planned>, t: Tracker, order: seq<nat>, tries: multiset<nat>, k: nat, a: nat)
    requires k <= |order|
  {
    && |t.retry| == |t.retryOrder| && Increasing(t.retryOrder, |plan|)
    && (forall r :: 0 <= r < |t.retry| ==>
          SameItem(t.retry[r], plan[t.retryOrder[r]]) && tries[t.retryOrder[r]] == a + 1
          && t.retryOrder[r] !in t.final)
    && (forall r, j :: 0 <= r < |t.retry| && k <= j < |order| ==> t.retryOrder[r] < order[j])
    && |t.retry| <= k
  }

  ghost predicate CoverInv(plan: seq<Planned>, t: Tracker, pending: seq<Planned>, order: seq<nat>, k: nat)
    requires |pending| == |order| && k <= |order|
  {
    && (forall j :: k <= j < |order| ==> order[j] !in t.final && pending[j].branch !in t.results)
    && (forall i :: 0 <= i < |plan| ==> i in t.final || i in order[k..] || i in t.retryOrder)
  }

  ghost predicate CreatedInv(pending: seq<Planned>, created: seq<BranchId>, tries: multiset<nat>,
                             c: nat, planned: nat, retryFaults: nat)
    requires c <= |pending|
  {
    && Distinct(created) && |tries| == |created|
    && (forall j :: 0 <= j < c ==> pending[j].branch in created)
    && (forall j :: c <= j < |pending| ==> pending[j].branch !in created)
    && |created| + |pending| - c == planned + retryFaults
  }

  /** No item is tried more often than allowed. */
  ghost predicate TriesInv(plan: seq<Planned>, tries: multiset<nat>, max: nat) {
    forall i :: i in tries ==> i < |plan| && tries[i] <= max
  }

  ghost predicate BatchInv(plan: seq<Planned>, t: Tracker, pending: seq<Planned>, order: seq<nat>,
                           created: seq<BranchId>, tries: multiset<nat>,
                           k: nat, c: nat, a: nat, max: nat, retryFaults: nat)
  {
    && PendingInv(plan, pending, order, tries, k, c, a)
    && FinalInv(plan, t, created, tries, max) && ResultsInv(t)
    && RetryInv(plan, t, order, tries, k, a) && (a + 1 == max ==> t.retry == [])
    && CoverInv(plan, t, pending, order, k)
    && CreatedInv(pending, created, tries, c, |plan|, retryFaults)
    && TriesInv(plan, tries, max)
  }

  lemma LaterItemsDiffer(pending: seq<Planned>, order: seq<nat>, bound: nat, k: nat, j: nat)
    requires |pending| == |order| && Increasing(order, bound) && Distinct(PlanIds(pending))
    requires k < j < |pending|
    ensures order[k] != order[j] && pending[k].branch != pending[j].branch
  {
    assert PlanIds(pending)[k] == pending[k].branch && PlanIds(pending)[j] == pending[j].branch;
  }

  lemma TrackedFinal(plan: seq<Planned>, t: Tracker, p: Planned, i: nat, created: seq<BranchId>,
                     tries: multiset<nat>, a: nat, max: nat, result: BranchResult)
    requires FinalInv(plan, t, created, tries, max) && a < max
    requires i < |plan| && SameItem(p, plan[i]) && i !in t.final && p.branch !in t.results
    requires p.branch in created && tries[i] == a + 1
    ensures FinalInv(plan, Tracked(t, p, i, result, a + 1 == max), created, tries, max)
  {
    if result.Resolved? || a + 1 == max {
      var t' := Tracked(t, p, i, result, a + 1 == max);
      forall x | x in t'.final
        ensures t'.final[x].branch in t'.results
          && FinalEntry(plan, t'.final[x], t'.results[t'.final[x].branch], created, tries, max, x)
      {
        assert x != i ==> t'.final[x] == t.final[x] && t.final[x].branch != p.branch;
      }
    }
  }

  lemma TrackedResults(t: Tracker, p: Planned, i: nat, result: BranchResult, last: bool)
    requires ResultsInv(t) && i !in t.final
    ensures ResultsInv(Tracked(t, p, i, result, last))
  {
    var final' := t.final[i := p];
    assert FinalIds(final') == FinalIds(t.final) + {p.branch} by {
      forall x | x in t.final ensures t.final[x].branch in FinalIds(final') {
        assert final'[x] == t.final[x];
      }
      assert final'[i] == p;
    }
  }

  lemma TrackedRetry(plan: seq<Planned>, t: Tracker, pending: seq<Planned>, order: seq<nat>,
                     tries: multiset<nat>, k: nat, c: nat, a: nat, result: BranchResult, last: bool)
    requires PendingInv(plan, pending, order, tries, k, c, a) && k < c
    requires RetryInv(plan, t, order, tries, k, a) && order[k] !in t.final
    ensures RetryInv(plan, Tracked(t, pending[k], order[k], result, last), order, tries, k + 1, a)
  {
  }

  lemma TrackedCover(plan: seq<Planned>, t: Tracker, pending: seq<Planned>, order: seq<nat>, k: nat,
                     result: BranchResult, last: bool)
    requires |pending| == |order| && k < |order| && CoverInv(plan, t, pending, order, k)
    requires Increasing(order, |plan|) && Distinct(PlanIds(pending))
    ensures CoverInv(plan, Tracked(t, pending[k], order[k], result, last), pending, order, k + 1)
  {
    var t' := Tracked(t, pending[k], order[k], result, last);
    forall j | k + 1 <= j < |order| ensures order[j] !in t'.final && pending[j].branch !in t'.results {
      LaterItemsDiffer(pending, order, |plan|, k, j);
    }
    assert order[k..] == [order[k]] + order[k + 1..];
  }

  /** Looking at one more sent item keeps the bookkeeping. */
  lemma TrackedKeepsInv(plan: seq<Planned>, t: Tracker, pending: seq<Planned>, order: seq<nat>,
                        created: seq<BranchId>, tries: multiset<nat>,
                        k: nat, c: nat, a: nat, max: nat, retryFaults: nat, result: BranchResult)
    requires BatchInv(plan, t, pending, order, created, tries, k, c, a, max, retryFaults)
    requires k < c && a < max
    ensures BatchInv(plan, Tracked(t, pending[k], order[k], result, a + 1 == max), pending, order,
                     created, tries, k + 1, c, a, max, retryFaults)
  {
    TrackedFinal(plan, t, pending[k], order[k], created, tries, a, max, result);
    TrackedResults(t, pending[k], order[k], result, a + 1 == max);
    TrackedRetry(plan, t, pending, order, tries, k, c, a, result, a + 1 == max);
    TrackedCover(plan, t, pending, order, k, result, a + 1 == max);
  }

  lemma {:induction false} IncreasingOnce(s: seq<nat>, bound: nat, x: nat)
    requires Increasing(s, bound)
    ensures multiset(s)[x] == if x in s then 1 else 0
    decreases |s|
  {
    if s != [] {
      var front, last := s[..|s| - 1], s[|s| - 1];
      assert s == front + [last];
      IncreasingOnce(front, bound, x);
      assert last !in front;
    }
  }

  /** How sending positions `k` up to `c` counts: once for each of them, not for any other. */
  lemma SentCounts(order: seq<nat>, bound: nat, tries: multiset<nat>, k: nat, c: nat, x: nat)
    requires Increasing(order, bound) && k <= c <= |order|
    ensures (tries + multiset(order[k..c]))[x] == tries[x] + if x in order[k..c] then 1 else 0
  {
    IncreasingOnce(order[k..c], bound, x);
  }

  lemma SentPositions(order: seq<nat>, bound: nat, k: nat, c: nat, j: nat)
    requires Increasing(order, bound) && k <= c <= |order| && k <= j < |order|
    ensures order[j] in order[k..c] <==> j < c
  {
    if j < c {
      assert order[k..c][j - k] == order[j];
    }
  }

  lemma SentOthers(order: seq<nat>, k: nat, c: nat, x: nat)
    requires k <= c <= |order| && forall j :: k <= j < |order| ==> order[j] != x
    ensures x !in order[k..c]
  {
  }

  /** Sending one chunk: its ids are created, each for the logical item it stands for. */
  lemma SentKeepsInv(plan: seq<Planned>, t: Tracker, pending: seq<Planned>, order: seq<nat>,
                     created: seq<BranchId>, tries: multiset<nat>,
                     k: nat, c: nat, a: nat, max: nat, retryFaults: nat)
    requires BatchInv(plan, t, pending, order, created, tries, k, k, a, max, retryFaults)
    requires k < c <= |pending| && a < max
    ensures BatchInv(plan, t, pending, order, created + PlanIds(pending)[k..c],
                     tries + multiset(order[k..c]), k, c, a, max, retryFaults)
  {
    var tries' := tries + multiset(order[k..c]);
    forall j | k <= j < |pending| ensures tries'[order[j]] == if j < c then a + 1 else a {
      SentCounts(order, |plan|, tries, k, c, order[j]);
      SentPositions(order, |plan|, k, c, j);
    }
    forall i | i in t.final ensures tries'[i] == tries[i] {
      SentCounts(order, |plan|, tries, k, c, i);
      SentOthers(order, k, c, i);
    }
    forall r | 0 <= r < |t.retry| ensures tries'[t.retryOrder[r]] == tries[t.retryOrder[r]] {
      SentCounts(order, |plan|, tries, k, c, t.retryOrder[r]);
      SentOthers(order, k, c, t.retryOrder[r]);
    }
    SentTries(plan, pending, order, tries, k, c, a, max);
    SentFinal(plan, t, created, PlanIds(pending)[k..c], tries, tries', max);
    SentCreated(pending, created, tries, order, k, c, |plan|, retryFaults);
  }

  lemma SentTries(plan: seq<Planned>, pending: seq<Planned>, order: seq<nat>, tries: multiset<nat>,
                  k: nat, c: nat, a: nat, max: nat)
    requires PendingInv(plan, pending, order, tries, k, k, a) && k < c <= |pending| && a < max
    requires TriesInv(plan, tries, max)
    ensures TriesInv(plan, tries + multiset(order[k..c]), max)
  {
    var tries' := tries + multiset(order[k..c]);
    forall i | i in tries' ensures i < |plan| && tries'[i] <= max {
      SentCounts(order, |plan|, tries, k, c, i);
      if i in order[k..c] {
        var j :| 0 <= j < c - k && order[k..c][j] == i;
        assert order[k + j] == i;
      }
    }
  }

  lemma SentFinal(plan: seq<Planned>, t: Tracker, created: seq<BranchId>, more: seq<BranchId>,
                  tries: multiset<nat>, tries': multiset<nat>, max: nat)
    requires FinalInv(plan, t, created, tries, max)
    requires forall i :: i in t.final ==> tries'[i] == tries[i]
    ensures FinalInv(plan, t, created + more, tries', max)
  {
  }

  lemma SentCreated(pending: seq<Planned>, created: seq<BranchId>, tries: multiset<nat>, order: seq<nat>,
                    k: nat, c: nat, planned: nat, retryFaults: nat)
    requires k < c <= |pending| == |order| && Distinct(PlanIds(pending))
    requires CreatedInv(pending, created, tries, k, planned, retryFaults)
    ensures CreatedInv(pending, created + PlanIds(pending)[k..c], tries + multiset(order[k..c]), c,
                       planned, retryFaults)
  {
    var all := PlanIds(pending);
    var created' := created + all[k..c];
    forall i, j | 0 <= i < j < |created'| ensures created'[i] != created'[j] {
      if j >= |created| {
        assert created'[j] == pending[k + (j - |created|)].branch;
        if i < |created| {
          assert created'[i] == created[i];
        }
      }
    }
    forall j | 0 <= j < c ensures pending[j].branch in created' {
      if j >= k {
        assert created'[|created| + (j - k)] == all[j];
      }
    }
    forall j | c <= j < |pending| ensures pending[j].branch !in created' {
      assert all[j] == pending[j].branch;
    }
  }

  /** The next round: the waiting items under fresh ids, everything final left alone. */
  lemma NextRoundKeepsInv(plan: seq<Planned>, t: Tracker, pending: seq<Planned>, order: seq<nat>,
                          created: seq<BranchId>, tries: multiset<nat>, a: nat, max: nat, retryFaults: nat,
                          renewed: seq<Planned>)
    requires BatchInv(plan, t, pending, order, created, tries, |pending|, |pending|, a, max, retryFaults)
    requires |renewed| == |t.retry| && Distinct(PlanIds(renewed))
    requires forall j :: 0 <= j < |renewed| ==>
      SameItem(renewed[j], t.retry[j]) && renewed[j].branch !in created
    ensures BatchInv(plan, t.(retry := [], retryOrder := []), renewed, t.retryOrder, created, tries,
                     0, 0, a + 1, max, retryFaults + |renewed|)
  {
    var t' := t.(retry := [], retryOrder := []);
    forall j | 0 <= j < |renewed| ensures renewed[j].branch !in t'.results {
      assert forall b :: b in FinalIds(t.final) ==> b in created;
    }
    assert order[|order|..] == [];
    assert t.retryOrder[0..] == t.retryOrder;
  }

  /** Every item of a plan can be submitted: its parent exists, its fields are well formed and
      its branch id is new. */
  ghost predicate Submittable(plan: seq<Planned>, live: set<BranchId>) {
    && Distinct(PlanIds(plan))
    && forall i :: 0 <= i < |plan| ==>
         ItemWellFormed(ItemFor(plan[i])) && plan[i].branch !in live
         && (plan[i].node.branch == ROOT_BRANCH_ID || plan[i].node.branch in live)
  }

  /** A chunk of items that are well formed, new and hang below existing branches can be sent. */
  lemma ChunkIsAcceptable(pending: seq<Planned>, live: set<BranchId>, ever: set<BranchId>, k: nat, c: nat,
                          limit: Option<nat>)
    requires k < c <= |pending| && (limit.Some? ==> c - k <= limit.value)
    requires Distinct(PlanIds(pending)) && ROOT_BRANCH_ID !in ever && live <= ever
    requires forall j :: k <= j < c ==>
      ItemWellFormed(ItemFor(pending[j])) && pending[j].branch !in ever
      && (pending[j].node.branch == ROOT_BRANCH_ID || pending[j].node.branch in live)
    ensures var items := ItemsFor(pending[k..c]);
      && AcceptableBatch(items, limit) && ItemBranches(items) == SetOf(PlanIds(pending)[k..c])
      && forall i :: 0 <= i < |items| ==>
           items[i].branch !in ever && (items[i].parent == ROOT_BRANCH_ID || items[i].parent in live)
  {
    var items := ItemsFor(pending[k..c]);
    var ids := PlanIds(pending)[k..c];
    forall i | 0 <= i < |items| ensures items[i] == ItemFor(pending[k + i]) && items[i].branch == ids[i] {
      assert PlanIds(pending)[k + i] == pending[k + i].branch;
    }
    forall i, j | 0 <= i < j < |items| ensures items[i].branch != items[j].branch {
      assert ids[i] == PlanIds(pending)[k + i] && ids[j] == PlanIds(pending)[k + j];
    }
    assert forall i :: 0 <= i < |items| ==> items[i].branch == ids[i];
  }

  lemma TrackedReadable(t: Tracker, p: Planned, index: nat, result: BranchResult, last: bool)
    requires ReadableUnmixed(t.results)
    requires result.Resolved? && result.dto.Some? ==> Unmixed(result.dto.value)
    ensures ReadableUnmixed(Tracked(t, p, index, result, last).results)
  {
  }

  lemma ResultReadable(results: map<BranchId, BranchResult>, b: BranchId)
    requires ReadableUnmixed(results)
    ensures var result := ResultFor(results, b);
      result.Resolved? && result.dto.Some? ==> Unmixed(result.dto.value)
  {
  }

  /** A chunk has been sent and booked up to `n`. */
  ghost predicate Booking(plan: seq<Planned>, t: Tracker, pending: seq<Planned>, order: seq<nat>,
                          created: seq<BranchId>, tries: multiset<nat>, n: nat, c: nat, a: nat, max: nat,
                          retryFaults: nat, answers: map<BranchId, Emulated>)
  {
    && BatchInv(plan, t, pending, order, created, tries, n, c, a, max, retryFaults)
    && ReadableUnmixed(t.results) && AnswersInv(t, created, PlanIds(pending)[n..c], answers)
  }

  lemma BookedItem(plan: seq<Planned>, t: Tracker, pending: seq<Planned>, order: seq<nat>, created: seq<BranchId>,
                   tries: multiset<nat>, n: nat, c: nat, a: nat, max: nat, retryFaults: nat,
                   answers: map<BranchId, Emulated>, results: map<BranchId, BranchResult>, result: BranchResult)
    requires Booking(plan, t, pending, order, created, tries, n, c, a, max, retryFaults, answers) && n < c && a < max
    requires ReadableUnmixed(results) && result == ResultFor(results, pending[n].branch)
    requires OwnAnswer(pending[n], result, answers)
    ensures Booking(plan, Tracked(t, pending[n], order[n], result, a + 1 == max), pending, order, created, tries, n + 1,
                    c, a, max, retryFaults, answers)
  {
    ResultReadable(results, pending[n].branch);
    BookedAnswer(t, created, pending, n, c, answers, order[n], result, a + 1 == max);
    TrackedReadable(t, pending[n], order[n], result, a + 1 == max);
    TrackedKeepsInv(plan, t, pending, order, created, tries, n, c, a, max, retryFaults, result);
  }

  /** Books the results of the chunk just sent, item by item. */
  method BookChunk(ghost plan: seq<Planned>, t0: Tracker, pending: seq<Planned>, order: seq<nat>,
                   ghost created: seq<BranchId>, ghost tries: multiset<nat>,
                   k: nat, c: nat, a: nat, max: nat, ghost retryFaults: nat,
                   results: map<BranchId, BranchResult>, ghost answers: map<BranchId, Emulated>)
    returns (t: Tracker, recoveries: nat)
    requires BatchInv(plan, t0, pending, order, created, tries, k, c, a, max, retryFaults) && a < max
    requires ReadableUnmixed(results) && ReadableUnmixed(t0.results)
    requires AnswersInv(t0, created, PlanIds(pending)[k..c], answers) && Heard(pending, k, c, results, answers)
    ensures AnswersInv(t, created, [], answers)
    ensures BatchInv(plan, t, pending, order, created, tries, c, c, a, max, retryFaults)
    ensures ReadableUnmixed(t.results)
    ensures recoveries <= c - k && (a == 0 ==> recoveries == 0)
  {
    t, recoveries := t0, 0;
    for n := k to c
      invariant Booking(plan, t, pending, order, created, tries, n, c, a, max, retryFaults, answers)
      invariant recoveries <= n - k && (a == 0 ==> recoveries == 0)
    {
      var result := ResultFor(results, pending[n].branch);
      BookedItem(plan, t, pending, order, created, tries, n, c, a, max, retryFaults, answers, results, result);
      t := Tracked(t, pending[n], order[n], result, a + 1 == max);
      if result.Resolved? && a > 0 {
        recoveries := recoveries + 1;
      }
    }
  }

  /** What holds of the lists whenever a depth batch stops, early or not. */
  ghost predicate StopInv(plan: seq<Planned>, t: Tracker, created: seq<BranchId>, tries: multiset<nat>, max: nat) {
    && FinalInv(plan, t, created, tries, max) && ResultsInv(t)
    && Distinct(created) && |tries| == |created| && TriesInv(plan, tries, max)
  }

  ghost predicate Ready(pending: seq<Planned>, live: set<BranchId>) {
    forall j :: 0 <= j < |pending| ==>
      ItemWellFormed(ItemFor(pending[j]))
      && (pending[j].node.branch == ROOT_BRANCH_ID || pending[j].node.branch in live)
  }

  /** Sends the pending items from `k` up to `c` as one valid request naming only branches that
      exist. */
  method SendChunk(client: EmulatorClient, pending: seq<Planned>, created: seq<BranchId>, k: nat, c: nat,
                   ghost live0: set<BranchId>, ghost ever0: set<BranchId>)
    returns (fatal: Option<Fatal>, results: map<BranchId, BranchResult>, created': seq<BranchId>)
    requires client.Valid() && k < c <= |pending|
    requires client.batchLimit.Some? ==> c - k <= client.batchLimit.value
    requires client.live == live0 + SetOf(created) && client.ever == ever0 + SetOf(created)
    requires Ready(pending, live0) && Distinct(PlanIds(pending))
    requires forall j :: k <= j < c ==> pending[j].branch !in ever0 && pending[j].branch !in created
    modifies client
    ensures client.Valid() && client.live == live0 + SetOf(created') && old(client.log) <= client.log
    ensures ever0 <= client.ever <= ever0 + SetOf(created) + SetOf(PlanIds(pending)[k..c])
    ensures fatal.None? ==> client.ever == ever0 + SetOf(created')
    ensures created' == if fatal.None? then created + PlanIds(pending)[k..c] else created
    ensures fatal != Some(TimeBudget) && ReadableUnmixed(results)
    ensures Extends(old(client.answers), client.answers)
    ensures fatal.None? ==> Heard(pending, k, c, results, client.answers)
  {
    fatal, results, created' := None, map[], created;
    ChunkIsAcceptable(pending, client.live, client.ever, k, c, client.batchLimit);
    var reply := client.EmulateActions(ItemsFor(pending[k..c]));
    match reply {
      case RejectedBatch(unusable) =>
        fatal := Some(if unusable then Raised else BatchRejected);
      case TransportBroken(_, _) =>
        fatal := Some(Raised);
      case OtherError =>
        fatal := Some(Raised);
      case Results(outcomes) =>
        results := outcomes;
        HeardChunk(pending, k, c, results, client.answers);
        ghost var ids := PlanIds(pending)[k..c];
        SetOfAppend(created, ids);
        created' := created + PlanIds(pending)[k..c];
    }
  }

  /** An attempt adds ids of its pending items and no others. */
  ghost predicate CreatedFrom(created0: seq<BranchId>, created: seq<BranchId>, pending: seq<Planned>) {
    created0 <= created && forall b :: b in created ==> b in created0 || b in PlanIds(pending)
  }

  lemma CreatedFromGrows(created0: seq<BranchId>, created: seq<BranchId>, pending: seq<Planned>, k: nat, c: nat)
    requires CreatedFrom(created0, created, pending) && k <= c <= |pending|
    ensures CreatedFrom(created0, created + PlanIds(pending)[k..c], pending)
  {
  }

  lemma CreatedFromSets(created0: seq<BranchId>, created: seq<BranchId>, pending: seq<Planned>, k: nat, c: nat)
    requires CreatedFrom(created0, created, pending) && k <= c <= |pending|
    ensures SetOf(created) + SetOf(PlanIds(pending)[k..c]) <= SetOf(created0) + SetOf(PlanIds(pending))
  {
    forall b | b in SetOf(created) ensures b in SetOf(created0) + SetOf(PlanIds(pending)) {
      assert b in created;
    }
  }

  /** One attempt: the pending items go out chunk by chunk. */
  method RunAttempt(client: EmulatorClient, batchSize: nat, ghost plan: seq<Planned>,
                    pending: seq<Planned>, order: seq<nat>, t0: Tracker,
                    created0: seq<BranchId>, ghost tries0: multiset<nat>,
                    a: nat, max: nat, ghost retryFaults: nat, ghost live0: set<BranchId>, ghost ever0: set<BranchId>)
    returns (t: Tracker, created: seq<BranchId>, ghost tries: multiset<nat>, fatal: Option<Fatal>, recoveries: nat)
    requires client.Valid() && batchSize > 0
    requires client.batchLimit.Some? ==> batchSize <= client.batchLimit.value
    requires BatchInv(plan, t0, pending, order, created0, tries0, 0, 0, a, max, retryFaults) && a < max
    requires client.live == live0 + SetOf(created0) && client.ever == ever0 + SetOf(created0)
    requires Ready(pending, live0) && ReadableUnmixed(t0.results)
    requires forall j :: 0 <= j < |pending| ==> pending[j].branch !in ever0
    requires AnswersInv(t0, created0, [], client.answers)
    modifies client
    ensures Extends(old(client.answers), client.answers)
    ensures AnswersInv(t, created, [], client.answers)
    ensures client.Valid() && client.live == live0 + SetOf(created) && old(client.log) <= client.log
    ensures ever0 <= client.ever <= ever0 + SetOf(created0) + SetOf(PlanIds(pending))
    ensures fatal.None? ==> client.ever == ever0 + SetOf(created)
    ensures StopInv(plan, t, created, tries, max) && ReadableUnmixed(t.results)
    ensures CreatedFrom(created0, created, pending)
    ensures fatal.None? ==>
      BatchInv(plan, t, pending, order, created, tries, |pending|, |pending|, a, max, retryFaults)
  {
    t, created, tries, fatal, recoveries := t0, created0, tries0, None, 0;
    var k := 0;
    CreatedFromSets(created0, created0, pending, 0, 0);
    while k < |pending|
      invariant k <= |pending| && client.Valid() && client.live == live0 + SetOf(created)
      invariant client.ever == ever0 + SetOf(created) && old(client.log) <= client.log
      invariant client.ever <= ever0 + SetOf(created0) + SetOf(PlanIds(pending))
      invariant BatchInv(plan, t, pending, order, created, tries, k, k, a, max, retryFaults)
      invariant ReadableUnmixed(t.results)
      invariant CreatedFrom(created0, created, pending)
      invariant Extends(old(client.answers), client.answers) && AnswersInv(t, created, [], client.answers)
    {
      var expired: bool := *;
      if expired {
        fatal := Some(TimeBudget);
        return;
      }
      var c := if k + batchSize < |pending| then k + batchSize else |pending|;
      ghost var before, heard := created, client.answers;
      CreatedFromSets(created0, created, pending, k, c);
      var results;
      fatal, results, created := SendChunk(client, pending, created, k, c, live0, ever0);
      if fatal.Some? {
        KeptAnswers(t, created, heard, client.answers);
        return;
      }
      HeardAnswers(t, before, pending, k, c, results, heard, client.answers);
      CreatedFromGrows(created0, before, pending, k, c);
      SentKeepsInv(plan, t, pending, order, before, tries, k, c, a, max, retryFaults);
      tries := tries + multiset(order[k..c]);
      var recovered;
      t, recovered := BookChunk(plan, t, pending, order, created, tries, k, c, a, max, retryFaults, results,
                                client.answers);
      recoveries := recoveries + recovered;
      k := c;
    }
  }

  ghost predicate Identity(s: seq<nat>, n: nat) {
    |s| == n && forall i :: 0 <= i < n ==> s[i] == i
  }

  function Range(n: nat): (r: seq<nat>)
    ensures |r| == n && forall i :: 0 <= i < n ==> r[i] == i
  {
    if n == 0 then [] else Range(n - 1) + [n - 1]
  }

  /** The logical positions with a final outcome, in input order. */
  function FinalPositions(final: map<nat, Planned>, n: nat): (r: seq<nat>)
    ensures Increasing(r, n)
    ensures forall i :: i in r <==> i < n && i in final
  {
    if n == 0 then [] else FinalPositions(final, n - 1) + if n - 1 in final then [n - 1] else []
  }

  function OrderedMeta(final: map<nat, Planned>, positions: seq<nat>): seq<Planned>
    requires forall i :: i in positions ==> i in final
  {
    seq(|positions|, i requires 0 <= i < |positions| => final[positions[i]])
  }

  /** One item's outcome: the same item as planned, on a branch created for it, resolved or out
      of attempts. */
  ghost predicate ItemAnswered(plan: seq<Planned>, max: nat, p: Planned, at: nat, results: map<BranchId, BranchResult>,
                               created: seq<BranchId>, tries: multiset<nat>)
  {
    && at < |plan| && SameItem(p, plan[at]) && p.branch in created && p.branch in results
    && 1 <= tries[at] && (results[p.branch].Resolved? || tries[at] == max)
  }

  /** The outcome of a depth batch. `positions[i]` is the logical item `meta[i]` answers, and
      `tries` counts the branches created for each logical item. */
  ghost predicate DepthBatch(plan: seq<Planned>, max: nat, meta: seq<Planned>, positions: seq<nat>,
                             results: map<BranchId, BranchResult>, created: seq<BranchId>, tries: multiset<nat>)
  {
    && |meta| == |positions| && Increasing(positions, |plan|)
    && (forall i :: 0 <= i < |meta| ==> ItemAnswered(plan, max, meta[i], positions[i], results, created, tries))
    && Distinct(PlanIds(meta)) && results.Keys == SetOf(PlanIds(meta))
    && Distinct(created) && |tries| == |created|
    && (forall i :: i in tries ==> i < |plan| && tries[i] <= max)
  }

  /** What a depth batch returns is what the server answered: each item has its own answer, and what
      was tried again had come back unresolved. */
  ghost predicate OwnAnswers(meta: seq<Planned>, results: map<BranchId, BranchResult>, created: seq<BranchId>,
                             answers: map<BranchId, Emulated>)
  {
    && (forall i :: 0 <= i < |meta| ==>
          meta[i].branch in results && OwnAnswer(meta[i], results[meta[i].branch], answers))
    && (forall b :: b in created && b !in results ==> b in answers && answers[b].result.Unresolved?)
  }

  lemma OrderedAnswers(t: Tracker, created: seq<BranchId>, n: nat, answers: map<BranchId, Emulated>)
    requires AnswersInv(t, created, [], answers)
    ensures OwnAnswers(OrderedMeta(t.final, FinalPositions(t.final, n)), t.results, created, answers)
  {
    var positions := FinalPositions(t.final, n);
    var meta := OrderedMeta(t.final, positions);
    forall i | 0 <= i < |meta|
      ensures meta[i].branch in t.results && OwnAnswer(meta[i], t.results[meta[i].branch], answers)
    {
      PositionIsFinal(t.final, n, i);
    }
  }

  lemma StoppedDepthBatch(plan: seq<Planned>, t: Tracker, created: seq<BranchId>, tries: multiset<nat>, max: nat)
    requires StopInv(plan, t, created, tries, max)
    ensures var positions := FinalPositions(t.final, |plan|);
      DepthBatch(plan, max, OrderedMeta(t.final, positions), positions, t.results, created, tries)
  {
    var positions := FinalPositions(t.final, |plan|);
    var meta := OrderedMeta(t.final, positions);
    forall i | 0 <= i < |meta|
      ensures ItemAnswered(plan, max, meta[i], positions[i], t.results, created, tries)
    {
      PositionIsFinal(t.final, |plan|, i);
    }
    MetaDistinct(plan, t, created, tries, max);
    FinalIdsOrdered(t.final, |plan|);
  }

  lemma PositionIsFinal(final: map<nat, Planned>, n: nat, i: nat)
    requires i < |FinalPositions(final, n)|
    ensures var positions := FinalPositions(final, n);
      positions[i] in final && OrderedMeta(final, positions)[i] == final[positions[i]]
  {
    assert FinalPositions(final, n)[i] in FinalPositions(final, n);
  }

  lemma MetaDistinct(plan: seq<Planned>, t: Tracker, created: seq<BranchId>, tries: multiset<nat>, max: nat)
    requires FinalInv(plan, t, created, tries, max)
    ensures Distinct(PlanIds(OrderedMeta(t.final, FinalPositions(t.final, |plan|))))
  {
    var positions := FinalPositions(t.final, |plan|);
    var meta := OrderedMeta(t.final, positions);
    forall i, j | 0 <= i < j < |meta| ensures meta[i].branch != meta[j].branch {
      PositionIsFinal(t.final, |plan|, i);
      PositionIsFinal(t.final, |plan|, j);
      assert positions[i] < positions[j];
    }
  }

  lemma FinalIdsOrdered(final: map<nat, Planned>, n: nat)
    requires forall i :: i in final ==> i < n
    ensures FinalIds(final) == SetOf(PlanIds(OrderedMeta(final, FinalPositions(final, n))))
  {
    var positions := FinalPositions(final, n);
    var ids := PlanIds(OrderedMeta(final, positions));
    forall i | i in final ensures final[i].branch in SetOf(ids) {
      assert i in positions;
      var x :| 0 <= x < |positions| && positions[x] == i;
      assert ids[x] == final[i].branch;
    }
    forall x | 0 <= x < |ids| ensures ids[x] in FinalIds(final) {
      assert positions[x] in positions;
    }
  }

  /** When every item is final, each has its result, in input order. */
  lemma {:induction false} AllPositions(final: map<nat, Planned>, n: nat)
    requires forall i :: 0 <= i < n ==> i in final
    ensures |FinalPositions(final, n)| == n
    ensures forall i :: 0 <= i < n ==> FinalPositions(final, n)[i] == i
  {
    if n > 0 {
      AllPositions(final, n - 1);
      var front := FinalPositions(final, n - 1);
      assert n - 1 in final;
      assert FinalPositions(final, n) == front + [n - 1];
    }
  }

  method RenewItems(alloc: BranchIdAllocator, retry: seq<Planned>) returns (renewed: seq<Planned>)
    requires alloc.Valid()
    modifies alloc
    ensures alloc.Valid() && old(alloc.issued) <= alloc.issued && alloc.rngCounter == old(alloc.rngCounter)
    ensures |renewed| == |retry| && Distinct(PlanIds(renewed))
    ensures forall j :: 0 <= j < |renewed| ==>
      SameItem(renewed[j], retry[j]) && renewed[j].branch !in old(alloc.issued)
      && renewed[j].branch in alloc.issued
      && renewed[j].branch != ROOT_BRANCH_ID && renewed[j].branch != ""
  {
    renewed := [];
    for n := 0 to |retry|
      invariant alloc.Valid() && old(alloc.issued) <= alloc.issued && alloc.rngCounter == old(alloc.rngCounter)
      invariant |renewed| == n && Distinct(PlanIds(renewed))
      invariant forall j :: 0 <= j < n ==>
        SameItem(renewed[j], retry[j]) && renewed[j].branch !in old(alloc.issued)
        && renewed[j].branch in alloc.issued
        && renewed[j].branch != ROOT_BRANCH_ID && renewed[j].branch != ""
    {
      var b := alloc.NextBranchId();
      renewed := renewed + [retry[n].(branch := b)];
      assert PlanIds(renewed) == PlanIds(renewed[..n]) + [b];
    }
  }

  lemma FirstPending(plan: seq<Planned>, order: seq<nat>, tries: multiset<nat>)
    requires Distinct(PlanIds(plan)) && Identity(order, |plan|) && tries == multiset{}
    ensures PendingInv(plan, plan, order, tries, 0, 0, 0)
  {
    forall j | 0 <= j < |plan| ensures SameItem(plan[j], plan[order[j]]) && tries[order[j]] == 0 {
      assert order[j] == j;
    }
    assert Increasing(order, |plan|);
  }

  lemma FirstCover(plan: seq<Planned>, t: Tracker, order: seq<nat>)
    requires Identity(order, |plan|) && t.final == map[] && t.results == map[]
    ensures CoverInv(plan, t, plan, order, 0)
  {
    assert order[0..] == order;
    forall i | 0 <= i < |plan| ensures i in order {
      assert order[i] == i;
    }
  }

  lemma FirstRoundInv(plan: seq<Planned>, t: Tracker, order: seq<nat>, tries: multiset<nat>, max: nat)
    requires Distinct(PlanIds(plan)) && max > 0 && Identity(order, |plan|) && |tries| == 0
    requires t.final == map[] && t.results == map[] && t.retry == [] && t.retryOrder == []
    ensures BatchInv(plan, t, plan, order, [], tries, 0, 0, 0, max, 0)
  {
    assert tries == multiset{};
    FirstPending(plan, order, tries);
    FirstCover(plan, t, order);
    assert FinalIds(t.final) == {};
  }

  /** The ids are new to the batch: not the root, not of a branch that existed before. */
  ghost predicate FreshIds(ids: seq<BranchId>, plan: seq<Planned>, ever0: set<BranchId>, issued0: set<BranchId>,
                           issued: set<BranchId>)
  {
    forall b :: b in ids ==>
      b !in ever0 && b in issued && b != ROOT_BRANCH_ID && (b in PlanIds(plan) || b !in issued0)
  }

  /** Between two attempts: the bookkeeping is in order, and the pending items can be sent. */
  ghost predicate RoundInv(plan: seq<Planned>, t: Tracker, pending: seq<Planned>, order: seq<nat>,
                           created: seq<BranchId>, tries: multiset<nat>, a: nat, max: nat, retryFaults: nat,
                           live0: set<BranchId>, ever0: set<BranchId>, issued0: set<BranchId>, issued: set<BranchId>)
  {
    && BatchInv(plan, t, pending, order, created, tries, 0, 0, a, max, retryFaults)
    && t.retry == [] && Ready(pending, live0)
    && FreshIds(created, plan, ever0, issued0, issued)
    && FreshIds(PlanIds(pending), plan, ever0, issued0, issued)
  }

  method PrepareRetry(alloc: BranchIdAllocator, ghost plan: seq<Planned>, t: Tracker,
                      ghost pending: seq<Planned>, ghost order: seq<nat>,
                      ghost created: seq<BranchId>, ghost tries: multiset<nat>, ghost a: nat, ghost max: nat,
                      ghost retryFaults: nat, ghost live0: set<BranchId>, ghost ever0: set<BranchId>,
                      ghost issued0: set<BranchId>)
    returns (renewed: seq<Planned>)
    requires alloc.Valid() && ever0 <= alloc.issued && issued0 <= alloc.issued
    requires BatchInv(plan, t, pending, order, created, tries, |pending|, |pending|, a, max, retryFaults)
    requires Submittable(plan, live0) && FreshIds(created, plan, ever0, issued0, alloc.issued)
    modifies alloc
    ensures alloc.Valid() && old(alloc.issued) <= alloc.issued && alloc.rngCounter == old(alloc.rngCounter)
    ensures |renewed| == |t.retry|
    ensures RoundInv(plan, t.(retry := [], retryOrder := []), renewed, t.retryOrder, created, tries, a + 1, max,
                     retryFaults + |t.retry|, live0, ever0, issued0, alloc.issued)
  {
    renewed := RenewItems(alloc, t.retry);
    NextRoundKeepsInv(plan, t, pending, order, created, tries, a, max, retryFaults, renewed);
    RenewedReady(plan, t.retry, t.retryOrder, renewed, live0);
    assert forall j :: 0 <= j < |renewed| ==> PlanIds(renewed)[j] == renewed[j].branch;
  }

  lemma RenewedReady(plan: seq<Planned>, retry: seq<Planned>, order: seq<nat>, renewed: seq<Planned>,
                     live0: set<BranchId>)
    requires |retry| == |order| == |renewed| && Submittable(plan, live0)
    requires forall r :: 0 <= r < |retry| ==> order[r] < |plan| && SameItem(retry[r], plan[order[r]])
    requires forall r :: 0 <= r < |retry| ==>
      SameItem(renewed[r], retry[r]) && renewed[r].branch != ROOT_BRANCH_ID && renewed[r].branch != ""
    ensures Ready(renewed, live0)
  {
    forall r | 0 <= r < |renewed|
      ensures ItemWellFormed(ItemFor(renewed[r]))
        && (renewed[r].node.branch == ROOT_BRANCH_ID || renewed[r].node.branch in live0)
    {
      assert SameItem(renewed[r], plan[order[r]]) && ItemWellFormed(ItemFor(plan[order[r]]));
    }
  }

  lemma FirstRound(plan: seq<Planned>, t: Tracker, order: seq<nat>, tries: multiset<nat>, max: nat,
                   live0: set<BranchId>, ever0: set<BranchId>, issued0: set<BranchId>)
    requires max > 0 && Identity(order, |plan|) && |tries| == 0
    requires t.final == map[] && t.results == map[] && t.retry == [] && t.retryOrder == []
    requires Submittable(plan, live0)
    requires forall i :: 0 <= i < |plan| ==> plan[i].branch in issued0 && plan[i].branch !in ever0
    ensures RoundInv(plan, t, plan, order, [], tries, 0, max, 0, live0, ever0, issued0, issued0)
  {
    FirstRoundInv(plan, t, order, tries, max);
    forall b | b in PlanIds(plan) ensures b !in ever0 && b in issued0 && b != ROOT_BRANCH_ID {
      var i :| 0 <= i < |plan| && PlanIds(plan)[i] == b;
      assert ItemWellFormed(ItemFor(plan[i]));
    }
  }

  lemma LastRound(plan: seq<Planned>, t: Tracker, pending: seq<Planned>, order: seq<nat>,
                  created: seq<BranchId>, tries: multiset<nat>, a: nat, max: nat, retryFaults: nat)
    requires BatchInv(plan, t, pending, order, created, tries, |pending|, |pending|, a, max, retryFaults)
    requires t.retry == []
    ensures |FinalPositions(t.final, |plan|)| == |plan|
    ensures forall i :: 0 <= i < |plan| ==> FinalPositions(t.final, |plan|)[i] == i
    ensures |created| == |plan| + retryFaults
  {
    assert order[|order|..] == [];
    AllPositions(t.final, |plan|);
  }

  /** All a depth batch may have created is new: of the plan or of a branch issued since. */
  ghost predicate EverGrows(plan: seq<Planned>, ever0: set<BranchId>, ever: set<BranchId>, issued0: set<BranchId>,
                            issued: set<BranchId>)
  {
    forall b :: b in ever && b !in ever0 ==> b in issued && (b in PlanIds(plan) || b !in issued0)
  }

  lemma AttemptEverGrows(plan: seq<Planned>, created: seq<BranchId>, pending: seq<Planned>, ever0: set<BranchId>,
                         ever: set<BranchId>, issued0: set<BranchId>, issued: set<BranchId>)
    requires FreshIds(created, plan, ever0, issued0, issued) && FreshIds(PlanIds(pending), plan, ever0, issued0, issued)
    requires ever <= ever0 + SetOf(created) + SetOf(PlanIds(pending))
    ensures EverGrows(plan, ever0, ever, issued0, issued)
  {
    assert forall b :: b in SetOf(created) ==> b in created;
    assert forall b :: b in SetOf(PlanIds(pending)) ==> b in PlanIds(pending);
  }

  /** Emulates one depth of the frontier. Unless it stops early, it returns one result for each
      logical item, in input order and for the same parent, action and rng; it creates one
      branch per item and one more per retried fault; no item is tried more than `maxAttempts`
      times, and an unresolved result is final only after all of them. Each result is the server's
      own answer to that item, and only branches it answered unresolved are tried again. */
  method EmulateDepthBatch(client: EmulatorClient, alloc: BranchIdAllocator, cfg: Config, plan: seq<Planned>)
    returns (meta: seq<Planned>, ghost positions: seq<nat>, results: map<BranchId, BranchResult>,
             created: seq<BranchId>, ghost tries: multiset<nat>, fatal: Option<Fatal>, retryFaults: nat)
    requires ValidConfig(cfg) && client.Valid() && alloc.Valid()
    requires client.ever <= alloc.issued && Submittable(plan, client.live)
    requires forall i :: 0 <= i < |plan| ==> plan[i].branch in alloc.issued && plan[i].branch !in client.ever
    modifies client, alloc
    ensures client.Valid() && alloc.Valid() && old(alloc.issued) <= alloc.issued
    ensures alloc.rngCounter == old(alloc.rngCounter)
    ensures client.live == old(client.live) + SetOf(created) && old(client.log) <= client.log
    ensures FreshIds(created, plan, old(client.ever), old(alloc.issued), alloc.issued)
    ensures old(client.ever) <= client.ever
    ensures EverGrows(plan, old(client.ever), client.ever, old(alloc.issued), alloc.issued)
    ensures DepthBatch(plan, cfg.maxAttempts, meta, positions, results, created, tries)
    ensures ReadableUnmixed(results)
    ensures Extends(old(client.answers), client.answers) && OwnAnswers(meta, results, created, client.answers)
    ensures fatal.None? ==> |meta| == |plan| && forall i :: 0 <= i < |plan| ==> positions[i] == i
    ensures fatal.None? ==> |created| == |plan| + retryFaults
  {
    var t := Tracker(map[], map[], [], []);
    var pending := plan;
    var order := Range(|plan|);
    created, tries, fatal, retryFaults := [], multiset{}, None, 0;
    ghost var live0, ever0, issued0 := client.live, client.ever, alloc.issued;
    var batchSize := BatchSize(cfg, client.batchLimit);
    var a := 0;
    FirstRound(plan, t, order, tries, cfg.maxAttempts, live0, ever0, issued0);
    while true
      invariant Extends(old(client.answers), client.answers) && AnswersInv(t, created, [], client.answers)
      invariant a < cfg.maxAttempts && client.Valid() && alloc.Valid()
      invariant client.live == live0 + SetOf(created) && client.ever == ever0 + SetOf(created)
      invariant issued0 <= alloc.issued && old(client.log) <= client.log
      invariant alloc.rngCounter == old(alloc.rngCounter) && ReadableUnmixed(t.results)
      invariant RoundInv(plan, t, pending, order, created, tries, a, cfg.maxAttempts, retryFaults,
                         live0, ever0, issued0, alloc.issued)
      decreases cfg.maxAttempts - a
    {
      var recoveries;
      ghost var before := created;
      t, created, tries, fatal, recoveries :=
        RunAttempt(client, batchSize, plan, pending, order, t, created, tries, a, cfg.maxAttempts, retryFaults, live0,
                   ever0);
      assert FreshIds(created, plan, ever0, issued0, alloc.issued);
      AttemptEverGrows(plan, before, pending, ever0, client.ever, issued0, alloc.issued);
      if fatal.Some? {
        break;
      }
      if t.retry == [] {
        LastRound(plan, t, pending, order, created, tries, a, cfg.maxAttempts, retryFaults);
        break;
      }
      var renewed := PrepareRetry(alloc, plan, t, pending, order, created, tries, a, cfg.maxAttempts,
                                  retryFaults, live0, ever0, issued0);
      retryFaults := retryFaults + |t.retry|;
      order, pending := t.retryOrder, renewed;
      t := t.(retry := [], retryOrder := []);
      a := a + 1;
    }
    StoppedDepthBatch(plan, t, created, tries, cfg.maxAttempts);
    OrderedAnswers(t, created, |plan|, client.answers);
    positions := FinalPositions(t.final, |plan|);
    meta, results := OrderedMeta(t.final, FinalPositions(t.final, |plan|)), t.results;
  }
}
