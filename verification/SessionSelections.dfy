/** Nothing a client selects goes unlogged: the audit log against requests and answers, over whole runs. */
module SessionSelections {
  import opened Wrappers
  import opened WireContract
  import opened SelectionAudit
  import opened SessionClient
  import opened SessionWorld

  /** The branches an operation selects an action on: the root by a commit, and each branch an
      emulate request creates. */
  ghost predicate Selects(op: Operation, b: BranchId) {
    match op
    case CommitAction(_, _, _) => b == ROOT_BRANCH_ID
    case EmulateAction(_, item) => b == item.branch
    case EmulateActions(_, items) => exists i :: 0 <= i < |items| && items[i].branch == b
    case _ => false
  }

  ghost predicate LoggedFor(events: seq<SelectionEvent>, q: Request, b: BranchId) {
    exists i :: 0 <= i < |events| && events[i].request == q && events[i].branch == b
  }

  /** Everything the request selects is logged under it. */
  ghost predicate FullyLogged(events: seq<SelectionEvent>, q: Request) {
    forall b :: Selects(q.op, b) ==> LoggedFor(events, q, b)
  }

  /** An event is about something its request really selects. */
  ghost predicate Truthful(events: seq<SelectionEvent>) {
    forall i :: 0 <= i < |events| ==> Selects(events[i].request.op, events[i].branch)
  }

  lemma SelectedAreSelected(op: Operation, b: BranchId)
    ensures b in SelectedBranches(op) <==> Selects(op, b)
  {
    if op.EmulateActions? && Selects(op, b) {
      var i :| 0 <= i < |op.items| && op.items[i].branch == b;
      assert SelectedBranches(op)[i] == b;
    }
  }

  lemma {:induction false} RecordedAllLogs(a: AuditState, branches: seq<BranchId>, q: Request)
    ensures a.events <= RecordedAll(a, branches, q).events
    ensures forall b :: b in branches ==> LoggedFor(RecordedAll(a, branches, q).events, q, b)
    ensures forall i :: |a.events| <= i < |RecordedAll(a, branches, q).events| ==>
      RecordedAll(a, branches, q).events[i].request == q && RecordedAll(a, branches, q).events[i].branch in branches
    decreases |branches|
  {
    if branches != [] {
      var next := Recorded(a, branches[0], q);
      RecordedAllLogs(next, branches[1..], q);
      var events := RecordedAll(a, branches, q).events;
      assert events[|a.events|] == next.events[|a.events|];
      assert LoggedFor(events, q, branches[0]);
    }
  }

  /** A call adds to the log what its request selects, and nothing else. */
  lemma CallLogs(c: ClientState, r: Request, o: Outcome)
    requires Truthful(c.audit.events)
    ensures var events := AfterFresh(c, r, o).audit.events;
      c.audit.events <= events && FullyLogged(events, r) && Truthful(events)
  {
    var before := AfterExecute(c, r, o).audit;
    assert before.events == c.audit.events;
    RecordedAllLogs(before, SelectedBranches(r.op), r);
    forall b ensures b in SelectedBranches(r.op) <==> Selects(r.op, b) {
      SelectedAreSelected(r.op, b);
    }
  }

  lemma LongerLog(events: seq<SelectionEvent>, more: seq<SelectionEvent>, q: Request)
    requires events <= more && FullyLogged(events, q)
    ensures FullyLogged(more, q)
  {
    forall b | Selects(q.op, b) ensures LoggedFor(more, q, b) {
      var i :| 0 <= i < |events| && events[i].request == q && events[i].branch == b;
      assert more[i] == events[i];
    }
  }

  /** What was answered and what is owed is fully logged, and the log says nothing else. */
  ghost predicate LogInv(w: World) {
    && Truthful(w.client.audit.events)
    && (forall i :: 0 <= i < |w.answers| ==> FullyLogged(w.client.audit.events, w.answers[i].request))
    && (w.client.pending.Some? ==> FullyLogged(w.client.audit.events, w.client.pending.value))
  }

  lemma FinishedLog(w: World, o: Outcome)
    requires QuietInv(w) && PossibleOutcome(w, o) && LogInv(w)
    ensures var events := Finished(w, o).client.audit.events;
      w.client.audit.events <= events && FullyLogged(events, w.control.request) && Truthful(events)
    ensures Finished(w, o).client.pending in {None, w.client.pending, Some(w.control.request)}
      || Finished(w, o).client.pending.value.op.ReleaseBranches?
  {
    CallLogs(w.client, w.control.request, o);
    FinishedAudit(w, o);
    FinishedPending(w, o);
  }

  lemma FinishedAudit(w: World, o: Outcome)
    requires w.control.Busy? && (w.control.kind.DeferredRelease? ==> w.control.request.op.ReleaseBranches?)
    ensures Finished(w, o).client.audit == AfterFresh(w.client, w.control.request, o).audit
  {
  }

  /** What is pending afterwards was pending before, or is the request itself or a release. */
  lemma FinishedPending(w: World, o: Outcome)
    requires w.control.Busy? && (w.control.kind.DeferredRelease? ==> w.control.request.op.ReleaseBranches?)
    ensures var pending := Finished(w, o).client.pending;
      pending in {None, w.client.pending, Some(w.control.request)} || pending.value.op.ReleaseBranches?
  {
  }

  lemma FinishedKeepsLog(w: World, o: Outcome)
    requires QuietInv(w) && PossibleOutcome(w, o) && LogInv(w)
    ensures LogInv(Finished(w, o))
  {
    var w' := Finished(w, o);
    var before, events := w.client.audit.events, w'.client.audit.events;
    FinishedLog(w, o);
    FinishedNetwork(w, o);
    forall i | 0 <= i < |w'.answers| ensures FullyLogged(events, w'.answers[i].request) {
      if i < |w.answers| {
        assert w'.answers[i] == w.answers[i];
        LongerLog(before, events, w.answers[i].request);
      }
    }
    if w.client.pending.Some? {
      LongerLog(before, events, w.client.pending.value);
    }
  }

  lemma StepKeepsLog(w: World, s: Step)
    requires Inv(w) && Enabled(w, s) && LogInv(w)
    ensures LogInv(Apply(w, s)) && w.client.audit.events <= Apply(w, s).client.audit.events
  {
    if CallEnd(w, s).Some? {
      StepEndsCall(w, s);
      FinishedLog(AtCallEnd(w, s), CallEnd(w, s).value);
      FinishedKeepsLog(AtCallEnd(w, s), CallEnd(w, s).value);
    } else {
      StepLeavesCall(w, s);
    }
  }

  /** In every state of every run, each selection the client got an answer to or still owes is in
      the log under its own request, for each of its branches; and every logged event is about a
      branch its request selects. */
  lemma {:induction false} EverySelectionIsLogged(ws: seq<World>, steps: seq<Step>, k: nat)
    requires Run(ws, steps) && k < |ws|
    ensures LogInv(ws[k])
  {
    if k > 0 {
      EverySelectionIsLogged(ws, steps, k - 1);
      RunKeepsInv(ws, steps, k - 1);
      StepKeepsLog(ws[k - 1], steps[k - 1]);
    }
  }

  /** And no event is ever taken back. */
  lemma {:induction false} LogOnlyGrows(ws: seq<World>, steps: seq<Step>, i: nat, k: nat)
    requires Run(ws, steps) && i <= k < |ws|
    ensures ws[i].client.audit.events <= ws[k].client.audit.events
  {
    if i < k {
      LogOnlyGrows(ws, steps, i, k - 1);
      EverySelectionIsLogged(ws, steps, k - 1);
      RunKeepsInv(ws, steps, k - 1);
      StepKeepsLog(ws[k - 1], steps[k - 1]);
    }
  }
}
