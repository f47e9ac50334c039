/** The selection audit: one `selection` event for each logical selection, and
    `selection_recovery` for every later record of the same request and branch. */
module SelectionAudit {
  import opened Wrappers
  import opened WireContract

  /** One logged event. Within a session `request_id` is the session name and the sequence,
      so `request.seqNo` identifies it. */
  datatype SelectionEvent = SelectionEvent(recovery: bool, branch: BranchId, request: Request)

  /** The replay bookkeeping plus everything the logger has been given so far. */
  datatype AuditState = AuditState(
    current: Option<nat>, branches: set<BranchId>, events: seq<SelectionEvent>)

  const EMPTY_AUDIT := AuditState(None, {}, [])

  function Cleared(a: AuditState): AuditState {
    a.(current := None, branches := {})
  }

  function Recorded(a: AuditState, branch: BranchId, request: Request): AuditState {
    var known := if a.current == Some(request.seqNo) then a.branches else {};
    AuditState(Some(request.seqNo), known + {branch},
               a.events + [SelectionEvent(branch in known, branch, request)])
  }

  function RecordedAll(a: AuditState, branches: seq<BranchId>, request: Request): AuditState
    decreases |branches|
  {
    if branches == [] then a
    else RecordedAll(Recorded(a, branches[0], request), branches[1..], request)
  }

  class Audit {
    var currentRequest: Option<nat>
    var branches: set<BranchId>
    var events: seq<SelectionEvent>

    ghost function State(): AuditState
      reads this
    {
      AuditState(currentRequest, branches, events)
    }

    constructor ()
      ensures State() == EMPTY_AUDIT
    {
      currentRequest, branches, events := None, {}, [];
    }

    method Clear()
      modifies this
      ensures State() == Cleared(old(State()))
    {
      currentRequest, branches := None, {};
    }

    method RecordAction(branch: BranchId, request: Request)
      modifies this
      ensures State() == Recorded(old(State()), branch, request)
    {
      if currentRequest != Some(request.seqNo) {
        currentRequest := Some(request.seqNo);
        branches := {};
      }
      var isRecovery := branch in branches;
      events := events + [SelectionEvent(isRecovery, branch, request)];
      if !isRecovery {
        branches := branches + {branch};
      }
      assert branches == (if old(currentRequest) == Some(request.seqNo) then old(branches) else {}) + {branch};
    }

    method RecordBatch(items: seq<EmulateItem>, request: Request)
      modifies this
      ensures State()
              == RecordedAll(old(State()), seq(|items|, i requires 0 <= i < |items| => items[i].branch), request)
    {
      ghost var ids := seq(|items|, i requires 0 <= i < |items| => items[i].branch);
      var n := 0;
      while n < |items|
        invariant n <= |items|
        invariant RecordedAll(State(), ids[n..], request) == RecordedAll(old(State()), ids, request)
      {
        assert ids[n..][0] == items[n].branch && ids[n..][1..] == ids[n + 1..];
        RecordAction(items[n].branch, request);
        n := n + 1;
      }
    }
  }

  ghost predicate SameSelection(e: SelectionEvent, f: SelectionEvent) {
    e.branch == f.branch && e.request.seqNo == f.request.seqNo
  }

  ghost predicate Logged(events: seq<SelectionEvent>, seqNo: nat, branch: BranchId) {
    exists i :: 0 <= i < |events| && events[i].branch == branch && events[i].request.seqNo == seqNo
  }

  /** The audit promise: an event is a recovery exactly when the same request and branch was
      logged before, so every pair has one `selection`, and it comes first. */
  ghost predicate OneSelectionEach(events: seq<SelectionEvent>) {
    forall j :: 0 <= j < |events| ==>
      (events[j].recovery <==> Logged(events[..j], events[j].request.seqNo, events[j].branch))
  }

  /** Every logged sequence is below `bound`. */
  ghost predicate LoggedBelow(events: seq<SelectionEvent>, bound: nat) {
    forall i :: 0 <= i < |events| ==> events[i].request.seqNo < bound
  }

  /** What the bookkeeping has to keep between two records: it knows every branch of the
      newest logged request, and nothing newer has been logged. */
  ghost predicate AuditInv(a: AuditState, bound: nat) {
    && OneSelectionEach(a.events)
    && match a.current
       case None => LoggedBelow(a.events, bound)
       case Some(k) =>
         k <= bound && LoggedBelow(a.events, k + 1)
         && forall b :: b in a.branches <==> Logged(a.events, k, b)
  }

  lemma LoggedAppend(events: seq<SelectionEvent>, e: SelectionEvent, seqNo: nat, branch: BranchId)
    ensures Logged(events + [e], seqNo, branch)
      <==> Logged(events, seqNo, branch) || (e.branch == branch && e.request.seqNo == seqNo)
  {
    var all := events + [e];
    if Logged(events, seqNo, branch) {
      var i :| 0 <= i < |events| && events[i].branch == branch && events[i].request.seqNo == seqNo;
      assert all[i] == events[i];
    }
    if e.branch == branch && e.request.seqNo == seqNo {
      assert all[|events|] == e;
    }
  }

  /** Recording for the sequence in turn keeps the promise, whatever was logged for it before. */
  lemma RecordedKeepsPromise(a: AuditState, branch: BranchId, request: Request)
    requires AuditInv(a, request.seqNo)
    ensures AuditInv(Recorded(a, branch, request), request.seqNo)
    ensures Recorded(a, branch, request).current == Some(request.seqNo)
  {
    var n := request.seqNo;
    var known := if a.current == Some(n) then a.branches else {};
    assert forall b :: b in known <==> Logged(a.events, n, b);
    var e := SelectionEvent(branch in known, branch, request);
    var all := a.events + [e];
    forall j | 0 <= j < |all|
      ensures all[j].recovery <==> Logged(all[..j], all[j].request.seqNo, all[j].branch)
    {
      if j < |a.events| {
        assert all[..j] == a.events[..j] && all[j] == a.events[j];
      } else {
        assert all[..j] == a.events && all[j] == e;
      }
    }
    forall b ensures b in known + {branch} <==> Logged(all, n, b) {
      LoggedAppend(a.events, e, n, b);
    }
  }

  lemma {:induction false} RecordedAllKeepsPromise(a: AuditState, branches: seq<BranchId>, request: Request)
    requires AuditInv(a, request.seqNo)
    ensures AuditInv(RecordedAll(a, branches, request), request.seqNo)
    decreases |branches|
  {
    if branches != [] {
      RecordedKeepsPromise(a, branches[0], request);
      RecordedAllKeepsPromise(Recorded(a, branches[0], request), branches[1..], request);
    }
  }

  /** Reading the promise per pair: no pair is ever logged as a fresh selection twice. */
  lemma SelectionLoggedOnce(events: seq<SelectionEvent>, i: nat, j: nat)
    requires OneSelectionEach(events)
    requires i < j < |events| && SameSelection(events[i], events[j])
    ensures events[j].recovery
  {
    assert events[..j][i] == events[i];
    assert Logged(events[..j], events[j].request.seqNo, events[j].branch);
  }
}
