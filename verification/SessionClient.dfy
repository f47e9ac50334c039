/** The logical client as functions of its state: sequencing, the exact retry token, deferred cleanup. */
module SessionClient {
  import opened Wrappers
  import opened WireContract
  import opened SelectionAudit

  /** How one exchange on the connection ends. `NotSent` covers every failure or cancellation
      before the first byte; `AnswerLost` every failure or cancellation after it;
      `TransportRefused` is a transport error frame, which says the request was not admitted. */
  datatype Outcome =
    | NotSent
    | TransportRefused
    | AnswerLost
    | EpochChanged
    | Answered(response: Response)

  datatype CleanupRecord = CleanupRecord(token: Request, instance: string, branches: seq<BranchId>)

  datatype ClientState = ClientState(
    session: string,
    nextSeq: nat,
    pending: Option<Request>,
    invalid: bool,
    cleanup: Option<CleanupRecord>,
    instance: Option<string>,
    batchLimit: Option<nat>,
    audit: AuditState)

  function InitialState(session: string): ClientState {
    ClientState(session, 1, None, false, None, None, None, EMPTY_AUDIT)
  }

  predicate Usable(c: ClientState) {
    !c.invalid && c.pending.None?
  }

  // ----- building requests -------------------------------------------------------------

  /** The local checks a fresh call has to pass before anything is sent. */
  ghost predicate CanBuild(c: ClientState, op: Operation) {
    && AddressedTo(op, c.instance)
    && match op
       case EmulateAction(_, item) => ItemWellFormed(item)
       case EmulateActions(_, items) => AcceptableBatch(items, c.batchLimit)
       case CancelBranches(_, ids) => AcceptableIds(ids)
       case ReleaseBranches(_, ids) => AcceptableIds(ids)
       case GetBranchStatus(_, ids) => AcceptableIds(ids)
       case _ => true
  }

  function NextRequest(c: ClientState, op: Operation): Request {
    Request(c.session, c.nextSeq, op)
  }

  // ----- one exchange ------------------------------------------------------------------

  function Consumed(c: ClientState): ClientState {
    c.(pending := None, nextSeq := c.nextSeq + 1)
  }

  function Invalidated(c: ClientState): ClientState {
    c.(invalid := true, pending := None, cleanup := None)
  }

  function InstanceClosed(c: ClientState): ClientState {
    c.(instance := None, batchLimit := None, cleanup := None, audit := Cleared(c.audit))
  }

  /** The effect of an accepted answer, after its operation-specific validation. */
  function Accepted(c: ClientState, op: Operation, response: Response): ClientState
    requires response.Completed?
  {
    if op.StartInstance? then
      c.(instance := Some(response.instance), batchLimit := response.batchLimit, cleanup := None,
         audit := Cleared(c.audit))
    else if op.CloseInstance? then InstanceClosed(c)
    else c
  }

  function AfterExecute(c: ClientState, r: Request, o: Outcome): ClientState {
    match o
    case NotSent => c
    case TransportRefused => c
    case AnswerLost => c.(pending := Some(r))
    case EpochChanged => Invalidated(c)
    case Answered(response) =>
      match response
      case Malformed => c.(pending := Some(r))
      case Completed(_, _, _) => Accepted(Consumed(c), r.op, response)
      case _ =>
        if NonConsuming(response) then Invalidated(c)
        else
          var d := Consumed(c);
          var e := if r.op.CloseInstance? && response.Faulted? then InstanceClosed(d) else d;
          if FatalConsuming(response) then e.(invalid := true, cleanup := None) else e
  }

  predicate IsSelection(op: Operation) {
    op.CommitAction? || IsEmulate(op)
  }

  /** The branch each audited item of a selection is identified by. */
  function SelectedBranches(op: Operation): seq<BranchId> {
    match op
    case CommitAction(_, _, _) => [ROOT_BRANCH_ID]
    case EmulateAction(_, item) => [item.branch]
    case EmulateActions(_, items) => seq(|items|, i requires 0 <= i < |items| => items[i].branch)
    case _ => []
  }

  function Audited(c: ClientState, r: Request, o: Outcome): ClientState {
    if !IsSelection(r.op) then c
    else
      var logged := RecordedAll(c.audit, SelectedBranches(r.op), r);
      c.(audit := if r.op.CommitAction? && o.Answered? && o.response.Completed?
                  then Cleared(logged) else logged)
  }

  /** A fresh call: execute, then record the selection whatever the outcome was. */
  function AfterFresh(c: ClientState, r: Request, o: Outcome): ClientState {
    Audited(AfterExecute(c, r, o), r, o)
  }

  /** A replay, up to the point where deferred cleanup may follow. */
  function AfterReplay(c: ClientState, r: Request, o: Outcome): ClientState {
    var d := AfterFresh(c, r, o);
    if IsBranchBatch(r.op) && o.Answered? && o.response.Completed?
       && d.cleanup.Some? && d.cleanup.value.token == r
    then d.(cleanup := None) else d
  }

  // ----- deferred cleanup --------------------------------------------------------------

  datatype DeferError =
    | DeferOnInvalidSession | NotThePendingRetry | WrongInstance | NotAnEmulate
    | BadBranchId | NoBranches | MissingCreatedBranch | OtherCleanupPending

  /** The given ids without repetitions, in the order of first occurrence. */
  function Deduplicated(ids: seq<BranchId>): (r: seq<BranchId>)
    ensures forall b :: b in r <==> b in ids
    ensures forall i, j :: 0 <= i < j < |r| ==> r[i] != r[j]
  {
    if ids == [] then []
    else
      var front := Deduplicated(ids[..|ids| - 1]);
      assert ids == ids[..|ids| - 1] + [ids[|ids| - 1]];
      if ids[|ids| - 1] in front then front else front + [ids[|ids| - 1]]
  }

  function InstanceOf(op: Operation): Option<string> {
    match op
    case StartInstance(_) => None
    case GetDecision(i, _) => Some(i)
    case CommitAction(i, _, _) => Some(i)
    case EmulateAction(i, _) => Some(i)
    case EmulateActions(i, _) => Some(i)
    case CancelBranches(i, _) => Some(i)
    case ReleaseBranches(i, _) => Some(i)
    case GetBranchStatus(i, _) => Some(i)
    case CloseInstance(i) => Some(i)
  }

  function Deferred(c: ClientState, retry: Request, instance: string, ids: seq<BranchId>)
    : Result<ClientState, DeferError>
  {
    if c.invalid then Failure(DeferOnInvalidSession)
    else if c.pending != Some(retry) then Failure(NotThePendingRetry)
    else if InstanceOf(retry.op) != Some(instance) then Failure(WrongInstance)
    else if !IsEmulate(retry.op) then Failure(NotAnEmulate)
    else if exists b :: b in ids && (b == "" || b == ROOT_BRANCH_ID) then Failure(BadBranchId)
    else if ids == [] then Failure(NoBranches)
    else if CreatedBranches(retry.op) == {} || exists b :: b in CreatedBranches(retry.op) && b !in ids
    then Failure(MissingCreatedBranch)
    else
      var record := CleanupRecord(retry, instance, Deduplicated(ids));
      if c.cleanup.Some? && c.cleanup.value != record then Failure(OtherCleanupPending)
      else Success(c.(cleanup := Some(record)))
  }

  function Without(ids: seq<BranchId>, dropped: set<BranchId>): (r: seq<BranchId>)
    ensures forall b :: b in r <==> b in ids && b !in dropped
    ensures (forall i, j :: 0 <= i < j < |ids| ==> ids[i] != ids[j])
      ==> forall i, j :: 0 <= i < j < |r| ==> r[i] != r[j]
  {
    if ids == [] then []
    else
      var front := Without(ids[..|ids| - 1], dropped);
      assert ids == ids[..|ids| - 1] + [ids[|ids| - 1]];
      if ids[|ids| - 1] in dropped then front else front + [ids[|ids| - 1]]
  }

  /** What a resolved replay of `source` still owes: everything recorded, or, when the replay
      was rejected, only what did not come from `source` itself. */
  function OwedBranches(record: CleanupRecord, source: Request, rejected: bool): seq<BranchId> {
    if rejected then Without(record.branches, CreatedBranches(source.op)) else record.branches
  }

  predicate OwesCleanup(c: ClientState, source: Request, rejected: bool) {
    c.cleanup.Some? && c.cleanup.value.token == source
    && OwedBranches(c.cleanup.value, source, rejected) != []
  }

  function CleanupRequest(c: ClientState, source: Request, rejected: bool): Request
    requires c.cleanup.Some?
  {
    NextRequest(c, ReleaseBranches(c.cleanup.value.instance,
                                   OwedBranches(c.cleanup.value, source, rejected)))
  }

  /** The state in which the cleanup exchange starts: the release is already the pending
      retry, and the record now carries the release as its token. Nothing owed, no exchange. */
  function CleanupClaimed(c: ClientState, source: Request, rejected: bool): ClientState {
    if c.cleanup.None? || c.cleanup.value.token != source then c
    else if !OwesCleanup(c, source, rejected) then c.(cleanup := None)
    else
      var release := CleanupRequest(c, source, rejected);
      c.(pending := Some(release),
         cleanup := Some(CleanupRecord(release, c.cleanup.value.instance, release.op.branches)))
  }

  function AfterCleanup(c: ClientState, release: Request, o: Outcome): ClientState {
    var d := AfterExecute(c, release, o);
    if d.pending != Some(release) then d.(cleanup := None) else d
  }

  /** A replayed emulate request is resolved when it left nothing pending on a live session;
      only then may the deferred release follow. */
  predicate ReplayResolved(d: ClientState, op: Operation) {
    IsEmulate(op) && d.pending.None? && !d.invalid
  }

  predicate WasRejected(o: Outcome) {
    o.Answered? && o.response.Rejected?
  }

  // ----- what every call keeps ---------------------------------------------------------

  ghost predicate PendingInv(c: ClientState) {
    c.pending.Some? ==>
      var p := c.pending.value;
      !c.invalid && p.session == c.session && p.seqNo == c.nextSeq && CanBuild(c, p.op)
  }

  ghost predicate CleanupShape(c: ClientState) {
    c.cleanup.Some? ==> AcceptableIds(c.cleanup.value.branches) && !c.invalid
  }

  /** A record attached to the pending request covers every branch that request may create,
      on the same instance; a pending release carries exactly the recorded branches. */
  ghost predicate CleanupMatches(c: ClientState) {
    c.cleanup.Some? && c.pending == Some(c.cleanup.value.token) ==>
      var p := c.cleanup.value.token;
      InstanceOf(p.op) == Some(c.cleanup.value.instance)
      && (IsEmulate(p.op) ==> forall b :: b in CreatedBranches(p.op) ==> b in c.cleanup.value.branches)
      && (p.op.ReleaseBranches? ==> p.op.branches == c.cleanup.value.branches)
      && (IsEmulate(p.op) || p.op.ReleaseBranches?)
  }

  /** The release a record promises is still going to be sent: the record's token is the
      pending request. */
  predicate CleanupAnchored(c: ClientState) {
    c.cleanup.Some? ==> c.pending == Some(c.cleanup.value.token)
  }

  /** A record that lost its request belongs to a sequence already consumed, so no later
      request can be mistaken for its token. */
  predicate CleanupAge(c: ClientState) {
    CleanupAnchored(c) || c.cleanup.value.token.seqNo < c.nextSeq
  }

  ghost predicate ClientInv(c: ClientState) {
    && c.nextSeq > 0
    && PendingInv(c) && CleanupShape(c) && CleanupMatches(c) && CleanupAge(c)
    && AuditInv(c.audit, c.nextSeq)
  }

  /** The request may be executed now: it is the next sequence and no other one is pending. */
  ghost predicate Executable(c: ClientState, r: Request) {
    && !c.invalid && r.session == c.session && r.seqNo == c.nextSeq
    && (c.pending.None? || c.pending == Some(r))
    && CanBuild(c, r.op)
  }

  lemma InitialClientInv(session: string)
    ensures ClientInv(InitialState(session)) && CleanupAnchored(InitialState(session))
  {
  }

  lemma ExecuteKeepsInv(c: ClientState, r: Request, o: Outcome)
    requires ClientInv(c) && Executable(c, r)
    ensures ClientInv(AfterExecute(c, r, o))
  {
    ExecuteKeepsPending(c, r, o);
    ExecuteKeepsAudit(c, r, o);
    ExecuteKeepsCleanup(c, r, o);
  }

  lemma ExecuteKeepsPending(c: ClientState, r: Request, o: Outcome)
    requires ClientInv(c) && Executable(c, r)
    ensures var d := AfterExecute(c, r, o);
      d.nextSeq >= c.nextSeq && PendingInv(d)
  {
  }

  lemma ExecuteKeepsAudit(c: ClientState, r: Request, o: Outcome)
    requires ClientInv(c) && Executable(c, r)
    ensures AuditInv(AfterExecute(c, r, o).audit, AfterExecute(c, r, o).nextSeq)
  {
  }

  lemma ExecuteKeepsCleanup(c: ClientState, r: Request, o: Outcome)
    requires ClientInv(c) && Executable(c, r)
    ensures var d := AfterExecute(c, r, o);
      CleanupShape(d) && CleanupMatches(d) && CleanupAge(d)
  {
  }

  lemma AuditedKeepsPromise(c: ClientState, r: Request, o: Outcome)
    requires ClientInv(c) && Executable(c, r)
    ensures AuditInv(AfterFresh(c, r, o).audit, AfterFresh(c, r, o).nextSeq)
  {
    ExecuteKeepsInv(c, r, o);
    if IsSelection(r.op) {
      assert AfterExecute(c, r, o).audit == c.audit;
      RecordedAllKeepsPromise(c.audit, SelectedBranches(r.op), r);
      var logged := RecordedAll(c.audit, SelectedBranches(r.op), r);
      assert LoggedBelow(logged.events, c.nextSeq + 1);
    }
  }

  /** Every exchange of a fresh call or of a replay keeps the client's invariant. */
  lemma CallKeepsInv(c: ClientState, r: Request, o: Outcome)
    requires ClientInv(c) && Executable(c, r)
    ensures ClientInv(AfterFresh(c, r, o)) && ClientInv(AfterReplay(c, r, o))
  {
    ExecuteKeepsInv(c, r, o);
    AuditedKeepsPromise(c, r, o);
  }

  lemma CleanupClaimKeepsInv(c: ClientState, source: Request, rejected: bool)
    requires ClientInv(c) && Usable(c)
    requires c.cleanup.Some? && c.cleanup.value.token == source ==>
      c.instance == Some(c.cleanup.value.instance)
    ensures ClientInv(CleanupClaimed(c, source, rejected))
    ensures c.cleanup.Some? && c.cleanup.value.token == source ==>
      CleanupAnchored(CleanupClaimed(c, source, rejected))
    ensures OwesCleanup(c, source, rejected) ==>
      Executable(CleanupClaimed(c, source, rejected), CleanupRequest(c, source, rejected))
  {
    if OwesCleanup(c, source, rejected) {
      var ids := OwedBranches(c.cleanup.value, source, rejected);
      forall i | 0 <= i < |ids| ensures ids[i] != "" && ids[i] != ROOT_BRANCH_ID {
        assert ids[i] in ids;
        assert ids[i] in c.cleanup.value.branches;
      }
      assert AcceptableIds(ids);
    }
  }

  lemma CleanupExchangeKeepsInv(c: ClientState, release: Request, o: Outcome)
    requires ClientInv(c) && Executable(c, release) && c.pending == Some(release)
    requires CleanupAnchored(c)
    ensures ClientInv(AfterCleanup(c, release, o)) && CleanupAnchored(AfterCleanup(c, release, o))
  {
    ExecuteKeepsInv(c, release, o);
  }

  lemma DeferKeepsInv(c: ClientState, retry: Request, instance: string, ids: seq<BranchId>)
    requires ClientInv(c) && Deferred(c, retry, instance, ids).Success?
    ensures ClientInv(Deferred(c, retry, instance, ids).value)
    ensures CleanupAnchored(Deferred(c, retry, instance, ids).value)
  {
    var d := Deferred(c, retry, instance, ids).value;
    var kept := Deduplicated(ids);
    forall i | 0 <= i < |kept| ensures kept[i] != "" && kept[i] != ROOT_BRANCH_ID {
      assert kept[i] in kept;
    }
    assert ids[0] in kept;
  }

  /** Outcomes that consume the sequence of the request they answer. */
  predicate Consumes(o: Outcome) {
    o.Answered? && !o.response.Malformed? && !NonConsuming(o.response)
  }

  predicate EndsSession(o: Outcome) {
    o.EpochChanged? || (o.Answered? && (NonConsuming(o.response) || FatalConsuming(o.response)))
  }

  /** Sequence, session and pending retry after one exchange for `r`. */
  ghost predicate Sequenced(c: ClientState, d: ClientState, r: Request, o: Outcome) {
    && d.session == c.session
    && d.nextSeq == c.nextSeq + (if Consumes(o) then 1 else 0)
    && (d.invalid <==> EndsSession(o))
    && (!Consumes(o) && !d.invalid ==>
          d.pending == (if o.AnswerLost? || o.Answered? then Some(r) else c.pending))
  }

  lemma ExecuteSequence(c: ClientState, r: Request, o: Outcome)
    requires Executable(c, r)
    ensures Sequenced(c, AfterExecute(c, r, o), r, o)
    ensures Consumes(o) ==> AfterExecute(c, r, o).pending.None?
  {
  }

  lemma CallSequence(c: ClientState, r: Request, o: Outcome)
    requires Executable(c, r)
    ensures Sequenced(c, AfterFresh(c, r, o), r, o)
    ensures Sequenced(c, AfterReplay(c, r, o), r, o)
    ensures Sequenced(c, AfterCleanup(c, r, o), r, o)
    ensures Consumes(o) ==> AfterFresh(c, r, o).pending.None? && AfterReplay(c, r, o).pending.None?
    ensures Consumes(o) ==> AfterCleanup(c, r, o).pending.None?
  {
    ExecuteSequence(c, r, o);
  }

  /** The only calls that change the pending retry: an answer to exactly that request
      consumes it, an epoch change or a session rejection ends the session, everything else
      leaves it in place. */
  lemma PendingIsNeverForgotten(c: ClientState, r: Request, o: Outcome)
    requires ClientInv(c) && Executable(c, r) && c.pending == Some(r)
    ensures var d := AfterFresh(c, r, o);
      (d.pending == Some(r) && d.nextSeq == c.nextSeq && !d.invalid)
      || (d.pending.None? && d.nextSeq == c.nextSeq + 1 && o.Answered? && !o.response.Malformed?)
      || (d.pending.None? && d.invalid)
  {
  }

  /** A replay loses its hold on a deferred release in exactly one case: the replayed request
      is that release, and the answer refuses it without ending the session. The record then
      survives although nothing is pending. */
  predicate ReleaseReplayRefused(c: ClientState, r: Request, o: Outcome) {
    c.cleanup.Some? && c.cleanup.value.token == r && r.op.ReleaseBranches?
    && o.Answered? && (o.response.Rejected? || o.response.Faulted?)
    && !NonConsuming(o.response) && !FatalConsuming(o.response)
  }

  /** The state in which a whole `retry_request` leaves the client when its first exchange
      ends in `o` and, if a release follows, that one ends in `cleanupOutcome`. */
  function AfterRetry(c: ClientState, r: Request, o: Outcome, cleanupOutcome: Outcome): ClientState {
    var d := AfterReplay(c, r, o);
    if !ReplayResolved(d, r.op) then d
    else
      var e := CleanupClaimed(d, r, WasRejected(o));
      if OwesCleanup(d, r, WasRejected(o))
      then AfterCleanup(e, CleanupRequest(d, r, WasRejected(o)), cleanupOutcome) else e
  }

  lemma ResolvedReplayInstance(c: ClientState, r: Request, o: Outcome)
    requires ClientInv(c) && Executable(c, r) && c.pending == Some(r)
    requires ReplayResolved(AfterReplay(c, r, o), r.op)
    ensures var d := AfterReplay(c, r, o);
      d.cleanup.Some? && d.cleanup.value.token == r ==> d.instance == Some(d.cleanup.value.instance)
    ensures AfterReplay(c, r, o).cleanup == c.cleanup
    ensures o.Answered? && !o.response.Malformed?
  {
  }

  /** The client's state when the first exchange of a retry is over and its deferred release,
      if it owes one, is claimed. */
  function AfterReplayed(c: ClientState, r: Request, o: Outcome): ClientState {
    var d := AfterReplay(c, r, o);
    if ReplayResolved(d, r.op) then CleanupClaimed(d, r, WasRejected(o)) else d
  }

  lemma ReplayedKeepsAnchor(c: ClientState, r: Request, o: Outcome)
    requires ClientInv(c) && Executable(c, r) && c.pending == Some(r)
    ensures ClientInv(AfterReplayed(c, r, o))
    ensures CleanupAnchored(c) ==>
      (CleanupAnchored(AfterReplayed(c, r, o)) <==> !ReleaseReplayRefused(c, r, o))
  {
    CallKeepsInv(c, r, o);
    var d := AfterReplay(c, r, o);
    if ReplayResolved(d, r.op) {
      ResolvedReplayInstance(c, r, o);
      CleanupClaimKeepsInv(d, r, WasRejected(o));
    }
  }

  lemma FreshKeepsAnchor(c: ClientState, r: Request, o: Outcome)
    requires ClientInv(c) && Executable(c, r) && c.pending.None? && CleanupAnchored(c)
    ensures CleanupAnchored(AfterFresh(c, r, o))
  {
  }

  /** Deferred cleanup stays attached to a pending request through every retry, except exactly
      when a replayed release is refused. */
  lemma RetryKeepsCleanupAnchored(c: ClientState, r: Request, o: Outcome, cleanupOutcome: Outcome)
    requires ClientInv(c) && Executable(c, r) && c.pending == Some(r)
    ensures ClientInv(AfterRetry(c, r, o, cleanupOutcome))
    ensures CleanupAnchored(c) ==>
      (CleanupAnchored(AfterRetry(c, r, o, cleanupOutcome)) <==> !ReleaseReplayRefused(c, r, o))
  {
    ReplayedKeepsAnchor(c, r, o);
    CallKeepsInv(c, r, o);
    var d := AfterReplay(c, r, o);
    if ReplayResolved(d, r.op) && OwesCleanup(d, r, WasRejected(o)) {
      ResolvedReplayInstance(c, r, o);
      CleanupClaimKeepsInv(d, r, WasRejected(o));
      CleanupExchangeKeepsInv(CleanupClaimed(d, r, WasRejected(o)),
                              CleanupRequest(d, r, WasRejected(o)), cleanupOutcome);
    }
  }
}
