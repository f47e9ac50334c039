/** The client and its connection as objects whose methods update their fields step by step.
    Every method is proved against the session functions. */
module TrainingClient {
  import opened Wrappers
  import opened WireContract
  import opened SelectionAudit
  import opened SessionClient

  /** One epoch-checked connection. Sockets and clock are nondeterministic choices. */
  class TcpConnection {
    var serverEpoch: Option<nat>
    var streamOpen: bool
    var closed: bool

    constructor ()
      ensures serverEpoch.None? && !streamOpen && !closed
    {
      serverEpoch, streamOpen, closed := None, false, false;
    }

    method Disconnect()
      modifies this`streamOpen
      ensures !streamOpen
    {
      streamOpen := false;
    }

    /** False when `epoch` is not the one first seen; the first epoch ever seen is adopted. */
    method AssertEpoch(epoch: nat) returns (same: bool)
      modifies this`serverEpoch
      ensures serverEpoch == (if old(serverEpoch).None? then Some(epoch) else old(serverEpoch))
      ensures same <==> serverEpoch == Some(epoch)
    {
      if serverEpoch.None? {
        serverEpoch := Some(epoch);
        return true;
      }
      same := serverEpoch.value == epoch;
    }

    /** Opens a stream and checks its epoch, unless one is open already. */
    method Connect() returns (connected: bool, epochChanged: bool)
      modifies this
      ensures closed == old(closed)
      ensures connected ==> streamOpen && !epochChanged
      ensures epochChanged ==> !streamOpen && old(serverEpoch).Some?
      ensures old(serverEpoch).Some? ==> serverEpoch == old(serverEpoch)
      ensures !old(streamOpen) && connected ==> serverEpoch.Some?
    {
      connected, epochChanged := false, false;
      if closed {
        return;
      }
      if streamOpen {
        return true, false;
      }
      var reachable: bool := *;
      var helloEpoch: nat := *;
      if !reachable {
        Disconnect();
        return;
      }
      var same := AssertEpoch(helloEpoch);
      if !same {
        Disconnect();
        return false, true;
      }
      streamOpen := true;
      connected := true;
    }

    /** Sends one request and reads one answer. `sent` is the flag raised just before the
        first byte is written: only an exchange that raised it can be completion-uncertain,
        and every uncertain or refused one leaves no stream behind. */
    method Exchange(request: Request) returns (o: Outcome, sent: bool)
      modifies this
      ensures o.NotSent? ==> !sent
      ensures o.AnswerLost? || o.TransportRefused? || o.Answered? ==> sent
      ensures o.AnswerLost? || o.TransportRefused? ==> !streamOpen
      ensures o.Answered? ==> streamOpen && serverEpoch.Some?
      ensures old(serverEpoch).Some? ==> serverEpoch == old(serverEpoch)
      ensures o.EpochChanged? && !sent ==> old(serverEpoch).Some? && !streamOpen
    {
      sent := false;
      var oversized: bool := *;
      if oversized {
        return NotSent, sent;
      }
      var interruptedBeforeSend: bool := *;
      var connected, epochChanged := Connect();
      if epochChanged {
        return EpochChanged, sent;
      }
      if !connected || interruptedBeforeSend {
        return NotSent, sent;
      }
      sent := true;
      var frameArrived: bool := *;
      var parses: bool := *;
      if !frameArrived || !parses {
        Disconnect();
        return AnswerLost, sent;
      }
      var transportError: bool := *;
      if transportError {
        Disconnect();
        return TransportRefused, sent;
      }
      var responseEpoch: nat := *;
      var same := AssertEpoch(responseEpoch);
      if !same {
        return EpochChanged, sent;
      }
      var response: Response := *;
      return Answered(response), sent;
    }
  }

  /** What a call hands back to its caller. */
  datatype CallResult =
    | Answer(response: Response)
    | OperationError(response: Response)
    | TransportFailure(uncertain: bool)
    | SessionLost
    | ProtocolError
    | LocalError

  /** The result the source raises or returns for an exchange that ends in `o`. */
  function ResultOf(o: Outcome): CallResult {
    match o
    case NotSent => TransportFailure(false)
    case TransportRefused => TransportFailure(false)
    case AnswerLost => TransportFailure(true)
    case EpochChanged => SessionLost
    case Answered(r) =>
      if r.Completed? then Answer(r) else if r.Malformed? then ProtocolError else OperationError(r)
  }

  class AsyncTrainingApiClient {
    const session: string
    const audit: Audit
    const connection: TcpConnection
    var nextRequestSeq: nat
    var pendingRetry: Option<Request>
    var sessionInvalid: bool
    var pendingRetryCleanup: Option<CleanupRecord>
    var instanceId: Option<string>
    var batchLimit: Option<nat>

    ghost function State(): ClientState
      reads this, audit
    {
      ClientState(session, nextRequestSeq, pendingRetry, sessionInvalid, pendingRetryCleanup,
                  instanceId, batchLimit, audit.State())
    }

    ghost predicate Valid()
      reads this, audit
    {
      ClientInv(State())
    }

    constructor (session: string, connection: TcpConnection)
      ensures Valid() && State() == InitialState(session)
      ensures this.connection == connection && fresh(audit)
    {
      this.session := session;
      this.connection := connection;
      audit := new Audit();
      nextRequestSeq := 1;
      pendingRetry, sessionInvalid, pendingRetryCleanup := None, false, None;
      instanceId, batchLimit := None, None;
    }

    // ----- sequencing ------------------------------------------------------------------

    /** Neither of the two mismatches the source guards against can occur: the precondition is
        proved at every call. */
    method RememberPending(token: Request)
      requires token.session == session && token.seqNo == nextRequestSeq
      requires pendingRetry.None? || pendingRetry == Some(token)
      modifies this`pendingRetry
      ensures pendingRetry == Some(token)
    {
      pendingRetry := Some(token);
    }

    method ConsumeSequence(token: Request)
      requires token.seqNo == nextRequestSeq
      modifies this`pendingRetry, this`nextRequestSeq
      ensures State() == Consumed(old(State()))
    {
      pendingRetry := None;
      nextRequestSeq := nextRequestSeq + 1;
    }

    method InvalidateSession()
      modifies this
      ensures State() == Invalidated(old(State()))
    {
      sessionInvalid := true;
      pendingRetry := None;
      pendingRetryCleanup := None;
    }

    method ForgetInstance()
      modifies this, audit
      ensures State() == InstanceClosed(old(State()))
    {
      instanceId, batchLimit := None, None;
      pendingRetryCleanup := None;
      audit.Clear();
    }

    /** One exchange, with its errors classified. A completed answer is handed back before the
        sequence is consumed, so that the caller can still reject it. */
    method Execute(request: Request) returns (o: Outcome)
      requires Executable(State(), request)
      modifies this, audit, connection
      ensures State() == (if o.Answered? && o.response.Completed? then old(State())
                          else AfterExecute(old(State()), request, o))
    {
      var sent;
      o, sent := connection.Exchange(request);
      match o {
        case NotSent =>
        case TransportRefused =>
        case EpochChanged => InvalidateSession();
        case AnswerLost => RememberPending(request);
        case Answered(response) =>
          if response.Malformed? {
            RememberPending(request);
            connection.Disconnect();
          } else if NonConsuming(response) {
            InvalidateSession();
          } else if !response.Completed? {
            ConsumeSequence(request);
            if request.op.CloseInstance? && response.Faulted? {
              ForgetInstance();
            }
            if FatalConsuming(response) {
              sessionInvalid := true;
              pendingRetryCleanup := None;
            }
          }
      }
    }

    /** Execution followed by the acceptance of a completed answer. */
    method ExecuteAndAccept(request: Request) returns (o: Outcome)
      requires Executable(State(), request)
      modifies this, audit, connection
      ensures State() == AfterExecute(old(State()), request, o)
    {
      o := Execute(request);
      if o.Answered? && o.response.Completed? {
        if request.op.StartInstance? {
          instanceId, batchLimit := Some(o.response.instance), o.response.batchLimit;
          pendingRetryCleanup := None;
          audit.Clear();
        }
        ConsumeSequence(request);
        if request.op.CloseInstance? {
          ForgetInstance();
        }
      }
    }

    /** Records the selections of a request, whatever its outcome was. */
    method RecordSelection(request: Request, o: Outcome)
      modifies this, audit
      ensures State() == Audited(old(State()), request, o)
    {
      match request.op {
        case CommitAction(_, _, _) =>
          assert RecordedAll(audit.State(), [ROOT_BRANCH_ID], request)
              == RecordedAll(Recorded(audit.State(), ROOT_BRANCH_ID, request), [], request);
          audit.RecordAction(ROOT_BRANCH_ID, request);
          if o.Answered? && o.response.Completed? {
            audit.Clear();
          }
        case EmulateAction(_, item) =>
          assert RecordedAll(audit.State(), [item.branch], request)
              == RecordedAll(Recorded(audit.State(), item.branch, request), [], request);
          audit.RecordAction(item.branch, request);
        case EmulateActions(_, items) =>
          audit.RecordBatch(items, request);
        case _ =>
      }
    }

    // ----- fresh calls -----------------------------------------------------------------

    method NormalizeBranchIds(ids: seq<BranchId>) returns (ok: bool)
      ensures ok <==> AcceptableIds(ids)
    {
      if ids == [] {
        return false;
      }
      var seen: set<BranchId> := {};
      var n := 0;
      while n < |ids|
        invariant n <= |ids|
        invariant seen == set i | 0 <= i < n :: ids[i]
        invariant forall i :: 0 <= i < n ==> ids[i] != "" && ids[i] != ROOT_BRANCH_ID
        invariant forall i, j :: 0 <= i < j < n ==> ids[i] != ids[j]
      {
        if ids[n] == "" || ids[n] == ROOT_BRANCH_ID || ids[n] in seen {
          return false;
        }
        seen := seen + {ids[n]};
        n := n + 1;
      }
      return true;
    }

    method CheckBuild(op: Operation) returns (ok: bool)
      ensures ok <==> CanBuild(State(), op)
    {
      if !AddressedTo(op, instanceId) {
        return false;
      }
      match op {
        case EmulateAction(_, item) => ok := ItemWellFormed(item);
        case EmulateActions(_, items) =>
          var built := BuildEmulateActions(items, batchLimit);
          ok := built.Success?;
        case CancelBranches(_, ids) => ok := NormalizeBranchIds(ids);
        case ReleaseBranches(_, ids) => ok := NormalizeBranchIds(ids);
        case GetBranchStatus(_, ids) => ok := NormalizeBranchIds(ids);
        case _ => ok := true;
      }
    }

    /** Any fresh public call. It fails closed, with nothing changed and nothing sent, exactly
        when the session is invalid, a retry is pending, or the request cannot be built. */
    method Call(op: Operation) returns (r: CallResult, ghost o: Outcome)
      requires Valid()
      modifies this, audit, connection
      ensures Valid()
      ensures r.LocalError? <==> !(Usable(old(State())) && CanBuild(old(State()), op))
      ensures r.LocalError? ==> State() == old(State()) && o.NotSent?
      ensures !r.LocalError? ==> r == ResultOf(o)
      ensures !r.LocalError? ==>
        State() == AfterFresh(old(State()), NextRequest(old(State()), op), o)
    {
      o := NotSent;
      if sessionInvalid || pendingRetry.Some? {
        return LocalError, o;
      }
      var buildable := CheckBuild(op);
      if !buildable {
        return LocalError, o;
      }
      var request := Request(session, nextRequestSeq, op);
      ghost var before := State();
      var outcome := ExecuteAndAccept(request);
      RecordSelection(request, outcome);
      CallKeepsInv(before, request, outcome);
      r, o := ResultOf(outcome), outcome;
    }

    // ----- exact replay and deferred cleanup -------------------------------------------

    method DeferBranchCleanupAfterRetry(retry: Request, instance: string, ids: seq<BranchId>)
      returns (error: Option<DeferError>)
      requires Valid()
      modifies this`pendingRetryCleanup
      ensures Valid()
      ensures match Deferred(old(State()), retry, instance, ids)
              case Success(d) => error.None? && State() == d
              case Failure(e) => error == Some(e) && State() == old(State())
    {
      if sessionInvalid {
        return Some(DeferOnInvalidSession);
      }
      if pendingRetry != Some(retry) {
        return Some(NotThePendingRetry);
      }
      if InstanceOf(retry.op) != Some(instance) {
        return Some(WrongInstance);
      }
      if !IsEmulate(retry.op) {
        return Some(NotAnEmulate);
      }
      var wellNamed, normalized := DeduplicateBranchIds(ids);
      if !wellNamed {
        return Some(BadBranchId);
      }
      if ids == [] {
        return Some(NoBranches);
      }
      var created := CreatedBranches(retry.op);
      if created == {} || exists b :: b in created && b !in normalized {
        return Some(MissingCreatedBranch);
      }
      var record := CleanupRecord(retry, instance, normalized);
      if pendingRetryCleanup.Some? && pendingRetryCleanup.value != record {
        return Some(OtherCleanupPending);
      }
      DeferKeepsInv(State(), retry, instance, ids);
      pendingRetryCleanup := Some(record);
      return None;
    }

    method DeduplicateBranchIds(ids: seq<BranchId>) returns (ok: bool, normalized: seq<BranchId>)
      ensures ok <==> forall b :: b in ids ==> b != "" && b != ROOT_BRANCH_ID
      ensures ok ==> normalized == Deduplicated(ids)
    {
      normalized := [];
      var n := 0;
      while n < |ids|
        invariant n <= |ids|
        invariant normalized == Deduplicated(ids[..n])
        invariant forall i :: 0 <= i < n ==> ids[i] != "" && ids[i] != ROOT_BRANCH_ID
      {
        if ids[n] == "" || ids[n] == ROOT_BRANCH_ID {
          assert ids[n] in ids;
          return false, [];
        }
        assert ids[..n + 1][..n] == ids[..n];
        if ids[n] !in normalized {
          normalized := normalized + [ids[n]];
        }
        n := n + 1;
      }
      assert ids[..|ids|] == ids;
      ok := true;
    }

    /** The release that follows a resolved replay. The sequence is claimed as the pending
        retry before the exchange starts, so no cancellation can forget it. */
    method CompleteDeferredBranchCleanup(source: Request, rejected: bool) returns (r: CallResult, ghost o: Outcome)
      requires Valid() && Usable(State())
      requires pendingRetryCleanup.Some? && pendingRetryCleanup.value.token == source ==>
        instanceId == Some(pendingRetryCleanup.value.instance)
      modifies this, audit, connection
      ensures State() ==
        (if OwesCleanup(old(State()), source, rejected)
         then AfterCleanup(CleanupClaimed(old(State()), source, rejected),
                           CleanupRequest(old(State()), source, rejected), o)
         else CleanupClaimed(old(State()), source, rejected))
      ensures r == (if OwesCleanup(old(State()), source, rejected) then ResultOf(o) else LocalError)
    {
      r, o := LocalError, NotSent;
      if pendingRetryCleanup.None? || pendingRetryCleanup.value.token != source {
        return;
      }
      var record := pendingRetryCleanup.value;
      var owed := OwedBranches(record, source, rejected);
      if owed == [] {
        pendingRetryCleanup := None;
        return;
      }
      CleanupClaimKeepsInv(State(), source, rejected);
      var release := Request(session, nextRequestSeq, ReleaseBranches(record.instance, owed));
      pendingRetryCleanup := Some(CleanupRecord(release, record.instance, owed));
      RememberPending(release);
      var outcome := ExecuteAndAccept(release);
      if pendingRetry != Some(release) {
        pendingRetryCleanup := None;
      }
      r, o := ResultOf(outcome), outcome;
    }

    /** Exact replay of the pending request, and the deferred release it may bring due. */
    method RetryRequest(retry: Request) returns (r: CallResult, ghost o: Outcome, ghost cleanupOutcome: Outcome)
      requires Valid()
      modifies this, audit, connection
      ensures Valid()
      ensures r.LocalError? <==> old(State()).invalid || old(State()).pending != Some(retry)
      ensures r.LocalError? ==> State() == old(State())
      ensures !r.LocalError? ==> State() == AfterRetry(old(State()), retry, o, cleanupOutcome)
      ensures !r.LocalError? && CleanupAnchored(old(State())) ==>
        (CleanupAnchored(State()) <==> !ReleaseReplayRefused(old(State()), retry, o))
    {
      o, cleanupOutcome := NotSent, NotSent;
      if sessionInvalid || pendingRetry != Some(retry) {
        return LocalError, o, cleanupOutcome;
      }
      ghost var before := State();
      var outcome := ExecuteAndAccept(retry);
      RecordSelection(retry, outcome);
      if IsBranchBatch(retry.op) && outcome.Answered? && outcome.response.Completed?
         && pendingRetryCleanup.Some? && pendingRetryCleanup.value.token == retry {
        pendingRetryCleanup := None;
      }
      ghost var replayed := State();
      assert replayed == AfterReplay(before, retry, outcome);
      CallKeepsInv(before, retry, outcome);
      r, o := ResultOf(outcome), outcome;
      if IsEmulate(retry.op) && pendingRetry.None? && !sessionInvalid {
        ResolvedReplayInstance(before, retry, outcome);
        var rejected := outcome.Answered? && outcome.response.Rejected?;
        var cleaned;
        cleaned, cleanupOutcome := CompleteDeferredBranchCleanup(retry, rejected);
        if !rejected && !cleaned.LocalError? && !cleaned.Answer? {
          r := cleaned;
        }
      }
      assert State() == AfterRetry(before, retry, o, cleanupOutcome);
      RetryKeepsCleanupAnchored(before, retry, o, cleanupOutcome);
    }
  }
}
