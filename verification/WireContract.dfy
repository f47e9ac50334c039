/** The session-sequenced wire contract: the requests a client may build, the answers it
    may read, and the validation an `emulate_actions` batch has to pass before it is sent. */
module WireContract {
  import opened Wrappers

  type BranchId = string

  const ROOT_BRANCH_ID: BranchId := "root"

  datatype EmulateItem = EmulateItem(
    parent: BranchId, branch: BranchId, rngId: int, decisionPoint: string, action: string)

  datatype Operation =
    | StartInstance(config: string)
    | GetDecision(instance: string, branch: BranchId)
    | CommitAction(instance: string, decisionPoint: string, action: string)
    | EmulateAction(instance: string, item: EmulateItem)
    | EmulateActions(instance: string, items: seq<EmulateItem>)
    | CancelBranches(instance: string, branches: seq<BranchId>)
    | ReleaseBranches(instance: string, branches: seq<BranchId>)
    | GetBranchStatus(instance: string, branches: seq<BranchId>)
    | CloseInstance(instance: string)

  /** One serialized request. Two requests are the same retry token exactly when they are
      the same payload, so the token is the request itself. */
  datatype Request = Request(session: string, seqNo: nat, op: Operation)

  datatype FaultKind =
    | InvalidRequest | SequenceConflict | SequenceGap | CapacityExceeded
    | InstanceConflict | UnknownInstance | OtherFault

  /** What an answer says of one branch: whether it completed, and the finite HP its state shows. */
  datatype BranchReport = BranchReport(completed: bool, hp: Option<real>)

  /** A complete answer as the client classifies it. `Malformed` stands for every answer that
      fails the envelope or the operation-specific validators; `results` holds what it says of
      each branch. */
  datatype Response =
    | Completed(instance: string, batchLimit: Option<nat>, results: map<BranchId, BranchReport>)
    | Rejected(kind: FaultKind)
    | Faulted(kind: FaultKind)
    | Malformed

  /** Rejections issued before the server admits the request as its next sequence. */
  predicate NonConsuming(r: Response) {
    r.Rejected? && (r.kind.InvalidRequest? || r.kind.SequenceConflict? || r.kind.SequenceGap?
                    || r.kind.CapacityExceeded?)
  }

  /** Answers that consume their sequence but end the session. */
  predicate FatalConsuming(r: Response) {
    (r.Rejected? || r.Faulted?) && (r.kind.InstanceConflict? || r.kind.UnknownInstance?)
  }

  predicate IsEmulate(op: Operation) {
    op.EmulateAction? || op.EmulateActions?
  }

  predicate IsBranchBatch(op: Operation) {
    op.CancelBranches? || op.ReleaseBranches? || op.GetBranchStatus?
  }

  /** The branches an exact retry of this operation may create. */
  function CreatedBranches(op: Operation): set<BranchId> {
    match op
    case EmulateAction(_, item) => {item.branch}
    case EmulateActions(_, items) => set i | 0 <= i < |items| :: items[i].branch
    case _ => {}
  }

  /** The active instance an operation is addressed to; only `start_instance` has none. */
  predicate AddressedTo(op: Operation, instance: Option<string>) {
    match op
    case StartInstance(_) => instance.None?
    case GetDecision(i, _) => instance == Some(i)
    case CommitAction(i, _, _) => instance == Some(i)
    case EmulateAction(i, _) => instance == Some(i)
    case EmulateActions(i, _) => instance == Some(i)
    case CancelBranches(i, _) => instance == Some(i)
    case ReleaseBranches(i, _) => instance == Some(i)
    case GetBranchStatus(i, _) => instance == Some(i)
    case CloseInstance(i) => instance == Some(i)
  }

  predicate ItemWellFormed(item: EmulateItem) {
    item.parent != "" && item.branch != "" && item.decisionPoint != "" && item.action != ""
    && item.branch != ROOT_BRANCH_ID && item.rngId > 0
  }

  ghost predicate DistinctBranches(items: seq<EmulateItem>) {
    forall i, j :: 0 <= i < j < |items| ==> items[i].branch != items[j].branch
  }

  ghost predicate NoInnerParent(items: seq<EmulateItem>) {
    forall i, j :: 0 <= i < |items| && 0 <= j < |items| ==> items[i].parent != items[j].branch
  }

  /** What the contract asks of a batch: non-empty, inside the server limit, every item well
      formed, every created branch new to the batch, and no parent created by a sibling. */
  ghost predicate AcceptableBatch(items: seq<EmulateItem>, limit: Option<nat>) {
    && 0 < |items|
    && (limit.Some? ==> |items| <= limit.value)
    && (forall i :: 0 <= i < |items| ==> ItemWellFormed(items[i]))
    && DistinctBranches(items)
    && NoInnerParent(items)
  }

  ghost predicate AcceptableIds(ids: seq<BranchId>) {
    && 0 < |ids|
    && (forall i :: 0 <= i < |ids| ==> ids[i] != "" && ids[i] != ROOT_BRANCH_ID)
    && (forall i, j :: 0 <= i < j < |ids| ==> ids[i] != ids[j])
  }

  datatype BuildError =
    | EmptyBatch | OverServerLimit | BadItem(index: nat) | DuplicateBranch(index: nat)
    | ParentCreatedInBatch(index: nat)

  /** Builds an `emulate_actions` batch the way the client does: one pass over the items that
      fills a set of branch ids, then one pass over the parents. It succeeds on exactly the
      acceptable batches, and an error names a reason that really holds. */
  method BuildEmulateActions(items: seq<EmulateItem>, limit: Option<nat>)
    returns (r: Result<seq<EmulateItem>, BuildError>)
    ensures r.Success? <==> AcceptableBatch(items, limit)
    ensures r.Success? ==> r.value == items
    ensures r.Failure? && r.error.EmptyBatch? ==> items == []
    ensures r.Failure? && r.error.OverServerLimit? ==> limit.Some? && |items| > limit.value
    ensures r.Failure? && r.error.BadItem? ==>
      r.error.index < |items| && !ItemWellFormed(items[r.error.index])
    ensures r.Failure? && r.error.DuplicateBranch? ==>
      r.error.index < |items|
      && exists j :: 0 <= j < r.error.index && items[j].branch == items[r.error.index].branch
    ensures r.Failure? && r.error.ParentCreatedInBatch? ==>
      r.error.index < |items|
      && exists j :: 0 <= j < |items| && items[j].branch == items[r.error.index].parent
  {
    if items == [] {
      return Failure(EmptyBatch);
    }
    if limit.Some? && |items| > limit.value {
      return Failure(OverServerLimit);
    }
    var seen: set<BranchId> := {};
    var n := 0;
    while n < |items|
      invariant n <= |items|
      invariant seen == set i | 0 <= i < n :: items[i].branch
      invariant forall i :: 0 <= i < n ==> ItemWellFormed(items[i])
      invariant forall i, j :: 0 <= i < j < n ==> items[i].branch != items[j].branch
    {
      if !ItemWellFormed(items[n]) {
        return Failure(BadItem(n));
      }
      if items[n].branch in seen {
        return Failure(DuplicateBranch(n));
      }
      seen := seen + {items[n].branch};
      n := n + 1;
    }
    n := 0;
    while n < |items|
      invariant n <= |items|
      invariant forall i, j :: 0 <= i < n && 0 <= j < |items| ==> items[i].parent != items[j].branch
    {
      if items[n].parent in seen {
        return Failure(ParentCreatedInBatch(n));
      }
      n := n + 1;
    }
    return Success(items);
  }
}
