/** The instance and the batch limit a client works with, by the answers it consumed, over whole runs. */
module SessionLimits {
  import opened Wrappers
  import opened WireContract
  import opened SessionClient
  import opened SessionWorld

  predicate Starts(e: Exchange) {
    e.request.op.StartInstance? && e.response.Completed?
  }

  /** A faulted close ends the instance as well. */
  predicate Closes(e: Exchange) {
    e.request.op.CloseInstance? && (e.response.Completed? || e.response.Faulted?)
  }

  /** Answer `i` started this instance with this batch limit; nothing started or closed one since. */
  ghost predicate StartedAt(answers: seq<Exchange>, i: nat, instance: string, limit: Option<nat>) {
    && i < |answers| && Starts(answers[i])
    && answers[i].response.instance == instance && answers[i].response.batchLimit == limit
    && forall j :: i < j < |answers| ==> !Starts(answers[j]) && !Closes(answers[j])
  }

  /** Every instance that was started was closed later on. */
  ghost predicate NothingActive(answers: seq<Exchange>) {
    forall i :: 0 <= i < |answers| && Starts(answers[i]) ==> exists j :: i < j < |answers| && Closes(answers[j])
  }

  /** The client's instance and limit are those of the last start it was told of. */
  ghost predicate ActiveInstance(c: ClientState, answers: seq<Exchange>) {
    match c.instance
    case Some(instance) => exists i: nat :: StartedAt(answers, i, instance, c.batchLimit)
    case None => c.batchLimit.None? && NothingActive(answers)
  }

  /** A batch names the active instance and is no longer than the limit that came with it. */
  ghost predicate BatchFits(answers: seq<Exchange>, op: Operation) {
    op.EmulateActions? ==>
      exists i: nat, limit: Option<nat> ::
        StartedAt(answers, i, op.instance, limit) && (limit.Some? ==> |op.items| <= limit.value)
  }

  /** Nothing but an accepted start or a close touches either. */
  lemma SameInstance(c: ClientState, d: ClientState, answers: seq<Exchange>, e: Exchange)
    requires ActiveInstance(c, answers) && !Starts(e) && !Closes(e)
    requires d.instance == c.instance && d.batchLimit == c.batchLimit
    ensures ActiveInstance(d, answers + [e])
  {
    if c.instance.Some? {
      var i: nat :| StartedAt(answers, i, c.instance.value, c.batchLimit);
      assert StartedAt(answers + [e], i, c.instance.value, c.batchLimit);
    } else {
      StillNothingActive(answers, e);
    }
  }

  lemma StillNothingActive(answers: seq<Exchange>, e: Exchange)
    requires NothingActive(answers) && !Starts(e)
    ensures NothingActive(answers + [e])
  {
    var longer := answers + [e];
    forall i | 0 <= i < |longer| && Starts(longer[i]) ensures exists j :: i < j < |longer| && Closes(longer[j]) {
      assert longer[i] == answers[i];
      var j :| i < j < |answers| && Closes(answers[j]);
      assert Closes(longer[j]);
    }
  }

  lemma NewInstance(d: ClientState, answers: seq<Exchange>, e: Exchange)
    requires Starts(e) && d.instance == Some(e.response.instance) && d.batchLimit == e.response.batchLimit
    ensures ActiveInstance(d, answers + [e])
  {
    assert StartedAt(answers + [e], |answers|, e.response.instance, e.response.batchLimit);
  }

  lemma NoInstance(d: ClientState, answers: seq<Exchange>, e: Exchange)
    requires Closes(e) && d.instance.None? && d.batchLimit.None?
    ensures ActiveInstance(d, answers + [e])
  {
    var longer := answers + [e];
    forall i | 0 <= i < |longer| && Starts(longer[i]) ensures exists j :: i < j < |longer| && Closes(longer[j]) {
      assert Closes(longer[|answers|]);
    }
  }

  /** The end of a call moves the instance with the answers. */
  lemma ExecuteKeepsInstance(c: ClientState, r: Request, o: Outcome, answers: seq<Exchange>)
    requires ActiveInstance(c, answers)
    ensures ActiveInstance(AfterExecute(c, r, o), if Consumes(o) then answers + [Exchange(r, o.response)] else answers)
  {
    var d := AfterExecute(c, r, o);
    if Consumes(o) {
      var e := Exchange(r, o.response);
      if Starts(e) {
        NewInstance(d, answers, e);
      } else if Closes(e) {
        NoInstance(d, answers, e);
      } else {
        SameInstance(c, d, answers, e);
      }
    } else {
      assert d.instance == c.instance && d.batchLimit == c.batchLimit;
    }
  }

  lemma SettledInstance(d: ClientState, r: Request, rejected: bool)
    ensures CleanupClaimed(d, r, rejected).instance == d.instance
    ensures CleanupClaimed(d, r, rejected).batchLimit == d.batchLimit
  {
  }

  /** Auditing and deferred cleanup leave the instance alone. */
  lemma FinishedInstance(w: World, o: Outcome)
    requires w.control.Busy?
    ensures Finished(w, o).client.instance == AfterExecute(w.client, w.control.request, o).instance
    ensures Finished(w, o).client.batchLimit == AfterExecute(w.client, w.control.request, o).batchLimit
  {
    var r := w.control.request;
    if w.control.kind.Replay? {
      SettledInstance(AfterReplay(w.client, r, o), r, WasRejected(o));
    }
  }

  lemma FinishedKeepsInstance(w: World, o: Outcome)
    requires w.control.Busy? && ActiveInstance(w.client, w.answers)
    ensures ActiveInstance(Finished(w, o).client, Finished(w, o).answers)
  {
    var r := w.control.request;
    ExecuteKeepsInstance(w.client, r, o, w.answers);
    FinishedInstance(w, o);
    assert Finished(w, o).answers == if Consumes(o) then w.answers + [Exchange(r, o.response)] else w.answers;
  }

  lemma StepKeepsInstance(w: World, s: Step)
    requires Inv(w) && Enabled(w, s) && ActiveInstance(w.client, w.answers)
    ensures ActiveInstance(Apply(w, s).client, Apply(w, s).answers)
  {
    if CallEnd(w, s).Some? {
      StepEndsCall(w, s);
      FinishedKeepsInstance(AtCallEnd(w, s), CallEnd(w, s).value);
    } else {
      StepLeavesCall(w, s);
    }
  }

  /** In every state of every run, the client's instance and batch limit are those of the last
      completed start it consumed, and it has none exactly when that instance was closed since. */
  lemma {:induction false} InstanceIsLastStarted(ws: seq<World>, steps: seq<Step>, k: nat)
    requires Run(ws, steps) && k < |ws|
    ensures ActiveInstance(ws[k].client, ws[k].answers)
  {
    if k > 0 {
      InstanceIsLastStarted(ws, steps, k - 1);
      RunKeepsInv(ws, steps, k - 1);
      StepKeepsInstance(ws[k - 1], steps[k - 1]);
    }
  }

  lemma BuildableFits(c: ClientState, answers: seq<Exchange>, op: Operation)
    requires ActiveInstance(c, answers) && CanBuild(c, op)
    ensures BatchFits(answers, op)
  {
    if op.EmulateActions? {
      var i: nat :| StartedAt(answers, i, c.instance.value, c.batchLimit);
    }
  }

  /** So no batch is built, pending or in flight that is longer than that limit. */
  lemma HeldBatchWithinLimit(ws: seq<World>, steps: seq<Step>, k: nat, op: Operation)
    requires Run(ws, steps) && k < |ws|
    ensures Enabled(ws[k], BeginFresh(op)) ==> BatchFits(ws[k].answers, op)
    ensures ws[k].control.Busy? ==> BatchFits(ws[k].answers, ws[k].control.request.op)
    ensures ws[k].client.pending.Some? ==> BatchFits(ws[k].answers, ws[k].client.pending.value.op)
  {
    RunKeepsInv(ws, steps, k);
    InstanceIsLastStarted(ws, steps, k);
    var c, answers := ws[k].client, ws[k].answers;
    if Enabled(ws[k], BeginFresh(op)) {
      BuildableFits(c, answers, op);
    }
    if ws[k].control.Busy? {
      BuildableFits(c, answers, ws[k].control.request.op);
    }
    if c.pending.Some? {
      BuildableFits(c, answers, c.pending.value.op);
    }
  }

  // ----- what the server executes ------------------------------------------------------

  /** Every executed batch fits the limit the server gave before it, and so does every stray copy
      for the sequence in turn. */
  ghost predicate FitsInv(w: World) {
    && ActiveInstance(w.client, w.answers)
    && (forall q :: q in w.strays && q.seqNo == w.client.nextSeq ==> BatchFits(w.answers, q.op))
    && forall i :: 0 <= i < |w.executed| ==> BatchFits(w.executed[..i], w.executed[i].request.op)
  }

  lemma FinishedKeepsFit(w: World, o: Outcome)
    requires QuietInv(w) && PossibleOutcome(w, o) && FitsInv(w)
    ensures FitsInv(Finished(w, o))
  {
    var w' := Finished(w, o);
    FinishedKeepsInstance(w, o);
    FinishedSequence(w, o);
    FinishedNetwork(w, o);
    forall q | q in w'.strays && q.seqNo == w'.client.nextSeq ensures BatchFits(w'.answers, q.op) {
      if q in w.strays {
        assert CopyInv(w, q);
      } else {
        BuildableFits(w.client, w.answers, q.op);
      }
    }
  }

  lemma ServedKeepsFit(w: World, q: Request, v: Verdict)
    requires Inv(w) && FitsInv(w) && q.seqNo <= w.client.nextSeq && SameEpoch(w)
    requires q.seqNo == w.client.nextSeq ==> BatchFits(w.answers, q.op)
    ensures FitsInv(Served(w, q, v))
  {
    var w' := Served(w, q, v);
    if Admits(w.server, q, v) {
      assert w.executed == w.answers;
      forall i | 0 <= i < |w'.executed| ensures BatchFits(w'.executed[..i], w'.executed[i].request.op) {
        assert w'.executed[..i] == w.executed[..i];
      }
    }
  }

  lemma StepKeepsFit(w: World, s: Step)
    requires Inv(w) && Enabled(w, s) && FitsInv(w)
    ensures FitsInv(Apply(w, s))
  {
    if CallEnd(w, s).Some? {
      StepEndsCall(w, s);
      FinishedKeepsFit(AtCallEnd(w, s), CallEnd(w, s).value);
    } else {
      StepLeavesCall(w, s);
      match s
      case ServerReads(v) =>
        BuildableFits(w.client, w.answers, w.control.request.op);
        ServedKeepsFit(w, w.stream.value.up[0], v);
      case StrayArrives(q, v) => ServedKeepsFit(w, q, v);
      case DropStream =>
        if w.stream.value.up != [] {
          BuildableFits(w.client, w.answers, w.control.request.op);
        }
      case _ =>
    }
  }

  lemma {:induction false} RunKeepsFit(ws: seq<World>, steps: seq<Step>, k: nat)
    requires Run(ws, steps) && k < |ws|
    ensures FitsInv(ws[k])
  {
    if k > 0 {
      RunKeepsFit(ws, steps, k - 1);
      RunKeepsInv(ws, steps, k - 1);
      StepKeepsFit(ws[k - 1], steps[k - 1]);
    }
  }

  /** In every run, whatever copies arrive late, each batch that is executed names the instance
      started last before it and is no longer than the limit that start announced. */
  lemma ExecutedBatchesWithinLimit(ws: seq<World>, steps: seq<Step>, k: nat, i: nat)
    requires Run(ws, steps) && k < |ws| && i < |ws[k].executed|
    ensures BatchFits(ws[k].executed[..i], ws[k].executed[i].request.op)
  {
    RunKeepsFit(ws, steps, k);
  }

  lemma LastStartIsUnique(answers: seq<Exchange>, i: nat, j: nat, instance: string, limit: Option<nat>, other: string,
                          otherLimit: Option<nat>)
    requires StartedAt(answers, i, instance, limit) && StartedAt(answers, j, other, otherLimit)
    ensures i == j && instance == other && limit == otherLimit
  {
  }

  /** A batch over the limit is refused locally, before anything is sent. */
  lemma OverLimitIsRefused(c: ClientState, answers: seq<Exchange>, i: nat, instance: string, limit: nat,
                           items: seq<EmulateItem>)
    requires ActiveInstance(c, answers) && StartedAt(answers, i, instance, Some(limit)) && |items| > limit
    ensures !CanBuild(c, EmulateActions(instance, items))
  {
    if c.instance.Some? {
      var j: nat :| StartedAt(answers, j, c.instance.value, c.batchLimit);
      LastStartIsUnique(answers, i, j, instance, Some(limit), c.instance.value, c.batchLimit);
    }
  }
}
