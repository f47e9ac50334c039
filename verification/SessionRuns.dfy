/** Concrete runs of client, stream and server: a deferred release loses its request, a refused final
    release leaves its branch, and the audit takes a second selection for a recovery. */
module SessionRuns {
  import opened Wrappers
  import opened WireContract
  import opened SelectionAudit
  import opened SessionClient
  import opened SessionWorld

  ghost predicate Reachable(w: World) {
    exists ws, steps :: Run(ws, steps) && ws[|ws| - 1] == w
  }

  lemma ReachableStarts(w: World)
    requires InitialWorld(w)
    ensures Reachable(w)
  {
    assert Run([w], []) && [w][|[w]| - 1] == w;
  }

  lemma ReachableGoesOn(w: World, s: Step)
    requires Reachable(w) && Enabled(w, s)
    ensures Reachable(Apply(w, s))
  {
    var ws, steps :| Run(ws, steps) && ws[|ws| - 1] == w;
    var longer, more := ws + [Apply(w, s)], steps + [s];
    forall i | 0 <= i < |more| ensures Enabled(longer[i], more[i]) && longer[i + 1] == Apply(longer[i], more[i]) {
      if i < |steps| {
        assert more[i] == steps[i] && longer[i] == ws[i] && longer[i + 1] == ws[i + 1];
      } else {
        assert longer[i] == w && more[i] == s;
      }
    }
    assert Run(longer, more) && longer[|longer| - 1] == Apply(w, s);
  }

  lemma ReachableIsSound(w: World)
    requires Reachable(w)
    ensures Inv(w)
  {
    var ws, steps :| Run(ws, steps) && ws[|ws| - 1] == w;
    RunKeepsInv(ws, steps, |ws| - 1);
  }

  // ----- steps on a quiet stream ---------------------------------------------------------

  /** A reachable world with a quiet stream, or none, to the server the client first saw. */
  ghost predicate At(w: World, c: ClientState, control: Control, connected: bool, last: nat) {
    && Reachable(w) && w.client == c && w.control == control
    && w.expected == Some(0) && w.server.epoch == 0 && w.server.last == last
    && w.stream == if connected then Some(Stream(0, [], [])) else None
  }

  lemma Begins(w: World, c: ClientState, connected: bool, last: nat, op: Operation) returns (w': World)
    requires At(w, c, Idle, connected, last) && Usable(c) && CanBuild(c, op)
    ensures At(w', c, Busy(NextRequest(c, op), Fresh, false), connected, last) && w'.executed == w.executed
  {
    ReachableGoesOn(w, BeginFresh(op));
    w' := Apply(w, BeginFresh(op));
  }

  lemma GivesUp(w: World, c: ClientState, q: Request, connected: bool, last: nat) returns (w': World)
    requires At(w, c, Busy(q, Fresh, false), connected, last)
    ensures At(w', AfterFresh(c, q, NotSent), Idle, connected, last)
  {
    ReachableGoesOn(w, GiveUpUnsent);
    w' := Apply(w, GiveUpUnsent);
  }

  lemma Loses(w: World, c: ClientState, q: Request, kind: CallKind, last: nat) returns (w': World)
    requires At(w, c, Busy(q, kind, false), true, last) && !kind.Replay?
    ensures At(w', if kind.Fresh? then AfterFresh(c, q, AnswerLost) else AfterCleanup(c, q, AnswerLost), Idle,
               false, last)
  {
    ReachableGoesOn(w, SendIntoBrokenStream);
    w' := Apply(w, SendIntoBrokenStream);
  }

  lemma Replays(w: World, c: ClientState, last: nat) returns (w': World)
    requires At(w, c, Idle, false, last) && !c.invalid && c.pending.Some?
    ensures At(w', c, Busy(c.pending.value, Replay, false), true, last)
  {
    ReachableGoesOn(w, BeginReplay);
    var begun := Apply(w, BeginReplay);
    ReachableGoesOn(begun, Hello);
    w' := Apply(begun, Hello);
  }

  lemma Defers(w: World, c: ClientState, last: nat, ids: seq<BranchId>) returns (w': World)
    requires At(w, c, Idle, false, last) && c.pending.Some? && Deferred(c, c.pending.value, "i", ids).Success?
    ensures At(w', Deferred(c, c.pending.value, "i", ids).value, Idle, false, last)
  {
    ReachableGoesOn(w, Defer("i", ids));
    w' := Apply(w, Defer("i", ids));
  }

  /** The server has executed the request, and its answer is the next thing the client reads. */
  ghost predicate Answering(w: World, c: ClientState, q: Request, kind: CallKind, last: nat, r: Response) {
    && Reachable(w) && w.client == c && w.control == Busy(q, kind, true)
    && w.expected == Some(0) && w.server.epoch == 0 && w.server.last == last
    && w.stream == Some(Stream(0, [], [ApiReply(r)]))
  }

  lemma Sends(w: World, c: ClientState, q: Request, kind: CallKind, last: nat) returns (w': World)
    requires At(w, c, Busy(q, kind, false), true, last)
    ensures Reachable(w') && w'.client == c && w'.control == Busy(q, kind, true)
    ensures w'.expected == Some(0) && w'.server == w.server && w'.stream == Some(Stream(0, [q], []))
    ensures w'.executed == w.executed
  {
    ReachableGoesOn(w, Send);
    w' := Apply(w, Send);
    assert [] + [q] == [q];
  }

  lemma Executes(w: World, c: ClientState, q: Request, kind: CallKind, r: Response) returns (w': World)
    requires Reachable(w) && w.client == c && w.control == Busy(q, kind, true) && w.server.epoch == 0
    requires w.expected == Some(0) && w.stream == Some(Stream(0, [q], []))
    requires q.seqNo == w.server.last + 1 && !NonConsuming(r)
    ensures Answering(w', c, q, kind, q.seqNo, r) && w'.executed == w.executed + [Exchange(q, r)]
  {
    ReachableGoesOn(w, ServerReads(Execute(r)));
    w' := Apply(w, ServerReads(Execute(r)));
    assert [q][1..] == [] && [] + [ApiReply(r)] == [ApiReply(r)];
  }

  lemma Answers(w: World, c: ClientState, q: Request, kind: CallKind, last: nat, r: Response) returns (w': World)
    requires At(w, c, Busy(q, kind, false), true, last) && q.seqNo == last + 1 && !NonConsuming(r)
    ensures Answering(w', c, q, kind, q.seqNo, r) && w'.executed == w.executed + [Exchange(q, r)]
  {
    w' := Sends(w, c, q, kind, last);
    w' := Executes(w', c, q, kind, r);
  }

  /** What the client is left with when the answer to its replay arrives. */
  lemma EndsReplay(w: World, c: ClientState, q: Request, last: nat, r: Response) returns (w': World)
    requires Answering(w, c, q, Replay, last, r) && r.Completed?
    requires ReplayResolved(AfterReplay(c, q, Answered(r)), q.op)
    requires OwesCleanup(AfterReplay(c, q, Answered(r)), q, false)
    ensures var d := AfterReplay(c, q, Answered(r));
      At(w', CleanupClaimed(d, q, false), Busy(CleanupRequest(d, q, false), DeferredRelease, false), true, last)
  {
    ReachableGoesOn(w, Receive);
    w' := Apply(w, Receive);
    assert [ApiReply(r)][1..] == [];
  }

  lemma EndsFresh(w: World, c: ClientState, q: Request, last: nat, r: Response) returns (w': World)
    requires Answering(w, c, q, Fresh, last, r) && !r.Malformed?
    ensures At(w', AfterFresh(c, q, Answered(r)), Idle, true, last) && w'.executed == w.executed
  {
    ReachableGoesOn(w, Receive);
    w' := Apply(w, Receive);
    assert [ApiReply(r)][1..] == [];
  }

  // ----- the states of the client --------------------------------------------------------

  const ITEM := EmulateItem(ROOT_BRANCH_ID, "b1", 1, "d", "a")
  const DONE := Completed("i", Some(2), map[])

  function StartedClient(session: string): ClientState {
    InitialState(session).(nextSeq := 2, instance := Some("i"), batchLimit := Some(2))
  }

  function LostRequest(session: string): Request {
    Request(session, 2, EmulateAction("i", ITEM))
  }

  function ReleaseRequest(session: string): Request {
    Request(session, 3, ReleaseBranches("i", ["b1"]))
  }

  function LostClient(session: string): ClientState {
    StartedClient(session).(pending := Some(LostRequest(session)),
                            audit := Recorded(EMPTY_AUDIT, "b1", LostRequest(session)))
  }

  function DeferredClient(session: string): ClientState {
    LostClient(session).(cleanup := Some(CleanupRecord(LostRequest(session), "i", ["b1"])))
  }

  function ReleasingClient(session: string): ClientState {
    var audit := Recorded(LostClient(session).audit, "b1", LostRequest(session));
    ClientState(session, 3, Some(ReleaseRequest(session)), false,
                Some(CleanupRecord(ReleaseRequest(session), "i", ["b1"])), Some("i"), Some(2), audit)
  }

  lemma RecordedOne(a: AuditState, b: BranchId, q: Request)
    ensures RecordedAll(a, [b], q) == Recorded(a, b, q)
  {
    assert [b][1..] == [];
    assert RecordedAll(Recorded(a, b, q), [], q) == Recorded(a, b, q);
  }

  lemma LosingClient(session: string)
    ensures AfterFresh(StartedClient(session), LostRequest(session), AnswerLost) == LostClient(session)
  {
    RecordedOne(EMPTY_AUDIT, "b1", LostRequest(session));
  }

  lemma DeferringClient(session: string)
    ensures var c := LostClient(session);
      Deferred(c, LostRequest(session), "i", ["b1"]) == Success(DeferredClient(session))
  {
    assert ["b1"][..0] == [];
    assert Deduplicated([]) == [] && Deduplicated(["b1"]) == ["b1"];
    assert CreatedBranches(LostRequest(session).op) == {"b1"};
    assert "b1" in CreatedBranches(LostRequest(session).op);
  }

  lemma ReplayingClient(session: string)
    ensures var c, q := DeferredClient(session), LostRequest(session);
      var d := AfterReplay(c, q, Answered(DONE));
      && ReplayResolved(d, q.op) && OwesCleanup(d, q, false)
      && CleanupClaimed(d, q, false) == ReleasingClient(session)
      && CleanupRequest(d, q, false) == ReleaseRequest(session)
  {
    RecordedOne(LostClient(session).audit, "b1", LostRequest(session));
  }

  // ----- a refused release ---------------------------------------------------------------

  /** Connected, with an instance started. */
  lemma Started(session: string) returns (w: World)
    ensures At(w, StartedClient(session), Idle, true, 1)
    ensures w.executed == [Exchange(NextRequest(InitialState(session), StartInstance("config")), DONE)]
  {
    w := World(InitialState(session), Idle, None, None, {}, Server(0, 0, None), [], []);
    ReachableStarts(w);
    ReachableGoesOn(w, Hello);
    w := Apply(w, Hello);
    var c, op := InitialState(session), StartInstance("config");
    w := Begins(w, c, true, 0, op);
    w := Answers(w, c, NextRequest(c, op), Fresh, 0, DONE);
    w := EndsFresh(w, c, NextRequest(c, op), 1, DONE);
  }

  /** An emulate request was lost, its branch deferred, and its replay is answered: the release is
      sent and lost as well. */
  lemma ReleaseLost(session: string) returns (w: World)
    ensures At(w, ReleasingClient(session), Idle, false, 2)
  {
    var p, q := LostRequest(session), ReleaseRequest(session);
    w := Started(session);
    w := Begins(w, StartedClient(session), true, 1, p.op);
    w := Loses(w, StartedClient(session), p, Fresh, 1);
    LosingClient(session);
    DeferringClient(session);
    w := Defers(w, LostClient(session), 1, ["b1"]);
    w := Replays(w, DeferredClient(session), 1);
    w := Answers(w, DeferredClient(session), p, Replay, 1, DONE);
    ReplayingClient(session);
    w := EndsReplay(w, DeferredClient(session), p, 2, DONE);
    w := Loses(w, ReleasingClient(session), q, DeferredRelease, 2);
  }

  /** A run in which the deferred release is replayed and refused: the record stays, and its
      request is gone. */
  lemma RefusedReleaseReached(session: string) returns (w: World)
    ensures Reachable(w) && Enabled(w, Receive) && DetachesCleanup(w, Receive)
    ensures CleanupAnchored(w.client) && w.client.pending == Some(ReleaseRequest(session))
    ensures !CleanupAnchored(Apply(w, Receive).client)
  {
    w := ReleaseLost(session);
    w := Replays(w, ReleasingClient(session), 2);
    w := Answers(w, ReleasingClient(session), ReleaseRequest(session), Replay, 2, Rejected(OtherFault));
    ReachableIsSound(w);
    StepKeepsAnchor(w, Receive);
  }

  // ----- a final release that fails ------------------------------------------------------

  function EvaluatedClient(session: string): ClientState {
    var c := StartedClient(session);
    AfterFresh(c, NextRequest(c, EmulateActions("i", [ITEM])), Answered(DONE))
  }

  lemma EvaluatedIsUsable(session: string)
    ensures var c := EvaluatedClient(session);
      && Usable(c) && c.cleanup.None? && c.nextSeq == 3 && CanBuild(c, ReleaseBranches("i", ["b1"]))
  {
  }

  lemma RefusedClient(session: string)
    ensures var c := EvaluatedClient(session);
      var d := AfterFresh(c, NextRequest(c, ReleaseBranches("i", ["b1"])), Answered(Rejected(OtherFault)));
      Usable(d) && d.cleanup.None?
  {
    EvaluatedIsUsable(session);
  }

  lemma StillExisting(start: Exchange, emulate: Exchange, release: Exchange)
    requires emulate.request.op == EmulateActions("i", [ITEM]) && emulate.response.Completed?
    requires release.request.op.ReleaseBranches? && release.response.Rejected?
    ensures "b1" in Existing([start, emulate, release])
  {
    var history := [start, emulate, release];
    assert history[..3] == history && history[..2] == [start, emulate];
    ExistingStepwise(history, 3);
    ExistingStepwise(history, 2);
    assert [ITEM][0].branch in CreatedBranches(emulate.request.op);
  }

  /** The evaluation's request was answered. */
  lemma Evaluated(session: string) returns (w: World, start: Exchange, emulate: Exchange)
    ensures At(w, EvaluatedClient(session), Idle, true, 2) && w.executed == [start, emulate]
    ensures emulate.request.op == EmulateActions("i", [ITEM]) && emulate.response == DONE
  {
    var c, op := StartedClient(session), EmulateActions("i", [ITEM]);
    w := Started(session);
    start, emulate := w.executed[0], Exchange(NextRequest(c, op), DONE);
    w := Begins(w, c, true, 1, op);
    w := Answers(w, c, NextRequest(c, op), Fresh, 1, DONE);
    w := EndsFresh(w, c, NextRequest(c, op), 2, DONE);
  }

  /** A run in which an evaluation's branch is created and its final release is refused: the session
      goes on with nothing pending and nothing deferred, and the branch is still on the server. */
  lemma FinalReleaseRefused(session: string) returns (w: World)
    ensures Reachable(w) && w.control.Idle? && Usable(w.client) && w.client.cleanup.None?
    ensures "b1" in Existing(w.executed)
  {
    var start, emulate;
    w, start, emulate := Evaluated(session);
    EvaluatedIsUsable(session);
    w := Refused(w, EvaluatedClient(session), start, emulate);
    RefusedClient(session);
  }

  lemma Refused(w: World, d: ClientState, start: Exchange, emulate: Exchange) returns (w': World)
    requires At(w, d, Idle, true, 2) && Usable(d) && d.nextSeq == 3 && CanBuild(d, ReleaseBranches("i", ["b1"]))
    requires w.executed == [start, emulate] && emulate.response.Completed?
    requires emulate.request.op == EmulateActions("i", [ITEM])
    ensures var q := NextRequest(d, ReleaseBranches("i", ["b1"]));
      At(w', AfterFresh(d, q, Answered(Rejected(OtherFault))), Idle, true, 3)
    ensures "b1" in Existing(w'.executed)
  {
    var op := ReleaseBranches("i", ["b1"]);
    var release := Exchange(NextRequest(d, op), Rejected(OtherFault));
    w' := Begins(w, d, true, 2, op);
    w' := Answers(w', d, NextRequest(d, op), Fresh, 2, Rejected(OtherFault));
    w' := EndsFresh(w', d, NextRequest(d, op), 3, Rejected(OtherFault));
    StillExisting(start, emulate, release);
    assert w'.executed == [start, emulate, release];
  }

  // ----- a selection taken for a recovery ------------------------------------------------

  /** A commit that is never sent, then another commit: the second is logged as a recovery of the
      first, although it is a different action. */
  lemma OtherActionLoggedAsRecovery(session: string) returns (w: World)
    ensures Reachable(w) && |w.client.audit.events| == 2
    ensures var first, second := w.client.audit.events[0], w.client.audit.events[1];
      !first.recovery && second.recovery && SameSelection(first, second) && first.request.op != second.request.op
  {
    var c := StartedClient(session);
    var first, second := CommitAction("i", "d", "attack"), CommitAction("i", "d", "defend");
    var p, q := NextRequest(c, first), NextRequest(c, second);
    w := Started(session);
    w := Begins(w, c, true, 1, first);
    w := GivesUp(w, c, p, true, 1);
    RecordedOne(EMPTY_AUDIT, ROOT_BRANCH_ID, p);
    var d := c.(audit := Recorded(EMPTY_AUDIT, ROOT_BRANCH_ID, p));
    w := Begins(w, d, true, 1, second);
    w := GivesUp(w, d, q, true, 1);
    RecordedOne(d.audit, ROOT_BRANCH_ID, q);
  }
}
