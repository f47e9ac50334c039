/** Client, reconnectable stream and server as one machine; the theorems hold in every state of every run. */
module SessionWorld {
  import opened Wrappers
  import opened WireContract
  import opened SelectionAudit
  import opened SessionClient

  datatype CallKind = Fresh | Replay | DeferredRelease

  /** The single call in flight, and whether its bytes may have left the process. */
  datatype Control = Idle | Busy(request: Request, kind: CallKind, sent: bool)

  datatype Reply = ApiReply(response: Response) | TransportErrorFrame

  /** A connected stream: requests on their way to the server, replies on their way back. */
  datatype Stream = Stream(epoch: nat, up: seq<Request>, down: seq<Reply>)

  datatype Exchange = Exchange(request: Request, response: Response)

  /** One server process, as this session sees it: the last admitted sequence and the cached
      exchange it replays. */
  datatype Server = Server(epoch: nat, last: nat, cached: Option<Exchange>)

  /** `strays` are requests left on streams the client has abandoned; the network may deliver
      each of them late, any number of times. `executed` and `answers` are history: what any
      server process executed, and what the client consumed. */
  datatype World = World(
    client: ClientState,
    control: Control,
    expected: Option<nat>,
    stream: Option<Stream>,
    strays: set<Request>,
    server: Server,
    executed: seq<Exchange>,
    answers: seq<Exchange>)

  /** What the server decides for a request that is next in turn. */
  datatype Verdict = Execute(response: Response) | Decline(kind: FaultKind)

  datatype Step =
    | BeginFresh(op: Operation)
    | BeginReplay
    | Defer(instance: string, branches: seq<BranchId>)
    | Hello
    | GiveUpUnsent
    | Send
    | SendIntoBrokenStream
    | Receive
    | LoseAnswer
    | DropStream
    | ServerReads(verdict: Verdict)
    | ServerRefusesFrame
    | StrayArrives(stray: Request, verdict: Verdict)
    | Restart

  predicate InitialWorld(w: World) {
    && w.client == InitialState(w.client.session)
    && w.control.Idle? && w.expected.None? && w.stream.None? && w.strays == {}
    && w.server.last == 0 && w.server.cached.None?
    && w.executed == [] && w.answers == []
  }

  // ----- the server --------------------------------------------------------------------

  /** The admission rule the client relies on: the next sequence is executed or declined
      without being admitted, the exact last request is answered from the cache, and
      everything else is refused. */
  function ServerReply(s: Server, q: Request, v: Verdict): Response {
    if q.seqNo == s.last + 1 then
      (match v case Execute(r) => r case Decline(k) => Rejected(k))
    else if s.cached.Some? && s.cached.value.request == q then s.cached.value.response
    else if q.seqNo <= s.last then Rejected(SequenceConflict)
    else Rejected(SequenceGap)
  }

  predicate Admits(s: Server, q: Request, v: Verdict) {
    q.seqNo == s.last + 1 && v.Execute?
  }

  predicate PossibleVerdict(v: Verdict) {
    match v
    case Execute(r) => !NonConsuming(r)
    case Decline(k) => k.InvalidRequest? || k.CapacityExceeded?
  }

  function Served(w: World, q: Request, v: Verdict): World {
    if Admits(w.server, q, v) then
      var e := Exchange(q, v.response);
      w.(server := w.server.(last := q.seqNo, cached := Some(e)), executed := w.executed + [e])
    else w
  }

  // ----- the client's side -------------------------------------------------------------

  function Disconnected(w: World): World {
    match w.stream
    case None => w
    case Some(s) => w.(stream := None, strays := w.strays + set q | q in s.up)
  }

  /** Outcomes after which the connection is torn down. */
  predicate TearsDown(o: Outcome) {
    o.AnswerLost? || o.TransportRefused? || o.EpochChanged? || (o.Answered? && o.response.Malformed?)
  }

  /** The call in flight ends in `o`: the client's state moves, the exchange is recorded if it
      consumed its sequence, and a resolved replay goes on to its deferred release. */
  function Finished(w: World, o: Outcome): World
    requires w.control.Busy?
  {
    var r := w.control.request;
    var net := if TearsDown(o) then Disconnected(w) else w;
    var heard := if Consumes(o) then net.(answers := w.answers + [Exchange(r, o.response)]) else net;
    match w.control.kind
    case Fresh => heard.(client := AfterFresh(w.client, r, o), control := Idle)
    case DeferredRelease => heard.(client := AfterCleanup(w.client, r, o), control := Idle)
    case Replay =>
      var d := AfterReplay(w.client, r, o);
      if !ReplayResolved(d, r.op) then heard.(client := d, control := Idle)
      else
        heard.(client := CleanupClaimed(d, r, WasRejected(o)),
               control := if OwesCleanup(d, r, WasRejected(o))
                          then Busy(CleanupRequest(d, r, WasRejected(o)), DeferredRelease, false)
                          else Idle)
  }

  ghost predicate Enabled(w: World, s: Step) {
    match s
    case BeginFresh(op) => w.control.Idle? && Usable(w.client) && CanBuild(w.client, op)
    case BeginReplay => w.control.Idle? && !w.client.invalid && w.client.pending.Some?
    case Defer(instance, ids) =>
      w.client.pending.Some? && Deferred(w.client, w.client.pending.value, instance, ids).Success?
    case Hello => w.stream.None? && (w.control.Busy? ==> !w.control.sent)
                  && (w.control.Idle? ==> w.expected.None? || w.expected == Some(w.server.epoch))
    case GiveUpUnsent => w.control.Busy? && !w.control.sent
    case Send => w.control.Busy? && !w.control.sent && w.stream.Some?
    case SendIntoBrokenStream => w.control.Busy? && !w.control.sent
    case Receive => w.control.Busy? && w.control.sent && w.stream.Some? && w.stream.value.down != []
    case LoseAnswer => w.control.Busy? && w.control.sent
    case DropStream => w.stream.Some?
    case ServerReads(v) => w.stream.Some? && w.stream.value.up != [] && PossibleVerdict(v)
    case ServerRefusesFrame => w.stream.Some? && w.stream.value.up != []
    case StrayArrives(q, v) => q in w.strays && PossibleVerdict(v)
    case Restart => true
  }

  ghost function Apply(w: World, s: Step): World
    requires Enabled(w, s)
  {
    match s
    case BeginFresh(op) => w.(control := Busy(NextRequest(w.client, op), Fresh, false))
    case BeginReplay => w.(control := Busy(w.client.pending.value, Replay, false))
    case Defer(instance, ids) =>
      w.(client := Deferred(w.client, w.client.pending.value, instance, ids).value)
    case Hello =>
      if w.expected.None? || w.expected == Some(w.server.epoch)
      then w.(expected := Some(w.server.epoch), stream := Some(Stream(w.server.epoch, [], [])))
      else Finished(w, EpochChanged)
    case GiveUpUnsent => Finished(w, NotSent)
    case Send =>
      w.(control := w.control.(sent := true),
         stream := Some(w.stream.value.(up := w.stream.value.up + [w.control.request])))
    case SendIntoBrokenStream => Finished(w, AnswerLost)
    case Receive =>
      var s := w.stream.value;
      var rest := w.(stream := Some(s.(down := s.down[1..])));
      (match s.down[0]
       case ApiReply(r) => Finished(rest, Answered(r))
       case TransportErrorFrame => Finished(rest, TransportRefused))
    case LoseAnswer => Finished(w, AnswerLost)
    case DropStream => Disconnected(w)
    case ServerReads(v) =>
      var s := w.stream.value;
      Served(w, s.up[0], v).(stream := Some(
        s.(up := s.up[1..], down := s.down + [ApiReply(ServerReply(w.server, s.up[0], v))])))
    case ServerRefusesFrame =>
      var s := w.stream.value;
      w.(stream := Some(s.(up := s.up[1..], down := s.down + [TransportErrorFrame])))
    case StrayArrives(q, v) => Served(w, q, v)
    case Restart =>
      w.(server := Server(w.server.epoch + 1, 0, None), stream := None, strays := {})
  }

  // ----- the invariant -----------------------------------------------------------------

  /** The request the client holds for the sequence in turn: the one in flight, else the
      pending retry. */
  function Held(w: World): Option<Request> {
    if w.control.Busy? then Some(w.control.request) else w.client.pending
  }

  /** The only copy of the request in flight is still unread on the stream, or was turned
      away unread. */
  predicate Unread(w: World) {
    w.stream.Some? && (w.stream.value.up != []
                       || (w.stream.value.down != [] && w.stream.value.down[0].TransportErrorFrame?))
  }

  /** A server may have seen the request held for the sequence in turn. */
  predicate MayHaveReached(w: World) {
    w.client.pending.Some? || (w.control.Busy? && w.control.sent && !Unread(w))
  }

  ghost predicate ControlInv(w: World) {
    w.control.Busy? ==>
      && Executable(w.client, w.control.request)
      && (w.control.kind.Fresh? <==> w.client.pending.None?)
      && (w.control.kind.DeferredRelease? ==>
            CleanupAnchored(w.client) && w.control.request.op.ReleaseBranches?)
  }

  /** The server this client talks to is the one it first saw. */
  predicate SameEpoch(w: World) {
    w.expected == Some(w.server.epoch)
  }

  /** What the client consumed is what was executed, in order; at most one more execution
      exists, and it is the request the client still holds for the sequence in turn. */
  ghost predicate HistoryInv(w: World) {
    && |w.answers| + 1 == w.client.nextSeq
    && w.answers <= w.executed
    && |w.executed| <= |w.answers| + 1
    && (forall i :: 0 <= i < |w.executed| ==>
          w.executed[i].request.seqNo == i + 1 && w.executed[i].request.session == w.client.session
          && !NonConsuming(w.executed[i].response))
    && (|w.executed| == |w.answers| + 1 && !w.client.invalid ==>
          MayHaveReached(w) && Held(w) == Some(w.executed[|w.answers|].request))
  }

  ghost predicate ServerInv(w: World) {
    && (SameEpoch(w) ==> w.server.last == |w.executed|)
    && (SameEpoch(w) && w.executed != [] ==> w.server.cached == Some(w.executed[|w.executed| - 1]))
    && (w.server.last == 0 ==> w.server.cached.None?)
    && (w.expected.None? ==>
          w.executed == [] && w.stream.None? && w.server.last == 0)
    && (w.expected.Some? ==> w.expected.value <= w.server.epoch)
    && (w.stream.Some? ==> SameEpoch(w) && w.stream.value.epoch == w.server.epoch)
    && (w.strays != {} ==> SameEpoch(w))
  }

  /** Copies under way never carry a second payload for the sequence in turn. */
  ghost predicate CopyInv(w: World, q: Request) {
    && q.session == w.client.session && 0 < q.seqNo <= w.client.nextSeq
    && (q.seqNo == w.client.nextSeq && !w.client.invalid ==> MayHaveReached(w) && Held(w) == Some(q))
  }

  /** The stream stays in step: nothing is under way outside an exchange, and during one
      exactly the request or its own reply. */
  ghost predicate StreamInv(w: World) {
    w.stream.Some? ==>
      var s := w.stream.value;
      if w.control.Busy? && w.control.sent then
        (s.up == [w.control.request] && s.down == [])
        || (s.up == [] && |s.down| == 1 && ReplyInv(w, s.down[0]))
      else s.up == [] && s.down == []
  }

  /** The reply to the request in flight: the execution of that very request, or a refusal
      that admitted nothing. */
  ghost predicate ReplyInv(w: World, reply: Reply) {
    reply.ApiReply? && w.control.Busy? && !w.client.invalid ==>
      var r := reply.response;
      if NonConsuming(r) then r.kind.InvalidRequest? || r.kind.CapacityExceeded?
      else |w.executed| == |w.answers| + 1
           && w.executed[|w.answers|] == Exchange(w.control.request, r)
  }

  ghost predicate Inv(w: World) {
    && ClientInv(w.client)
    && ControlInv(w)
    && HistoryInv(w)
    && ServerInv(w)
    && (forall q :: q in w.strays ==> CopyInv(w, q))
    && StreamInv(w)
  }

  /** No copy of a request for the sequence in turn exists outside the client. */
  ghost predicate Untouched(w: World) {
    |w.executed| == |w.answers| && forall q :: q in w.strays ==> q.seqNo < w.client.nextSeq
  }

  /** The outcomes the world can produce for the call in flight. */
  ghost predicate PossibleOutcome(w: World, o: Outcome) {
    && w.control.Busy?
    && (w.control.kind.Fresh? && (o.NotSent? || o.TransportRefused?) ==> Untouched(w))
    && (o.Answered? ==> ReplyInv(w, ApiReply(o.response)))
    && (w.stream.Some? && !o.AnswerLost? ==> w.stream.value.up == [] && w.stream.value.down == [])
    && (w.stream.Some? && w.stream.value.up != [] ==> w.stream.value.up == [w.control.request])
  }

  ghost predicate QuietInv(w: World) {
    && ClientInv(w.client) && ControlInv(w) && HistoryInv(w) && ServerInv(w)
    && (forall q :: q in w.strays ==> CopyInv(w, q))
  }

  lemma FinishedClient(w: World, o: Outcome)
    requires QuietInv(w) && PossibleOutcome(w, o)
    ensures ClientInv(Finished(w, o).client) && ControlInv(Finished(w, o))
  {
    var r := w.control.request;
    if w.control.kind.DeferredRelease? {
      CleanupExchangeKeepsInv(w.client, r, o);
    } else {
      CallKeepsInv(w.client, r, o);
      if w.control.kind.Replay? && ReplayResolved(AfterReplay(w.client, r, o), r.op) {
        ResolvedReplayInstance(w.client, r, o);
        CleanupClaimKeepsInv(AfterReplay(w.client, r, o), r, WasRejected(o));
      }
    }
  }

  /** What the end of a call does to sequence, pending retry and session, in one place. */
  lemma FinishedSequence(w: World, o: Outcome)
    requires QuietInv(w) && PossibleOutcome(w, o)
    ensures Sequenced(w.client, Finished(w, o).client, w.control.request, o)
      || (Consumes(o) && Finished(w, o).control.Busy?)
    ensures Finished(w, o).client.session == w.client.session
    ensures Finished(w, o).client.nextSeq == w.client.nextSeq + (if Consumes(o) then 1 else 0)
    ensures Finished(w, o).control.Busy? ==> Consumes(o) && !Finished(w, o).control.sent
  {
    CallSequence(w.client, w.control.request, o);
  }

  /** The part of the world a finished call changes besides the client. */
  lemma FinishedNetwork(w: World, o: Outcome)
    requires w.control.Busy?
    requires w.stream.Some? && !o.AnswerLost? ==> w.stream.value.up == [] && w.stream.value.down == []
    ensures var w' := Finished(w, o);
      && w'.server == w.server && w'.executed == w.executed && w'.expected == w.expected
      && (w'.stream.Some? ==> w'.stream == w.stream && w.stream.value.up == [] && w.stream.value.down == [])
      && (forall q :: q in w'.strays ==> q in w.strays || (w.stream.Some? && q in w.stream.value.up))
      && w'.answers == (if Consumes(o) then w.answers + [Exchange(w.control.request, o.response)] else w.answers)
  {
  }

  lemma FinishedKeepsInv(w: World, o: Outcome)
    requires QuietInv(w) && PossibleOutcome(w, o)
    ensures Inv(Finished(w, o))
  {
    var w' := Finished(w, o);
    FinishedClient(w, o);
    FinishedSequence(w, o);
    FinishedNetwork(w, o);
    FinishedHistory(w, w', o);
    forall q | q in w'.strays ensures CopyInv(w', q) {
      assert q in w.strays || q == w.control.request;
    }
  }

  lemma FinishedHistory(w: World, w': World, o: Outcome)
    requires QuietInv(w) && PossibleOutcome(w, o)
    requires w'.executed == w.executed && w'.client.session == w.client.session
    requires w'.answers == (if Consumes(o) then w.answers + [Exchange(w.control.request, o.response)] else w.answers)
    requires w'.client.nextSeq == w.client.nextSeq + (if Consumes(o) then 1 else 0)
    requires Sequenced(w.client, w'.client, w.control.request, o) || (Consumes(o) && w'.control.Busy?)
    requires w'.control.Busy? ==> Consumes(o)
    ensures HistoryInv(w')
  {
    if Consumes(o) {
      assert w.executed == w.executed[..|w.answers|] + [w.executed[|w.answers|]];
      assert w'.answers == w.executed;
    }
  }

  lemma ServedKeepsInv(w: World, q: Request, v: Verdict)
    requires Inv(w) && PossibleVerdict(v) && CopyInv(w, q) && SameEpoch(w)
    requires q.seqNo == w.client.nextSeq && !w.client.invalid ==> MayHaveReached(w) && Held(w) == Some(q)
    ensures Inv(Served(w, q, v))
  {
    var w' := Served(w, q, v);
    if Admits(w.server, q, v) {
      forall i | 0 <= i < |w'.executed|
        ensures w'.executed[i].request.seqNo == i + 1 && w'.executed[i].request.session == w.client.session
          && !NonConsuming(w'.executed[i].response)
      {
      }
      assert |w.executed| == |w.answers|;
      assert w.answers <= w'.executed;
      assert MayHaveReached(w') == MayHaveReached(w);
    }
  }

  // ----- one step ----------------------------------------------------------------------

  /** The outcome in which a step ends the call in flight, if it does. */
  ghost function CallEnd(w: World, s: Step): Option<Outcome>
    requires Enabled(w, s)
  {
    match s
    case Hello =>
      if w.expected.Some? && w.expected != Some(w.server.epoch) then Some(EpochChanged) else None
    case GiveUpUnsent => Some(NotSent)
    case SendIntoBrokenStream => Some(AnswerLost)
    case Receive =>
      (match w.stream.value.down[0]
       case ApiReply(r) => Some(Answered(r))
       case TransportErrorFrame => Some(TransportRefused))
    case LoseAnswer => Some(AnswerLost)
    case _ => None
  }

  /** The world as the ending call finds it: a received reply has left the stream. */
  ghost function AtCallEnd(w: World, s: Step): World
    requires Enabled(w, s)
  {
    if s.Receive? then w.(stream := Some(w.stream.value.(down := w.stream.value.down[1..]))) else w
  }

  lemma SameCopies(w: World, w': World)
    requires w'.strays <= w.strays && forall q :: q in w.strays ==> CopyInv(w, q)
    requires w'.client.session == w.client.session && w'.client.nextSeq == w.client.nextSeq
    requires w'.client.invalid == w.client.invalid
    requires MayHaveReached(w) && !w.client.invalid ==> MayHaveReached(w') && Held(w') == Held(w)
    ensures forall q :: q in w'.strays ==> CopyInv(w', q)
  {
    forall q | q in w'.strays ensures CopyInv(w', q) {
      assert CopyInv(w, q);
    }
  }

  lemma StepEndsCall(w: World, s: Step)
    requires Inv(w) && Enabled(w, s) && CallEnd(w, s).Some?
    ensures var base := AtCallEnd(w, s);
      && QuietInv(base) && PossibleOutcome(base, CallEnd(w, s).value)
      && Apply(w, s) == Finished(base, CallEnd(w, s).value)
      && base.client == w.client && base.answers == w.answers && base.control == w.control
  {
    SameCopies(w, AtCallEnd(w, s));
  }

  lemma StepLeavesCall(w: World, s: Step)
    requires Inv(w) && Enabled(w, s) && CallEnd(w, s).None?
    ensures Apply(w, s).answers == w.answers
    ensures if s.Defer?
      then Deferred(w.client, w.client.pending.value, s.instance, s.branches) == Success(Apply(w, s).client)
      else Apply(w, s).client == w.client
  {
  }

  /** Every step keeps the invariant. */
  lemma StepKeepsInv(w: World, s: Step)
    requires Inv(w) && Enabled(w, s)
    ensures Inv(Apply(w, s))
  {
    if CallEnd(w, s).Some? {
      StepEndsCall(w, s);
      FinishedKeepsInv(AtCallEnd(w, s), CallEnd(w, s).value);
    } else {
      match s
      case ServerReads(v) => ServerReadsKeepsInv(w, v);
      case StrayArrives(q, v) => ServedKeepsInv(w, q, v);
      case Restart =>
      case DropStream => DropStepKeepsInv(w);
      case Defer(_, _) => DeferStepKeepsInv(w, s);
      case _ => LocalStepKeepsInv(w, s);
    }
  }

  lemma LocalStepKeepsInv(w: World, s: Step)
    requires Inv(w) && Enabled(w, s) && CallEnd(w, s).None?
    requires s.BeginFresh? || s.BeginReplay? || s.Hello? || s.Send? || s.ServerRefusesFrame?
    ensures Inv(Apply(w, s))
  {
    SameCopies(w, Apply(w, s));
  }

  lemma DeferStepKeepsInv(w: World, s: Step)
    requires Inv(w) && Enabled(w, s) && s.Defer?
    ensures Inv(Apply(w, s))
  {
    DeferKeepsInv(w.client, w.client.pending.value, s.instance, s.branches);
    SameCopies(w, Apply(w, s));
  }

  lemma DropStepKeepsInv(w: World)
    requires Inv(w) && Enabled(w, DropStream)
    ensures Inv(Apply(w, DropStream))
  {
    var w' := Apply(w, DropStream);
    forall q | q in w'.strays ensures CopyInv(w', q) {
      if q in w.strays {
        assert CopyInv(w, q);
      }
    }
  }

  lemma ServerReadsKeepsInv(w: World, v: Verdict)
    requires Inv(w) && Enabled(w, ServerReads(v))
    ensures Inv(Apply(w, ServerReads(v)))
  {
    assert w.stream.value.up == [w.control.request];
    SameCopies(w, Apply(w, ServerReads(v)));
  }

  // ----- runs --------------------------------------------------------------------------

  ghost predicate Run(ws: seq<World>, steps: seq<Step>) {
    && |ws| == |steps| + 1
    && InitialWorld(ws[0])
    && forall i :: 0 <= i < |steps| ==> Enabled(ws[i], steps[i]) && ws[i + 1] == Apply(ws[i], steps[i])
  }

  lemma {:induction false} RunKeepsInv(ws: seq<World>, steps: seq<Step>, k: nat)
    requires Run(ws, steps) && k < |ws|
    ensures Inv(ws[k])
  {
    if k == 0 {
      InitialClientInv(ws[0].client.session);
    } else {
      RunKeepsInv(ws, steps, k - 1);
      StepKeepsInv(ws[k - 1], steps[k - 1]);
    }
  }

  /** At most once: over a whole run, across retries, lost answers, late copies and server
      restarts, no sequence is executed twice, and the executed sequences are 1, 2, 3, ... */
  lemma ExecutedAtMostOnce(ws: seq<World>, steps: seq<Step>, k: nat, i: nat, j: nat)
    requires Run(ws, steps) && k < |ws|
    requires i < j < |ws[k].executed|
    ensures ws[k].executed[i].request.seqNo == i + 1
    ensures ws[k].executed[i].request.seqNo != ws[k].executed[j].request.seqNo
  {
    RunKeepsInv(ws, steps, k);
  }

  /** Within one epoch the server is at the client's sequence or one ahead of it, and when it
      is ahead, what it executed is the exact request the client still holds. What the client
      has consumed is always a prefix of what was executed, answers included. */
  lemma ServerAtMostOneAhead(ws: seq<World>, steps: seq<Step>, k: nat)
    requires Run(ws, steps) && k < |ws|
    ensures ws[k].answers <= ws[k].executed && |ws[k].executed| <= |ws[k].answers| + 1
    ensures |ws[k].answers| == ws[k].client.nextSeq - 1
    ensures SameEpoch(ws[k]) ==>
      ws[k].server.last == ws[k].client.nextSeq - 1 || ws[k].server.last == ws[k].client.nextSeq
    ensures SameEpoch(ws[k]) && ws[k].server.last == ws[k].client.nextSeq && !ws[k].client.invalid ==>
      ws[k].server.cached.Some? && Held(ws[k]) == Some(ws[k].server.cached.value.request)
  {
    RunKeepsInv(ws, steps, k);
  }

  /** Whatever reply a live client is about to read, it is never a sequence conflict or gap. */
  lemma NeverAConflictOrGap(ws: seq<World>, steps: seq<Step>, k: nat)
    requires Run(ws, steps) && k < |ws| && Enabled(ws[k], Receive)
    ensures var reply := ws[k].stream.value.down[0];
      reply.ApiReply? && reply.response.Rejected? ==>
        !reply.response.kind.SequenceConflict? && !reply.response.kind.SequenceGap?
    ensures |ws[k].stream.value.down| == 1
  {
    RunKeepsInv(ws, steps, k);
  }

  /** The audit promise holds after any run. */
  lemma EverySelectionLoggedOnce(ws: seq<World>, steps: seq<Step>, k: nat)
    requires Run(ws, steps) && k < |ws|
    ensures OneSelectionEach(ws[k].client.audit.events)
  {
    RunKeepsInv(ws, steps, k);
  }

  /** An unresolved request is still unresolved, or the session is over, or its sequence was
      answered by an exchange of exactly that request. */
  ghost predicate Accounted(w: World, p: Request) {
    w.client.invalid || w.client.pending == Some(p)
    || (0 < p.seqNo <= |w.answers| && w.answers[p.seqNo - 1].request == p)
  }

  lemma FinishedKeepsAccount(w: World, o: Outcome, p: Request)
    requires QuietInv(w) && PossibleOutcome(w, o) && Accounted(w, p)
    ensures Accounted(Finished(w, o), p)
  {
    FinishedSequence(w, o);
    FinishedNetwork(w, o);
    CallSequence(w.client, w.control.request, o);
  }

  lemma StepKeepsAccount(w: World, s: Step, p: Request)
    requires Inv(w) && Enabled(w, s) && Accounted(w, p)
    ensures Accounted(Apply(w, s), p)
  {
    if CallEnd(w, s).Some? {
      StepEndsCall(w, s);
      FinishedKeepsAccount(AtCallEnd(w, s), CallEnd(w, s).value, p);
    } else {
      StepLeavesCall(w, s);
    }
  }

  /** Exact recovery: once a request is completion-uncertain, every later state of the run
      still owes it, has ended the session, or consumed its sequence with its own answer. */
  lemma {:induction false} UncertainRequestResolvedExactly(
      ws: seq<World>, steps: seq<Step>, i: nat, k: nat, p: Request)
    requires Run(ws, steps) && i <= k < |ws|
    requires ws[i].client.pending == Some(p)
    ensures Accounted(ws[k], p)
  {
    if i < k {
      UncertainRequestResolvedExactly(ws, steps, i, k - 1, p);
      RunKeepsInv(ws, steps, k - 1);
      StepKeepsAccount(ws[k - 1], steps[k - 1], p);
    }
  }

  // ----- deferred branch cleanup over runs ---------------------------------------------

  /** The one step that detaches a deferred release: the answer to its own replay refuses it. */
  ghost predicate DetachesCleanup(w: World, s: Step) {
    Enabled(w, s) && CallEnd(w, s).Some? && w.control.Busy? && w.control.kind.Replay?
    && ReleaseReplayRefused(w.client, w.control.request, CallEnd(w, s).value)
  }

  lemma FinishedKeepsAnchor(w: World, o: Outcome)
    requires QuietInv(w) && PossibleOutcome(w, o) && CleanupAnchored(w.client)
    ensures CleanupAnchored(Finished(w, o).client)
      <==> !(w.control.kind.Replay? && ReleaseReplayRefused(w.client, w.control.request, o))
  {
    var r := w.control.request;
    match w.control.kind
    case Fresh => FreshKeepsAnchor(w.client, r, o);
    case DeferredRelease => CleanupExchangeKeepsInv(w.client, r, o);
    case Replay =>
      ReplayedKeepsAnchor(w.client, r, o);
      assert Finished(w, o).client == AfterReplayed(w.client, r, o);
  }

  lemma StepKeepsAnchor(w: World, s: Step)
    requires Inv(w) && Enabled(w, s) && CleanupAnchored(w.client)
    ensures CleanupAnchored(Apply(w, s).client) <==> !DetachesCleanup(w, s)
  {
    if CallEnd(w, s).Some? {
      StepEndsCall(w, s);
      FinishedKeepsAnchor(AtCallEnd(w, s), CallEnd(w, s).value);
    } else {
      StepLeavesCall(w, s);
    }
  }

  /** A deferred release is never forgotten: as long as no replayed release was refused, a
      recorded cleanup is the pending request, so it will be sent before anything else. */
  lemma {:induction false} DeferredReleaseNeverForgotten(ws: seq<World>, steps: seq<Step>, k: nat)
    requires Run(ws, steps) && k < |ws|
    requires forall i :: 0 <= i < k ==> !DetachesCleanup(ws[i], steps[i])
    ensures CleanupAnchored(ws[k].client)
  {
    if k == 0 {
      InitialClientInv(ws[0].client.session);
    } else {
      DeferredReleaseNeverForgotten(ws, steps, k - 1);
      RunKeepsInv(ws, steps, k - 1);
      StepKeepsAnchor(ws[k - 1], steps[k - 1]);
    }
  }

  /** What a run owes for a cleanup `record` deferred on the uncertain request `p`: until `p`
      is answered the record waits beside it; from then on the very next sequence is the
      release of exactly the owed branches, pending until it is answered. */
  ghost predicate CleanupDue(w: World, p: Request, record: CleanupRecord)
    requires p.seqNo > 0
  {
    w.client.invalid
    || (w.client.pending == Some(p) && w.client.cleanup == Some(record))
    || (p.seqNo <= |w.answers| && w.answers[p.seqNo - 1].request == p
        && ReleaseFollows(w, p, OwedBranches(record, p, w.answers[p.seqNo - 1].response.Rejected?), record.instance))
  }

  ghost predicate ReleaseFollows(w: World, p: Request, owed: seq<BranchId>, instance: string)
    requires p.seqNo <= |w.answers|
  {
    var release := Request(w.client.session, p.seqNo + 1, ReleaseBranches(instance, owed));
    owed == []
    || (|w.answers| == p.seqNo && w.client.pending == Some(release))
    || (|w.answers| > p.seqNo && w.answers[p.seqNo].request == release)
  }

  lemma FinishedKeepsDue(w: World, o: Outcome, p: Request, record: CleanupRecord)
    requires QuietInv(w) && PossibleOutcome(w, o)
    requires p.seqNo > 0 && record.token == p && IsEmulate(p.op) && CleanupDue(w, p, record)
    requires w.client.pending == Some(p) && w.client.cleanup == Some(record)
    ensures CleanupDue(Finished(w, o), p, record)
  {
    CallSequence(w.client, p, o);
    FinishedNetwork(w, o);
    var w' := Finished(w, o);
    if Consumes(o) {
      assert w'.answers[p.seqNo - 1] == Exchange(p, o.response);
      var d := AfterReplay(w.client, p, o);
      if !d.invalid {
        ResolvedReplayInstance(w.client, p, o);
        assert w'.client == CleanupClaimed(d, p, WasRejected(o));
      }
    }
  }

  lemma FinishedKeepsFollow(w: World, o: Outcome, p: Request, owed: seq<BranchId>, instance: string)
    requires QuietInv(w) && PossibleOutcome(w, o)
    requires p.seqNo <= |w.answers| && ReleaseFollows(w, p, owed, instance)
    ensures var w' := Finished(w, o);
      w'.client.invalid
      || (p.seqNo <= |w'.answers| && w.answers <= w'.answers && ReleaseFollows(w', p, owed, instance))
  {
    CallSequence(w.client, w.control.request, o);
    FinishedSequence(w, o);
    FinishedNetwork(w, o);
  }

  lemma FinishedStaysDue(w: World, o: Outcome, p: Request, record: CleanupRecord)
    requires QuietInv(w) && PossibleOutcome(w, o)
    requires p.seqNo > 0 && record.token == p && IsEmulate(p.op) && CleanupDue(w, p, record)
    ensures CleanupDue(Finished(w, o), p, record)
  {
    if w.client.pending == Some(p) && w.client.cleanup == Some(record) {
      FinishedKeepsDue(w, o, p, record);
    } else {
      FinishedKeepsFollow(w, o, p, OwedBranches(record, p, w.answers[p.seqNo - 1].response.Rejected?),
                          record.instance);
    }
  }

  lemma StepKeepsDue(w: World, s: Step, p: Request, record: CleanupRecord)
    requires Inv(w) && Enabled(w, s)
    requires p.seqNo > 0 && record.token == p && IsEmulate(p.op) && CleanupDue(w, p, record)
    ensures CleanupDue(Apply(w, s), p, record)
  {
    if CallEnd(w, s).Some? {
      StepEndsCall(w, s);
      FinishedStaysDue(AtCallEnd(w, s), CallEnd(w, s).value, p, record);
    } else {
      StepLeavesCall(w, s);
    }
  }

  /** Once a cleanup is deferred on an uncertain request, every later state of the run keeps
      it due: nothing but the exact replay is sent before it, and the sequence right after the
      replay's answer releases exactly the owed branches. */
  lemma {:induction false} DeferredCleanupRunsNext(
      ws: seq<World>, steps: seq<Step>, i: nat, k: nat, record: CleanupRecord)
    requires Run(ws, steps) && i <= k < |ws|
    requires ws[i].client.pending == Some(record.token) && ws[i].client.cleanup == Some(record)
    requires IsEmulate(record.token.op)
    ensures record.token.seqNo > 0 && CleanupDue(ws[k], record.token, record)
  {
    RunKeepsInv(ws, steps, i);
    if i < k {
      DeferredCleanupRunsNext(ws, steps, i, k - 1, record);
      RunKeepsInv(ws, steps, k - 1);
      StepKeepsDue(ws[k - 1], steps[k - 1], record.token, record);
    }
  }

  // ----- what the server may still hold ------------------------------------------------

  /** The branches that may exist after a history of executed exchanges: a rejected emulate
      request created none, a completed release removed the ones it names. */
  ghost function Existing(history: seq<Exchange>): set<BranchId>
    decreases |history|
  {
    if history == [] then {}
    else
      var before := Existing(history[..|history| - 1]);
      var last := history[|history| - 1];
      if IsEmulate(last.request.op) && !last.response.Rejected?
      then before + CreatedBranches(last.request.op)
      else if last.request.op.ReleaseBranches? && last.response.Completed?
      then before - set b | b in last.request.op.branches
      else before
  }

  lemma {:induction false} ExistingStepwise(history: seq<Exchange>, n: nat)
    requires 0 < n <= |history|
    ensures Existing(history[..n]) ==
      var e := history[n - 1];
      if IsEmulate(e.request.op) && !e.response.Rejected?
      then Existing(history[..n - 1]) + CreatedBranches(e.request.op)
      else if e.request.op.ReleaseBranches? && e.response.Completed?
      then Existing(history[..n - 1]) - set b | b in e.request.op.branches
      else Existing(history[..n - 1])
  {
    assert history[..n][..n - 1] == history[..n - 1];
  }

  /** The point of deferring: when the release that follows a recovered emulate request is
      answered `completed`, none of the branches the caller recorded is left on the server,
      neither those the uncertain request may have created nor those it owned before. The ids
      a rejected request would have created must not stem from elsewhere, which fresh ids give. */
  lemma RecoveredCleanupLeavesNothing(
      ws: seq<World>, steps: seq<Step>, i: nat, k: nat, record: CleanupRecord)
    requires Run(ws, steps) && i <= k < |ws|
    requires ws[i].client.pending == Some(record.token) && ws[i].client.cleanup == Some(record)
    requires IsEmulate(record.token.op)
    requires !ws[k].client.invalid && 0 < record.token.seqNo < |ws[k].answers|
    requires var n := record.token.seqNo;
      OwedBranches(record, record.token, ws[k].answers[n - 1].response.Rejected?) != []
      && ws[k].answers[n].response.Completed?
    requires forall b :: b in CreatedBranches(record.token.op) ==>
      b !in Existing(ws[k].answers[..record.token.seqNo - 1])
    ensures forall b :: b in record.branches ==> b !in Existing(ws[k].answers[..record.token.seqNo + 1])
  {
    var n := record.token.seqNo;
    var h := ws[k].answers;
    DeferredCleanupRunsNext(ws, steps, i, k, record);
    RunKeepsInv(ws, steps, k);
    ExistingStepwise(h, n);
    ExistingStepwise(h, n + 1);
    var owed := OwedBranches(record, record.token, h[n - 1].response.Rejected?);
    assert h[n].request == Request(ws[k].client.session, n + 1, ReleaseBranches(record.instance, owed));
    assert Existing(h[..n + 1]) == Existing(h[..n]) - set b | b in owed;
    assert h[n - 1].response.Rejected? ==> Existing(h[..n]) == Existing(h[..n - 1]);
  }
}
