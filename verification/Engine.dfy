/** Deciding one action at the root: forced, by event evaluation, by beam search, or by the
    fallback selector. */
module Engine {
  import opened Wrappers
  import opened WireContract
  import opened CombatDecision
  import opened Decimals
  import opened BeamModel
  import opened BeamFrontier
  import BeamEmulate
  import opened BeamSearch
  import BranchLog
  import SessionClient
  import TrainingClient
  import opened EventBranchSearch

  // ----- the legal actions -------------------------------------------------------------

  /** The actions that satisfy `keep`, in order. */
  function Kept(actions: seq<Action>, keep: Action -> bool): (r: seq<Action>)
    ensures forall a :: a in r <==> a in actions && keep(a)
  {
    if actions == [] then []
    else
      var front := Kept(actions[..|actions| - 1], keep);
      assert actions == actions[..|actions| - 1] + [actions[|actions| - 1]];
      if keep(actions[|actions| - 1]) then front + [actions[|actions| - 1]] else front
  }

  /** `kept` are the actions at the positions `at`: in order, and all that satisfy `keep`. */
  ghost predicate KeptAt(actions: seq<Action>, keep: Action -> bool, kept: seq<Action>, at: seq<nat>) {
    && |at| == |kept| && (forall i, j :: 0 <= i < j < |at| ==> at[i] < at[j])
    && (forall i :: 0 <= i < |at| ==> at[i] < |actions| && kept[i] == actions[at[i]])
    && (forall p: nat :: p < |actions| && keep(actions[p]) ==> p in at)
  }

  lemma {:induction false} KeptInOrder(actions: seq<Action>, keep: Action -> bool) returns (at: seq<nat>)
    ensures KeptAt(actions, keep, Kept(actions, keep), at)
  {
    at := [];
    if actions != [] {
      var n := |actions| - 1;
      at := KeptInOrder(actions[..n], keep);
      KeptNext(actions, keep, Kept(actions[..n], keep), at);
      if keep(actions[n]) {
        at := at + [n];
      }
    }
  }

  lemma KeptNext(actions: seq<Action>, keep: Action -> bool, kept: seq<Action>, at: seq<nat>)
    requires actions != [] && KeptAt(actions[..|actions| - 1], keep, kept, at)
    ensures var n := |actions| - 1;
      if keep(actions[n]) then KeptAt(actions, keep, kept + [actions[n]], at + [n]) else KeptAt(actions, keep, kept, at)
  {
    var n := |actions| - 1;
    var front := actions[..n];
    forall p: nat | p < n && keep(actions[p]) ensures p in at {
      assert front[p] == actions[p];
    }
  }

  function Available(actions: seq<Action>): seq<Action> {
    Kept(actions, (a: Action) => a.available)
  }

  function EventOptions(actions: seq<Action>): seq<Action> {
    Kept(actions, (a: Action) => a.available && a.actionType.EventOption?)
  }

  /** Every action has an id of its own. */
  ghost predicate WellNamed(actions: seq<Action>) {
    && (forall i :: 0 <= i < |actions| ==> actions[i].id != "")
    && (forall i, j :: 0 <= i < j < |actions| ==> actions[i].id != actions[j].id)
  }

  method ReadActions(raw: seq<Action>) returns (ok: bool)
    ensures ok <==> WellNamed(raw)
  {
    var ids: set<string> := {};
    for n := 0 to |raw|
      invariant WellNamed(raw[..n])
      invariant forall id :: id in ids <==> exists i :: 0 <= i < n && raw[i].id == id
    {
      if raw[n].id == "" || raw[n].id in ids {
        return false;
      }
      ids := ids + {raw[n].id};
    }
    assert raw[..|raw|] == raw;
    return true;
  }

  /** The actions to choose from; None when the decision is not a valid one. */
  ghost function Choices(dto: Dto, runTerminal: bool): Option<seq<Action>> {
    if dto.actions.None? then if runTerminal then Some([]) else None
    else if WellNamed(dto.actions.value) then Some(Available(dto.actions.value)) else None
  }

  ghost function Offered(dto: Dto, runTerminal: bool): seq<Action> {
    var choices := Choices(dto, runTerminal);
    if choices.Some? then choices.value else []
  }

  method LegalActions(dto: Dto, runTerminal: bool) returns (r: Option<seq<Action>>)
    ensures r == Choices(dto, runTerminal)
  {
    if dto.actions.None? {
      return if runTerminal then Some([]) else None;
    }
    var ok := ReadActions(dto.actions.value);
    r := if ok then Some(Available(dto.actions.value)) else None;
  }

  /** What can be chosen is available by its id. */
  lemma ChoiceIsAvailable(dto: Dto, runTerminal: bool, actions: seq<Action>, a: Action)
    requires Choices(dto, runTerminal) == Some(actions) && a in actions
    ensures IsAvailable(dto, a.id)
  {
    assert a in dto.actions.value && a.available;
  }

  lemma NoChoiceIsAvailable(dto: Dto, runTerminal: bool, id: string)
    requires Choices(dto, runTerminal) == Some([])
    ensures !IsAvailable(dto, id)
  {
    if dto.actions.Some? {
      var actions := dto.actions.value;
      forall i | 0 <= i < |actions| ensures !actions[i].available {
        assert actions[i] in Available(actions) <==> actions[i].available;
      }
    }
  }

  // ----- event options -----------------------------------------------------------------

  function EvaluationBranch(decisionPoint: string, index: nat, suffix: string): BranchId {
    "event-eval-" + decisionPoint + "-" + PrintNat(index) + "-" + suffix
  }

  /** Branches of different options differ, whatever the random suffixes of one length are. */
  lemma EvaluationBranchInjective(decisionPoint: string, i: nat, j: nat, u: string, v: string)
    requires |u| == |v| && EvaluationBranch(decisionPoint, i, u) == EvaluationBranch(decisionPoint, j, v)
    ensures i == j
  {
    var front := "event-eval-" + decisionPoint + "-";
    var a, b := EvaluationBranch(decisionPoint, i, u), EvaluationBranch(decisionPoint, j, v);
    assert a == front + PrintNat(i) + "-" + u && b == front + PrintNat(j) + "-" + v;
    assert |PrintNat(i)| == |PrintNat(j)|;
    assert a[|front|..|front| + |PrintNat(i)|] == PrintNat(i);
    assert b[|front|..|front| + |PrintNat(j)|] == PrintNat(j);
    PrintNatInjective(i, j);
  }

  /** One candidate for each event option, in order, each on a branch of its own. */
  method EventCandidates(decisionPoint: string, options: seq<Action>) returns (candidates: seq<Candidate>)
    ensures DistinctCandidates(candidates) && |candidates| == |options|
    ensures forall i :: 0 <= i < |options| ==>
      candidates[i].action == options[i].id && candidates[i].rngId == i + 1
  {
    candidates := [];
    ghost var suffixes: seq<string> := [];
    for n := 0 to |options|
      invariant |candidates| == n && |suffixes| == n
      invariant forall i :: 0 <= i < n ==> candidates[i].action == options[i].id && candidates[i].rngId == i + 1
      invariant forall i :: 0 <= i < n ==>
        |suffixes[i]| == 8 && candidates[i].branch == EvaluationBranch(decisionPoint, i, suffixes[i])
      invariant DistinctCandidates(candidates)
    {
      var suffix: string := "00000000";
      var drawn: string := *;
      if |drawn| == 8 {
        suffix := drawn;
      }
      var branch := EvaluationBranch(decisionPoint, n, suffix);
      forall i | 0 <= i < n ensures candidates[i].branch != branch {
        if candidates[i].branch == branch {
          EvaluationBranchInjective(decisionPoint, i, n, suffixes[i], suffix);
        }
      }
      candidates := candidates + [Candidate(branch, options[n].id, n + 1)];
      suffixes := suffixes + [suffix];
    }
  }

  // ----- what a search result is good for ----------------------------------------------

  predicate CutShort(reason: Reason) {
    reason.TimeBudgetReached?
    || reason == EmulationStopped(BeamEmulate.TimeBudget) || reason == EmulationStopped(BeamEmulate.BatchRejected)
  }

  predicate ResultIsActionable(o: Outcome) {
    && o.SearchResult? && o.best.Some? && o.best.value.rootAction.Some?
    && (CutShort(o.reason) ==> o.best.value.depth <= o.depths)
  }

  /** The best line of a search, as the search promises it. */
  ghost predicate SoundResult(r: Rules, o: Outcome) {
    o.SearchResult? ==> o.reason != EmulationStopped(BeamEmulate.Raised) && (o.best.Some? ==>
      && o.best.value.rootAction.Some? && IsAvailable(r.rootDto, o.best.value.rootAction.value)
      && (if o.best.value.branch == ROOT_BRANCH_ID then o.best.value.depth == 1 && r.cfg.turnBoundary
          else o.best.value.depth <= DepthReached(o.reason, o.depths)))
  }

  lemma StoppedIsCutShort(reason: Reason)
    requires reason.EmulationStopped? && reason != EmulationStopped(BeamEmulate.Raised)
    ensures CutShort(reason)
  {
    match reason.fatal
    case TimeBudget =>
    case BatchRejected =>
    case Raised =>
  }

  /** A line is acted on only if all of it was searched to the end: it is no deeper than the
      completed plies, or ends the turn at once. */
  lemma ActionableIsComplete(r: Rules, o: Outcome)
    requires SoundResult(r, o) && ResultIsActionable(o)
    ensures o.best.value.depth <= o.depths
            || (o.best.value.branch == ROOT_BRANCH_ID && o.best.value.depth == 1 && r.cfg.turnBoundary)
  {
    if o.reason.EmulationStopped? {
      StoppedIsCutShort(o.reason);
    }
  }

  /** What is turned down, and nothing else: a line whose last move belongs to the ply that was
      cut short, or ending the turn before any ply was completed. */
  lemma RefusedIff(r: Rules, o: Outcome)
    requires SoundResult(r, o) && o.SearchResult? && o.best.Some?
    ensures !ResultIsActionable(o) <==>
      || (o.reason.EmulationStopped? && o.best.value.branch != ROOT_BRANCH_ID && o.best.value.depth == o.depths + 1)
      || (CutShort(o.reason) && o.best.value.branch == ROOT_BRANCH_ID && o.depths == 0)
  {
    if o.reason.EmulationStopped? {
      StoppedIsCutShort(o.reason);
    }
  }

  // ----- the decision ------------------------------------------------------------------

  datatype Source = Nothing | ForcedSingle | EventEvaluation | Beam | Fallback

  /** `beam` is the search result, when there was a search, acted on or not. */
  datatype Decision = Decided(action: Option<string>, source: Source, beam: Option<Outcome>) | DecisionRaised

  /** A decision chooses an available action, and none exactly when there is none. The one
      available action is taken without asking anyone. */
  ghost predicate SoundDecision(dto: Dto, runTerminal: bool, d: Decision) {
    var choices := Choices(dto, runTerminal);
    && (choices.None? ==> d.DecisionRaised?)
    && (d.Decided? ==> match d.action
                       case None => choices == Some([]) && d.source.Nothing?
                       case Some(id) => IsAvailable(dto, id) && choices.Some? && choices.value != [])
    && (choices == Some([]) ==> d == Decided(None, Nothing, None))
    && (choices.Some? && |choices.value| == 1 ==> d == Decided(Some(choices.value[0].id), ForcedSingle, None))
  }

  /** The event evaluation behind a decision: its candidates, how their requests ended, the client
      after them and the final release. */
  datatype EventRecord = EventRecord(
    candidates: seq<Candidate>, outcomes: seq<SessionClient.Outcome>, evaluated: SessionClient.ClientState,
    release: FinalRelease)

  /** The record is what happened on the session, and `chosen` is the choice it leads to: the option
      that leaves the most HP, and none when every option was tried and none survives. */
  ghost predicate EventDecided(before: SessionClient.ClientState, after: SessionClient.ClientState, instance: string,
                               decisionPoint: string, actions: seq<Action>, supportsBatch: bool, e: EventRecord,
                               chosen: Option<string>)
  {
    var options := EventOptions(actions);
    && Evaluated(before, instance, decisionPoint, e.candidates, supportsBatch, e.outcomes, e.evaluated)
    && after == AfterRelease(e.evaluated, instance, e.release)
    && (e.candidates == [] || |e.candidates| == |options|)
    && (forall i :: 0 <= i < |e.candidates| ==> i < |options| && e.candidates[i].action == options[i].id)
    && (chosen.Some? ==> |e.outcomes| == |e.candidates|)
    && (|e.outcomes| == |e.candidates| ==>
          BestChoice(e.candidates, e.outcomes, if chosen.Some? then Chosen(chosen.value) else NoChoice))
  }

  /** No event evaluation took place. */
  ghost function NoEvent(c: SessionClient.ClientState): EventRecord {
    EventRecord([], [], c, NoRelease)
  }

  lemma NoEventDecided(c: SessionClient.ClientState, instance: string, decisionPoint: string, actions: seq<Action>,
                       supportsBatch: bool)
    ensures EventDecided(c, c, instance, decisionPoint, actions, supportsBatch, NoEvent(c), None)
  {
  }

  /** Evaluates the event options, when there are any and there is time; None means that beam
      search and fallback have to decide. */
  method AskEvents(session: TrainingClient.AsyncTrainingApiClient, instance: string, decisionPoint: string,
                   actions: seq<Action>, supportsBatch: bool)
    returns (raised: bool, chosen: Option<string>, ghost e: EventRecord)
    requires session.Valid()
    modifies session, session.audit, session.connection
    ensures session.Valid() && (raised ==> chosen.None?)
    ensures chosen.Some? ==>
      exists a :: a in actions && a.available && a.actionType.EventOption? && a.id == chosen.value
    ensures !raised ==>
      EventDecided(old(session.State()), session.State(), instance, decisionPoint, actions, supportsBatch, e, chosen)
  {
    raised, chosen, e := false, None, NoEvent(session.State());
    var options := EventOptions(actions);
    var expired: bool := *;
    if options == [] || expired {
      return;
    }
    var candidates := EventCandidates(decisionPoint, options);
    var r;
    ghost var maybe, budgetLeft, release, outcomes, evaluated;
    r, maybe, budgetLeft, release, outcomes, evaluated :=
      BestEventOption(session, instance, decisionPoint, candidates, supportsBatch);
    e := EventRecord(candidates, outcomes, evaluated, release);
    raised := r.Raised?;
    if r.Chosen? {
      ghost var i: nat :| FirstBest(candidates, outcomes, i) && candidates[i].action == r.action;
      assert options[i] in actions;
      chosen := Some(r.action);
    }
  }

  /** The best line of a search ends in a state the server answered. */
  ghost predicate ShownByAnswers(r: Rules, o: Outcome, answers: map<BranchId, Emulated>) {
    o.SearchResult? && o.best.Some? ==> LeafAnswered(r, o.best.value, answers)
  }

  /** Nothing was asked of the emulator. */
  ghost predicate Unasked(log: seq<BranchLog.Exchange>, answers: map<BranchId, Emulated>, emulator: EmulatorClient)
    reads emulator
  {
    emulator.log == log && emulator.answers == answers
  }

  /** Beam search, when it is enabled and there is time. */
  method AskBeam(emulator: EmulatorClient, alloc: BranchIdAllocator, r: Rules, decisionPoint: string, enabled: bool)
    returns (raised: bool, result: Option<Outcome>)
    requires ValidRules(r) && r.wholeRun == emulator.wholeRun && emulator.Valid() && alloc.Valid()
    requires emulator.ever <= alloc.issued && Unmixed(r.rootDto) && decisionPoint != ""
    modifies emulator, alloc
    ensures emulator.Valid() && alloc.Valid() && emulator.ever <= alloc.issued
    ensures result.Some? ==> SoundResult(r, result.value) && ShownByAnswers(r, result.value, emulator.answers)
    ensures !enabled ==> result.None?
    ensures result.None? ==> !raised && Unasked(old(emulator.log), old(emulator.answers), emulator)
  {
    raised, result := false, None;
    var expired: bool := *;
    if !enabled || expired {
      return;
    }
    var outcome;
    ghost var clean;
    outcome, clean := Search(emulator, alloc, r, decisionPoint);
    raised, result := outcome.SearchRaised?, Some(outcome);
  }

  /** The fallback selector is arbitrary; what is not on offer raises. */
  method AskFallback(actions: seq<Action>, beam: Option<Outcome>) returns (d: Decision)
    ensures d.Decided? ==> d.source.Fallback? && d.beam == beam
    ensures d.Decided? ==> d.action.Some? && exists a :: a in actions && a.id == d.action.value
  {
    var chosen: string := *;
    for i := 0 to |actions|
    {
      if actions[i].id == chosen {
        return Decided(Some(chosen), Fallback, beam);
      }
    }
    return DecisionRaised;
  }

  /** A search result is acted on exactly when it can be, and the fallback decides otherwise. */
  ghost predicate ActsOn(r: Rules, d: Decision, o: Outcome)
    requires d.Decided?
  {
    && SoundResult(r, o)
    && if ResultIsActionable(o) then d.source.Beam? && d.action == o.best.value.rootAction else d.source.Fallback?
  }

  /** What a decision shows for itself: an event evaluation that led to this choice or to none, and
      a search result that was acted on exactly when it could be. */
  ghost predicate Explained(r: Rules, d: Decision, beamSearch: bool, log: seq<BranchLog.Exchange>,
                            answers: map<BranchId, Emulated>, emulator: EmulatorClient)
    reads emulator
    requires d.Decided?
  {
    match d.beam
    case None => !d.source.Beam? && Unasked(log, answers, emulator)
    case Some(o) => beamSearch && ActsOn(r, d, o) && ShownByAnswers(r, o, emulator.answers)
  }

  /** One decision at the root. */
  method Decide(session: TrainingClient.AsyncTrainingApiClient, emulator: EmulatorClient, alloc: BranchIdAllocator,
                r: Rules, instance: string, decisionPoint: string, runTerminal: bool,
                eventSearch: bool, supportsBatch: bool, beamSearch: bool)
    returns (d: Decision, ghost e: EventRecord)
    requires session.Valid() && ValidRules(r) && r.wholeRun == emulator.wholeRun
    requires emulator.Valid() && alloc.Valid() && emulator.ever <= alloc.issued && Unmixed(r.rootDto)
    modifies session, session.audit, session.connection, emulator, alloc
    ensures session.Valid() && emulator.Valid() && alloc.Valid() && emulator.ever <= alloc.issued
    ensures decisionPoint == "" ==> d == DecisionRaised
    ensures SoundDecision(r.rootDto, runTerminal, d) || decisionPoint == ""
    ensures d.Decided? ==> Explained(r, d, beamSearch, old(emulator.log), old(emulator.answers), emulator)
    ensures d.Decided? ==>
      EventDecided(old(session.State()), session.State(), instance, decisionPoint, Offered(r.rootDto, runTerminal),
                   supportsBatch, e, if d.source.EventEvaluation? then d.action else None)
    ensures d.Decided? && d.source.EventEvaluation? ==>
      eventSearch && d.beam.None? && d.action.Some?
      && exists a :: a in Offered(r.rootDto, runTerminal) && a.actionType.EventOption? && a.id == d.action.value
  {
    e := NoEvent(session.State());
    if decisionPoint == "" {
      return DecisionRaised, e;
    }
    var legal := LegalActions(r.rootDto, runTerminal);
    if legal.None? {
      return DecisionRaised, e;
    }
    var actions := legal.value;
    NoEventDecided(session.State(), instance, decisionPoint, actions, supportsBatch);
    if actions == [] {
      return Decided(None, Nothing, None), e;
    }
    if |actions| == 1 {
      ChoiceIsAvailable(r.rootDto, runTerminal, actions, actions[0]);
      return Decided(Some(actions[0].id), ForcedSingle, None), e;
    }
    d, e := DecideAmong(session, emulator, alloc, r, instance, decisionPoint, runTerminal, actions, eventSearch,
                        supportsBatch, beamSearch);
  }

  /** The decision between several actions. */
  method DecideAmong(session: TrainingClient.AsyncTrainingApiClient, emulator: EmulatorClient,
                     alloc: BranchIdAllocator, r: Rules, instance: string, decisionPoint: string,
                     ghost runTerminal: bool, actions: seq<Action>, eventSearch: bool, supportsBatch: bool,
                     beamSearch: bool)
    returns (d: Decision, ghost e: EventRecord)
    requires session.Valid() && ValidRules(r) && r.wholeRun == emulator.wholeRun && decisionPoint != ""
    requires emulator.Valid() && alloc.Valid() && emulator.ever <= alloc.issued && Unmixed(r.rootDto)
    requires Choices(r.rootDto, runTerminal) == Some(actions) && |actions| > 1
    modifies session, session.audit, session.connection, emulator, alloc
    ensures session.Valid() && emulator.Valid() && alloc.Valid() && emulator.ever <= alloc.issued
    ensures d.Decided? ==> d.action.Some? && IsAvailable(r.rootDto, d.action.value)
    ensures d.Decided? ==> Explained(r, d, beamSearch, old(emulator.log), old(emulator.answers), emulator)
    ensures d.Decided? ==>
      EventDecided(old(session.State()), session.State(), instance, decisionPoint, actions, supportsBatch, e,
                   if d.source.EventEvaluation? then d.action else None)
    ensures d.Decided? && d.source.EventEvaluation? ==>
      eventSearch && d.beam.None? && exists a :: a in actions && a.actionType.EventOption? && a.id == d.action.value
  {
    e := NoEvent(session.State());
    if eventSearch {
      var raised, chosen;
      raised, chosen, e := AskEvents(session, instance, decisionPoint, actions, supportsBatch);
      if raised {
        return DecisionRaised, e;
      }
      if chosen.Some? {
        ghost var a :| a in actions && a.actionType.EventOption? && a.id == chosen.value;
        ChoiceIsAvailable(r.rootDto, runTerminal, actions, a);
        return Decided(chosen, EventEvaluation, None), e;
      }
    } else {
      NoEventDecided(session.State(), instance, decisionPoint, actions, supportsBatch);
    }
    d := SearchOrFallBack(emulator, alloc, r, decisionPoint, runTerminal, actions, beamSearch);
  }

  /** Beam search, and the fallback selector when it gives nothing to act on. */
  method SearchOrFallBack(emulator: EmulatorClient, alloc: BranchIdAllocator, r: Rules, decisionPoint: string,
                          ghost runTerminal: bool, actions: seq<Action>, beamSearch: bool)
    returns (d: Decision)
    requires ValidRules(r) && r.wholeRun == emulator.wholeRun && emulator.Valid() && alloc.Valid()
    requires emulator.ever <= alloc.issued && Unmixed(r.rootDto) && decisionPoint != ""
    requires Choices(r.rootDto, runTerminal) == Some(actions) && |actions| > 1
    modifies emulator, alloc
    ensures emulator.Valid() && alloc.Valid() && emulator.ever <= alloc.issued
    ensures d.Decided? ==> d.action.Some? && IsAvailable(r.rootDto, d.action.value)
    ensures d.Decided? ==> (d.source.Beam? || d.source.Fallback?)
                           && Explained(r, d, beamSearch, old(emulator.log), old(emulator.answers), emulator)
  {
    var raised, found := AskBeam(emulator, alloc, r, decisionPoint, beamSearch);
    if raised {
      d := DecisionRaised;
    } else if found.Some? && ResultIsActionable(found.value) {
      d := Decided(found.value.best.value.rootAction, Beam, found);
    } else {
      d := AskFallback(actions, found);
      if d.Decided? {
        ghost var a :| a in actions && a.id == d.action.value;
        ChoiceIsAvailable(r.rootDto, runTerminal, actions, a);
      }
    }
  }
}
