/** The combat decision ontology: which actions a state offers and what kind of state it is. */
module CombatDecision {
  import opened Wrappers

  datatype ActionType =
    | System | Card | Potion
    | ChoiceTarget | ChoiceCard | ChoiceConfirm | ChoiceSkip
    | EventOption | OtherType | Untyped

  datatype Action = Action(id: string, actionType: ActionType, available: bool)

  /** A masked state, as far as the search looks at it. `terminalMarker` stands for the explicit
      terminal fields, `combatBoundary` for a whole-run boundary the search admits. */
  datatype Dto = Dto(actions: Option<seq<Action>>, terminalMarker: bool, turn: Option<int>, combatBoundary: bool)

  const CONTINUATION_TYPES: set<ActionType> := {ChoiceTarget, ChoiceCard, ChoiceConfirm, ChoiceSkip}

  ghost predicate HasUntyped(actions: seq<Action>) {
    exists i :: 0 <= i < |actions| && actions[i].available && actions[i].actionType.Untyped?
  }

  ghost predicate Offers(actions: seq<Action>, t: ActionType) {
    exists i :: 0 <= i < |actions| && actions[i].available && actions[i].actionType == t
  }

  /** The types of the available actions, or None when one of them carries no type. */
  function AvailableTypes(dto: Dto): (r: Option<set<ActionType>>)
    ensures r.Some? <==> dto.actions.Some? && !HasUntyped(dto.actions.value)
    ensures r.Some? ==> forall t :: t in r.value <==> Offers(dto.actions.value, t)
  {
    if dto.actions.None?
       || exists i :: 0 <= i < |dto.actions.value|
                      && dto.actions.value[i].available && dto.actions.value[i].actionType.Untyped?
    then None
    else Some(set i | 0 <= i < |dto.actions.value| && dto.actions.value[i].available
                    :: dto.actions.value[i].actionType)
  }

  /** The loop that collects the available types. */
  method CollectAvailableTypes(dto: Dto) returns (r: Option<set<ActionType>>)
    ensures r == AvailableTypes(dto)
  {
    if dto.actions.None? {
      return None;
    }
    var actions := dto.actions.value;
    var types: set<ActionType> := {};
    for n := 0 to |actions|
      invariant !HasUntyped(actions[..n])
      invariant types == set i | 0 <= i < n && actions[i].available :: actions[i].actionType
    {
      assert actions[..n + 1] == actions[..n] + [actions[n]];
      if actions[n].available {
        if actions[n].actionType.Untyped? {
          return None;
        }
        types := types + {actions[n].actionType};
      }
    }
    assert actions[..|actions|] == actions;
    return Some(types);
  }

  predicate IsContinuation(dto: Dto) {
    var types := AvailableTypes(dto);
    types.Some? && types.value != {} && types.value <= CONTINUATION_TYPES
  }

  predicate Searchable(dto: Dto, allowed: set<ActionType>) {
    var types := AvailableTypes(dto);
    types.Some? && types.value != {} && types.value <= allowed
  }

  /** A state that offers a continuation action offers nothing else. */
  predicate Unmixed(dto: Dto) {
    dto.actions.Some? && !IsContinuation(dto) ==>
      forall i :: 0 <= i < |dto.actions.value| && dto.actions.value[i].available ==>
        dto.actions.value[i].actionType !in CONTINUATION_TYPES
  }

  predicate IsTerminal(dto: Dto) {
    dto.terminalMarker
    || (dto.actions.Some? && forall i :: 0 <= i < |dto.actions.value| ==> !dto.actions.value[i].available)
  }

  predicate IsAvailable(dto: Dto, action: string) {
    dto.actions.Some? && action != ""
    && exists i :: 0 <= i < |dto.actions.value| && dto.actions.value[i].available
                   && dto.actions.value[i].id == action
  }

  /** The type of the first available action with this id, unless it has none. */
  function ActionTypeFor(actions: seq<Action>, action: string): Option<ActionType> {
    if actions == [] then None
    else if actions[0].available && actions[0].id == action then
      if actions[0].actionType.Untyped? then None else Some(actions[0].actionType)
    else ActionTypeFor(actions[1..], action)
  }

  function TypeForAction(dto: Dto, action: string): Option<ActionType> {
    if dto.actions.None? then None else ActionTypeFor(dto.actions.value, action)
  }

  lemma {:induction false} ActionTypeIsOffered(actions: seq<Action>, action: string)
    requires !HasUntyped(actions)
    requires exists i :: 0 <= i < |actions| && actions[i].available && actions[i].id == action
    ensures ActionTypeFor(actions, action).Some? && Offers(actions, ActionTypeFor(actions, action).value)
  {
    if !(actions[0].available && actions[0].id == action) {
      var rest := actions[1..];
      assert forall i :: 0 <= i < |rest| ==> rest[i] == actions[i + 1];
      var i :| 0 <= i < |actions| && actions[i].available && actions[i].id == action;
      assert rest[i - 1].available && rest[i - 1].id == action;
      ActionTypeIsOffered(rest, action);
    }
  }

  /** In a searchable state every available action has a type, and it is a continuation type
      exactly in continuation states. */
  lemma SelectedActionType(dto: Dto, action: string, allowed: set<ActionType>)
    requires Searchable(dto, allowed) && Unmixed(dto) && IsAvailable(dto, action)
    ensures TypeForAction(dto, action).Some?
    ensures TypeForAction(dto, action).value in CONTINUATION_TYPES <==> IsContinuation(dto)
  {
    ActionTypeIsOffered(dto.actions.value, action);
  }

  /** The first available End Turn action. */
  function EndTurnAction(actions: seq<Action>): Option<string> {
    if actions == [] then None
    else if actions[0].available && actions[0].actionType.System? && actions[0].id != "" then Some(actions[0].id)
    else EndTurnAction(actions[1..])
  }

  predicate IsEndTurn(a: Action) {
    a.available && a.actionType == System && a.id != ""
  }

  /** `action` is the id of the first End Turn among the actions. */
  ghost predicate FirstEndTurn(actions: seq<Action>, action: string) {
    exists i :: 0 <= i < |actions| && IsEndTurn(actions[i]) && actions[i].id == action
                && forall j :: 0 <= j < i ==> !IsEndTurn(actions[j])
  }

  /** There is a forced End Turn exactly when some available system action has an id, and then it is
      the first of these. */
  lemma {:induction false} EndTurnIsAvailable(actions: seq<Action>)
    ensures EndTurnAction(actions).Some? <==> exists i :: 0 <= i < |actions| && IsEndTurn(actions[i])
    ensures EndTurnAction(actions).Some? ==>
      EndTurnAction(actions).value != "" && FirstEndTurn(actions, EndTurnAction(actions).value)
  {
    if actions != [] && !IsEndTurn(actions[0]) {
      var rest := actions[1..];
      EndTurnIsAvailable(rest);
      assert forall i :: 0 <= i < |rest| ==> rest[i] == actions[i + 1];
      if EndTurnAction(rest).Some? {
        LaterEndTurn(actions, EndTurnAction(rest).value);
      } else {
        assert forall i :: 1 <= i < |actions| ==> actions[i] == rest[i - 1];
      }
    }
  }

  lemma LaterEndTurn(actions: seq<Action>, action: string)
    requires actions != [] && !IsEndTurn(actions[0]) && FirstEndTurn(actions[1..], action)
    ensures FirstEndTurn(actions, action)
  {
    var rest := actions[1..];
    var i :| 0 <= i < |rest| && IsEndTurn(rest[i]) && rest[i].id == action
             && forall j :: 0 <= j < i ==> !IsEndTurn(rest[j]);
    assert actions[i + 1] == rest[i];
    forall j | 0 <= j < i + 1 ensures !IsEndTurn(actions[j]) {
      assert j > 0 ==> actions[j] == rest[j - 1];
    }
  }

  ghost predicate DistinctActions(actions: seq<Action>) {
    forall i, j :: 0 <= i < j < |actions| ==> actions[i].id != actions[j].id
  }

  /** When no two actions share an id, what the End Turn id plays is a system action. */
  lemma {:induction false} EndTurnIsSystem(actions: seq<Action>, action: string)
    requires DistinctActions(actions) && FirstEndTurn(actions, action)
    ensures ActionTypeFor(actions, action) == Some(System)
  {
    var i :| 0 <= i < |actions| && IsEndTurn(actions[i]) && actions[i].id == action;
    ActionTypeAt(actions, i);
  }

  lemma {:induction false} ActionTypeAt(actions: seq<Action>, i: nat)
    requires DistinctActions(actions) && i < |actions| && actions[i].available && !actions[i].actionType.Untyped?
    ensures ActionTypeFor(actions, actions[i].id) == Some(actions[i].actionType)
  {
    if i > 0 {
      assert actions[1..][i - 1] == actions[i];
      ActionTypeAt(actions[1..], i - 1);
    }
  }

  predicate CrossedTurnBoundary(dto: Dto, rootTurn: Option<int>) {
    rootTurn.Some? && dto.turn.Some? && dto.turn.value > rootTurn.value
  }
}
