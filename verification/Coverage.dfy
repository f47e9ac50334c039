/** Structural coverage of a policy's candidates: the end of the turn, a card, a potion or the
    completion of a choice keep a place among the candidates. */
module Coverage {
  import opened Wrappers
  import opened CombatDecision

  /** One candidate; a policy candidate carries its rank in the policy's list. */
  datatype Proposal = Proposal(id: string, policyRank: Option<nat>)

  predicate Usable(a: Action) {
    a.available && !a.actionType.Untyped?
  }

  function UsableActions(actions: seq<Action>): (r: seq<Action>)
    ensures forall a :: a in r <==> a in actions && Usable(a)
  {
    if actions == [] then []
    else
      assert actions == actions[..|actions| - 1] + [actions[|actions| - 1]];
      var front := UsableActions(actions[..|actions| - 1]);
      if Usable(actions[|actions| - 1]) then front + [actions[|actions| - 1]] else front
  }

  predicate HasId(available: seq<Action>, id: string) {
    exists i :: 0 <= i < |available| && available[i].id == id
  }

  /** The action an id stands for: the last one listed under it. */
  function ById(available: seq<Action>, id: string): (r: Option<Action>)
    ensures r.Some? <==> HasId(available, id)
    ensures r.Some? ==> r.value in available && r.value.id == id
  {
    if available == [] then None
    else if available[|available| - 1].id == id then
      assert available[|available| - 1] in available;
      Some(available[|available| - 1])
    else
      assert available == available[..|available| - 1] + [available[|available| - 1]];
      ById(available[..|available| - 1], id)
  }

  function IdsIn(s: seq<Proposal>): (r: seq<string>)
    ensures |r| == |s| && forall i :: 0 <= i < |s| ==> r[i] == s[i].id
  {
    seq(|s|, i requires 0 <= i < |s| => s[i].id)
  }

  ghost predicate DistinctIds(s: seq<Proposal>) {
    forall i, j :: 0 <= i < j < |s| ==> s[i].id != s[j].id
  }

  ghost predicate DistinctStrings(s: seq<string>) {
    forall i, j :: 0 <= i < j < |s| ==> s[i] != s[j]
  }

  // ----- the policy's own candidates ---------------------------------------------------

  /** The first `topK` distinct ids of the policy's list, in its order and with their ranks. */
  ghost predicate PolicySelection(ranked: seq<string>, available: seq<Action>, topK: nat, s: seq<Proposal>) {
    && |s| <= topK && DistinctIds(s)
    && (forall i :: 0 <= i < |s| ==>
          s[i].policyRank.Some? && s[i].policyRank.value < |ranked|
          && ranked[s[i].policyRank.value] == s[i].id && HasId(available, s[i].id))
    && (forall i, j :: 0 <= i < j < |s| ==> s[i].policyRank.value < s[j].policyRank.value)
  }

  /** Nothing was skipped: every id the policy ranked is selected, or comes after the last
      selected one of a full selection. */
  ghost predicate NothingSkipped(ranked: seq<string>, n: nat, topK: nat, s: seq<Proposal>)
    requires n <= |ranked|
  {
    forall r :: 0 <= r < n ==>
      ranked[r] in IdsIn(s) || (|s| == topK > 0 && s[topK - 1].policyRank.Some? && r > s[topK - 1].policyRank.value)
  }

  method SelectRanked(ranked: seq<string>, available: seq<Action>, topK: nat)
    returns (raised: bool, s: seq<Proposal>)
    requires topK > 0
    ensures PolicySelection(ranked, available, topK, s)
    ensures !raised ==> NothingSkipped(ranked, |ranked|, topK, s)
    ensures raised ==> exists r :: 0 <= r < |ranked| && !HasId(available, ranked[r])
  {
    raised, s := false, [];
    for r := 0 to |ranked|
      invariant PolicySelection(ranked, available, topK, s) && |s| < topK
      invariant forall i :: 0 <= i < |s| ==> s[i].policyRank.value < r
      invariant forall q :: 0 <= q < r ==> ranked[q] in IdsIn(s)
    {
      if !HasId(available, ranked[r]) {
        return true, s;
      }
      if ranked[r] !in IdsIn(s) {
        ghost var before := IdsIn(s);
        forall i | 0 <= i < |s| ensures s[i].id != ranked[r] {
          assert IdsIn(s)[i] == s[i].id;
        }
        s := s + [Proposal(ranked[r], Some(r))];
        assert IdsIn(s) == before + [ranked[r]];
        if |s| >= topK {
          return;
        }
      }
    }
  }

  // ----- what has to be covered --------------------------------------------------------

  function FirstOfPolicy(selected: seq<Proposal>, available: seq<Action>, types: set<ActionType>): Option<string> {
    if selected == [] then None
    else
      var action := ById(available, selected[0].id);
      if action.Some? && action.value.actionType in types then Some(selected[0].id)
      else FirstOfPolicy(selected[1..], available, types)
  }

  function FirstAvailable(available: seq<Action>, types: set<ActionType>): Option<string> {
    if available == [] then None
    else if available[0].actionType in types then Some(available[0].id)
    else FirstAvailable(available[1..], types)
  }

  /** The policy's best candidate of these types, or else the first action of them. */
  function BestOrFirst(selected: seq<Proposal>, available: seq<Action>, types: set<ActionType>): Option<string> {
    var best := FirstOfPolicy(selected, available, types);
    if best.Some? then best else FirstAvailable(available, types)
  }

  ghost predicate OfType(available: seq<Action>, id: string, types: set<ActionType>) {
    exists a :: a in available && a.id == id && a.actionType in types
  }

  lemma {:induction false} FirstOfPolicyType(selected: seq<Proposal>, available: seq<Action>, types: set<ActionType>)
    ensures FirstOfPolicy(selected, available, types).Some? ==>
      OfType(available, FirstOfPolicy(selected, available, types).value, types)
  {
    if selected != [] {
      FirstOfPolicyType(selected[1..], available, types);
    }
  }

  lemma {:induction false} FirstAvailableType(all: seq<Action>, available: seq<Action>, types: set<ActionType>)
    requires forall a :: a in available ==> a in all
    ensures FirstAvailable(available, types).Some? <==> exists a :: a in available && a.actionType in types
    ensures FirstAvailable(available, types).Some? ==> OfType(all, FirstAvailable(available, types).value, types)
  {
    if available != [] {
      assert available == [available[0]] + available[1..];
      FirstAvailableType(all, available[1..], types);
    }
  }

  /** It is there exactly when some available action has one of the types, and has one of them. */
  lemma BestOrFirstCovers(selected: seq<Proposal>, available: seq<Action>, types: set<ActionType>)
    ensures var best := BestOrFirst(selected, available, types);
      && (best.Some? <==> exists a :: a in available && a.actionType in types)
      && (best.Some? ==> OfType(available, best.value, types) && HasId(available, best.value))
  {
    FirstOfPolicyType(selected, available, types);
    FirstAvailableType(available, available, types);
    var best := BestOrFirst(selected, available, types);
    if best.Some? {
      var a :| a in available && a.id == best.value && a.actionType in types;
      var i :| 0 <= i < |available| && available[i] == a;
    }
  }

  /** The policy selected `id` for its first candidate of these types. */
  ghost predicate PolicyBest(selected: seq<Proposal>, available: seq<Action>, types: set<ActionType>, id: string) {
    exists i :: 0 <= i < |selected| && selected[i].id == id && Named(available, id, types)
                && forall j :: 0 <= j < i ==> !Named(available, selected[j].id, types)
  }

  /** The action known by this id has one of the types. */
  ghost predicate Named(available: seq<Action>, id: string, types: set<ActionType>) {
    ById(available, id).Some? && ById(available, id).value.actionType in types
  }

  ghost predicate FirstListed(available: seq<Action>, types: set<ActionType>, id: string) {
    exists i :: 0 <= i < |available| && available[i].actionType in types && available[i].id == id
                && forall j :: 0 <= j < i ==> available[j].actionType !in types
  }

  /** The policy's own best candidate of these types; the first action of them only when the policy
      selected none. */
  ghost predicate BestFor(selected: seq<Proposal>, available: seq<Action>, types: set<ActionType>, id: string) {
    || PolicyBest(selected, available, types, id)
    || ((forall i :: 0 <= i < |selected| ==> !Named(available, selected[i].id, types))
        && FirstListed(available, types, id))
  }

  lemma {:induction false} FirstOfPolicyIs(selected: seq<Proposal>, available: seq<Action>, types: set<ActionType>,
                                           id: string)
    ensures FirstOfPolicy(selected, available, types) == Some(id) <==> PolicyBest(selected, available, types, id)
    ensures FirstOfPolicy(selected, available, types).None? <==>
      forall i :: 0 <= i < |selected| ==> !Named(available, selected[i].id, types)
  {
    if selected != [] {
      var rest := selected[1..];
      FirstOfPolicyIs(rest, available, types, id);
      assert forall i :: 1 <= i < |selected| ==> selected[i] == rest[i - 1];
      if !Named(available, selected[0].id, types) && PolicyBest(rest, available, types, id) {
        var i :| 0 <= i < |rest| && rest[i].id == id && Named(available, id, types)
                 && forall j :: 0 <= j < i ==> !Named(available, rest[j].id, types);
        assert selected[i + 1].id == id;
      }
    }
  }

  lemma {:induction false} FirstAvailableIs(available: seq<Action>, types: set<ActionType>, id: string)
    ensures FirstAvailable(available, types) == Some(id) <==> FirstListed(available, types, id)
  {
    if available != [] {
      var rest := available[1..];
      FirstAvailableIs(rest, types, id);
      assert forall i :: 1 <= i < |available| ==> available[i] == rest[i - 1];
      if available[0].actionType !in types && FirstListed(rest, types, id) {
        var i :| 0 <= i < |rest| && rest[i].actionType in types && rest[i].id == id
                 && forall j :: 0 <= j < i ==> rest[j].actionType !in types;
        assert available[i + 1].id == id;
      }
    }
  }

  lemma BestOrFirstIs(selected: seq<Proposal>, available: seq<Action>, types: set<ActionType>, id: string)
    ensures BestOrFirst(selected, available, types) == Some(id) <==> BestFor(selected, available, types, id)
  {
    FirstOfPolicyIs(selected, available, types, id);
    FirstAvailableIs(available, types, id);
  }

  function AddOnce(required: seq<string>, id: Option<string>): (r: seq<string>)
    ensures forall x :: x in r <==> x in required || Some(x) == id
    ensures DistinctStrings(required) ==> DistinctStrings(r)
    ensures |r| <= |required| + 1
  {
    if id.None? || id.value in required then required else required + [id.value]
  }

  predicate HasType(available: seq<Action>, t: ActionType) {
    exists i :: 0 <= i < |available| && available[i].actionType == t
  }

  const COMPLETIONS: set<ActionType> := {ChoiceConfirm, ChoiceSkip}

  function CutTo(ids: seq<string>, n: nat): seq<string> {
    ids[..if |ids| < n then |ids| else n]
  }

  ghost predicate RegularCombat(available: seq<Action>) {
    HasType(available, System) && (HasType(available, Card) || HasType(available, Potion))
  }

  function RequiredIds(selected: seq<Proposal>, available: seq<Action>, topK: nat): (r: seq<string>)
    ensures |r| <= topK && DistinctStrings(r)
  {
    if topK < 2 then []
    else
      var regular := HasType(available, System) && (HasType(available, Card) || HasType(available, Potion));
      var system := if regular then AddOnce([], BestOrFirst(selected, available, {System})) else [];
      var card := if regular then AddOnce(system, BestOrFirst(selected, available, {Card})) else system;
      var potion := if regular && topK >= 3 then AddOnce(card, BestOrFirst(selected, available, {Potion})) else card;
      var all := if HasType(available, ChoiceCard) then AddOnce(potion, BestOrFirst(selected, available, COMPLETIONS))
                 else potion;
      CutTo(all, topK)
  }

  /** What has to be covered: in regular combat the best End Turn and the best card, from three
      candidates on the best potion; with card choices open, the best way to end the choice. With
      fewer than two candidates nothing has to be. */
  lemma RequiredIff(s: seq<Proposal>, available: seq<Action>, topK: nat, x: string)
    ensures x in RequiredIds(s, available, topK) ==> topK >= 2
    ensures topK >= 2 && RegularCombat(available)
            && (BestFor(s, available, {System}, x) || BestFor(s, available, {Card}, x)
                || (topK >= 3 && BestFor(s, available, {Potion}, x)))
      ==> x in RequiredIds(s, available, topK)
    ensures topK >= 2 && HasType(available, ChoiceCard) && (topK >= 4 || !RegularCombat(available))
            && BestFor(s, available, COMPLETIONS, x)
      ==> x in RequiredIds(s, available, topK)
    ensures x in RequiredIds(s, available, topK) ==>
      || (RegularCombat(available)
          && (BestFor(s, available, {System}, x) || BestFor(s, available, {Card}, x)
              || (topK >= 3 && BestFor(s, available, {Potion}, x))))
      || (HasType(available, ChoiceCard) && BestFor(s, available, COMPLETIONS, x))
  {
    if topK >= 2 {
      BestOrFirstIs(s, available, {System}, x);
      BestOrFirstIs(s, available, {Card}, x);
      BestOrFirstIs(s, available, {Potion}, x);
      BestOrFirstIs(s, available, COMPLETIONS, x);
      var regular := RegularCombat(available);
      var card := if regular then AddOnce(AddOnce([], BestOrFirst(s, available, {System})),
                                          BestOrFirst(s, available, {Card})) else [];
      var potion := if regular && topK >= 3 then AddOnce(card, BestOrFirst(s, available, {Potion})) else card;
      var completion := if HasType(available, ChoiceCard) then BestOrFirst(s, available, COMPLETIONS) else None;
      var all := AddOnce(potion, completion);
      assert RequiredIds(s, available, topK) == CutTo(all, topK);
      CutKeeps(potion, completion, topK, x);
    }
  }

  lemma CutKeeps(ids: seq<string>, more: Option<string>, n: nat, x: string)
    requires |ids| <= n
    ensures x in ids ==> x in CutTo(AddOnce(ids, more), n)
    ensures |ids| < n && more == Some(x) ==> x in CutTo(AddOnce(ids, more), n)
    ensures x in CutTo(AddOnce(ids, more), n) ==> x in ids || more == Some(x)
  {
    var all := AddOnce(ids, more);
    assert all[..|ids|] == ids && CutTo(all, n)[..|ids|] == ids;
  }

  // ----- covering ----------------------------------------------------------------------

  /** The outcome: the policy's selection with some candidates replaced in place and some added
      at the end. What was replaced was not required, and everything after it that is not
      required was replaced as well. */
  ghost predicate Covers(s: seq<Proposal>, required: seq<string>, n: nat, topK: nat, r: seq<Proposal>)
    requires n <= |required|
  {
    && |s| <= |r| <= topK && DistinctIds(r)
    && (forall k :: 0 <= k < n ==> required[k] in IdsIn(r))
    && (forall i :: 0 <= i < |r| ==> (i < |s| && r[i] == s[i]) || (r[i].policyRank.None? && r[i].id in required[..n]))
    && (forall i :: 0 <= i < |s| && r[i] != s[i] ==> s[i].id !in required && |r| == topK)
    && (forall i, j :: 0 <= i < j < |s| && r[i] != s[i] && s[j].id !in required ==> r[j] != s[j])
  }

  /** The last candidate that is not required. */
  function LastUnprotected(r: seq<Proposal>, required: seq<string>, n: nat): (at: Option<nat>)
    requires n <= |r|
    ensures at.Some? ==> at.value < n && r[at.value].id !in required
    ensures at.Some? ==> forall i :: at.value < i < n ==> r[i].id in required
    ensures at.None? ==> forall i :: 0 <= i < n ==> r[i].id in required
  {
    if n == 0 then None
    else if r[n - 1].id !in required then Some(n - 1)
    else LastUnprotected(r, required, n - 1)
  }

  /** A full list that misses a required id has a candidate to give up. */
  lemma SomethingToGiveUp(r: seq<Proposal>, required: seq<string>, missing: string)
    requires DistinctIds(r) && |required| <= |r| && missing in required && missing !in IdsIn(r)
    ensures LastUnprotected(r, required, |r|).Some?
  {
    if LastUnprotected(r, required, |r|).None? {
      var ids, needed := set i | 0 <= i < |r| :: r[i].id, set x | x in required;
      DistinctCount(r);
      RequiredCount(required);
      forall x | x in ids ensures x in needed - {missing} {
        var i :| 0 <= i < |r| && r[i].id == x;
        assert IdsIn(r)[i] == x;
      }
      Smaller(ids, needed, missing);
    }
  }

  lemma Smaller(a: set<string>, b: set<string>, x: string)
    requires a <= b - {x} && x in b
    ensures |a| < |b|
  {
    var rest := b - {x};
    assert rest == a + (rest - a);
    assert b == rest + {x};
  }

  lemma {:induction false} DistinctCount(r: seq<Proposal>)
    requires DistinctIds(r)
    ensures |set i | 0 <= i < |r| :: r[i].id| == |r|
  {
    if r != [] {
      var front := r[..|r| - 1];
      DistinctCount(front);
      assert (set i | 0 <= i < |r| :: r[i].id) == (set i | 0 <= i < |front| :: front[i].id) + {r[|r| - 1].id};
    }
  }

  lemma {:induction false} RequiredCount(required: seq<string>)
    ensures |set x | x in required| <= |required|
  {
    if required != [] {
      var front, last := required[..|required| - 1], required[|required| - 1];
      assert required == front + [last];
      RequiredCount(front);
      assert (set x | x in required) == (set x | x in front) + {last};
    }
  }

  lemma AddedAtEnd(s: seq<Proposal>, required: seq<string>, n: nat, topK: nat, r: seq<Proposal>)
    requires n < |required| && Covers(s, required, n, topK, r) && |r| < topK && required[n] !in IdsIn(r)
    ensures Covers(s, required, n + 1, topK, r + [Proposal(required[n], None)])
  {
    var r' := r + [Proposal(required[n], None)];
    assert required[..n + 1] == required[..n] + [required[n]];
    assert IdsIn(r') == IdsIn(r) + [required[n]];
    forall i | 0 <= i < |r| ensures r[i].id != required[n] {
      assert IdsIn(r)[i] == r[i].id;
    }
  }

  lemma AlreadyThere(s: seq<Proposal>, required: seq<string>, n: nat, topK: nat, r: seq<Proposal>)
    requires n < |required| && Covers(s, required, n, topK, r) && required[n] in IdsIn(r)
    ensures Covers(s, required, n + 1, topK, r)
  {
    assert required[..n + 1] == required[..n] + [required[n]];
  }

  lemma ReplacedInPlace(s: seq<Proposal>, required: seq<string>, n: nat, topK: nat, r: seq<Proposal>, at: nat)
    requires n < |required| && Covers(s, required, n, topK, r) && |r| == topK && required[n] !in IdsIn(r)
    requires LastUnprotected(r, required, |r|) == Some(at)
    ensures Covers(s, required, n + 1, topK, r[at := Proposal(required[n], None)])
  {
    var p := Proposal(required[n], None);
    var r' := r[at := p];
    assert required[..n + 1] == required[..n] + [required[n]];
    forall i | 0 <= i < |r| ensures r[i].id != required[n] {
      assert IdsIn(r)[i] == r[i].id;
    }
    forall k | 0 <= k < n + 1 ensures required[k] in IdsIn(r') {
      if k == n {
        assert IdsIn(r')[at] == required[n];
      } else {
        var i :| 0 <= i < |r| && IdsIn(r)[i] == required[k];
        assert i != at && IdsIn(r')[i] == required[k];
      }
    }
    assert forall x :: x in required[..n] ==> x in required;
  }

  /** Retains the structural branches. The result has at most `topK` distinct candidates and all
      required ids; a policy candidate that stays keeps its place and rank, and only the
      lowest-ranked ones that are not required give way, one for each id that has no room. */
  method Cover(ranked: seq<string>, legal: seq<Action>, topK: nat)
    returns (raised: bool, r: seq<Proposal>, ghost s: seq<Proposal>, ghost required: seq<string>)
    requires topK > 0
    ensures PolicySelection(ranked, UsableActions(legal), topK, s)
    ensures !raised ==> NothingSkipped(ranked, |ranked|, topK, s)
    ensures required == RequiredIds(s, UsableActions(legal), topK)
    ensures !raised ==> Covers(s, required, |required|, topK, r)
  {
    var available := UsableActions(legal);
    var selected;
    raised, selected := SelectRanked(ranked, available, topK);
    s, r := selected, selected;
    var needed := RequiredIds(selected, available, topK);
    required := needed;
    if raised {
      return;
    }
    assert forall i :: 0 <= i < |s| ==> r[i] == s[i];
    for n := 0 to |needed|
      invariant Covers(s, needed, n, topK, r)
    {
      if needed[n] in IdsIn(r) {
        AlreadyThere(s, needed, n, topK, r);
      } else if |r| < topK {
        AddedAtEnd(s, needed, n, topK, r);
        r := r + [Proposal(needed[n], None)];
      } else {
        SomethingToGiveUp(r, needed, needed[n]);
        var at := LastUnprotected(r, needed, |r|);
        ReplacedInPlace(s, needed, n, topK, r, at.value);
        r := r[at.value := Proposal(needed[n], None)];
      }
    }
  }

  /** Every candidate of a covered list is an available action. */
  lemma CoveredAreAvailable(s: seq<Proposal>, ranked: seq<string>, available: seq<Action>, topK: nat, r: seq<Proposal>)
    requires PolicySelection(ranked, available, topK, s)
    requires Covers(s, RequiredIds(s, available, topK), |RequiredIds(s, available, topK)|, topK, r)
    ensures forall i :: 0 <= i < |r| ==> HasId(available, r[i].id)
  {
    RequiredAreAvailable(s, available, topK);
    var required := RequiredIds(s, available, topK);
    assert required[..|required|] == required;
  }

  ghost predicate AllAvailable(available: seq<Action>, ids: seq<string>) {
    forall x :: x in ids ==> HasId(available, x)
  }

  lemma AddOnceAvailable(available: seq<Action>, ids: seq<string>, selected: seq<Proposal>, types: set<ActionType>)
    requires AllAvailable(available, ids)
    ensures AllAvailable(available, AddOnce(ids, BestOrFirst(selected, available, types)))
  {
    BestOrFirstCovers(selected, available, types);
  }

  lemma RequiredAreAvailable(s: seq<Proposal>, available: seq<Action>, topK: nat)
    ensures AllAvailable(available, RequiredIds(s, available, topK))
  {
    if topK >= 2 {
      var regular := HasType(available, System) && (HasType(available, Card) || HasType(available, Potion));
      AddOnceAvailable(available, [], s, {System});
      var system := if regular then AddOnce([], BestOrFirst(s, available, {System})) else [];
      AddOnceAvailable(available, system, s, {Card});
      var card := if regular then AddOnce(system, BestOrFirst(s, available, {Card})) else system;
      AddOnceAvailable(available, card, s, {Potion});
      var potion := if regular && topK >= 3 then AddOnce(card, BestOrFirst(s, available, {Potion})) else card;
      AddOnceAvailable(available, potion, s, COMPLETIONS);
    }
  }

  /** In regular combat, a covered list of at least two candidates can end the turn and, when a
      card can be played, plays one. */
  lemma CoveredCombat(s: seq<Proposal>, available: seq<Action>, topK: nat, r: seq<Proposal>)
    requires topK >= 2 && HasType(available, System) && HasType(available, Card)
    requires Covers(s, RequiredIds(s, available, topK), |RequiredIds(s, available, topK)|, topK, r)
    ensures exists i :: 0 <= i < |r| && OfType(available, r[i].id, {System})
    ensures exists i :: 0 <= i < |r| && OfType(available, r[i].id, {Card})
  {
    var system, card := BestOrFirst(s, available, {System}), BestOrFirst(s, available, {Card});
    BestOrFirstCovers(s, available, {System});
    BestOrFirstCovers(s, available, {Card});
    TypeIsListed(available, System);
    TypeIsListed(available, Card);
    var required := RequiredIds(s, available, topK);
    assert system.Some? && card.Some?;
    FirstTwoRequired(s, available, topK);
    CoveredId(s, required, topK, r, system.value);
    CoveredId(s, required, topK, r, card.value);
  }

  lemma TypeIsListed(available: seq<Action>, t: ActionType)
    requires HasType(available, t)
    ensures exists a :: a in available && a.actionType in {t}
  {
    var i :| 0 <= i < |available| && available[i].actionType == t;
    assert available[i] in available;
  }

  lemma FirstTwoRequired(s: seq<Proposal>, available: seq<Action>, topK: nat)
    requires topK >= 2 && HasType(available, System) && HasType(available, Card)
    requires BestOrFirst(s, available, {System}).Some? && BestOrFirst(s, available, {Card}).Some?
    ensures BestOrFirst(s, available, {System}).value in RequiredIds(s, available, topK)
    ensures BestOrFirst(s, available, {Card}).value in RequiredIds(s, available, topK)
  {
    var system := AddOnce([], BestOrFirst(s, available, {System}));
    var card := AddOnce(system, BestOrFirst(s, available, {Card}));
    var required := RequiredIds(s, available, topK);
    assert |card| <= 2 && card <= required;
    assert forall i :: 0 <= i < |card| ==> required[i] == card[i];
  }

  lemma CoveredId(s: seq<Proposal>, required: seq<string>, topK: nat, r: seq<Proposal>, id: string)
    requires Covers(s, required, |required|, topK, r) && id in required
    ensures exists i :: 0 <= i < |r| && r[i].id == id
  {
    var k :| 0 <= k < |required| && required[k] == id;
    var i :| 0 <= i < |r| && IdsIn(r)[i] == id;
  }
}
