/** The branches a client's requests leave on the server: what is confirmed, and what it may really hold. */
module BranchLog {
  import opened WireContract

  /** One request that may have changed the server's branches. An emulate request is confirmed by
      its results and in doubt when its answer is lost, a fault or unreadable; a release is done
      or in doubt. Rejected and unsent requests change nothing and are not logged. */
  datatype Exchange =
    | Confirmed(ids: set<BranchId>)
    | InDoubt(ids: set<BranchId>)
    | Released(ids: set<BranchId>)
    | ReleaseInDoubt(ids: set<BranchId>)

  predicate Creates(e: Exchange) {
    e.Confirmed? || e.InDoubt?
  }

  /** Confirmed to exist and not known to be released. */
  function LiveAfter(log: seq<Exchange>): set<BranchId> {
    if log == [] then {}
    else
      var front, last := LiveAfter(log[..|log| - 1]), log[|log| - 1];
      match last
      case Confirmed(ids) => front + ids
      case Released(ids) => front - ids
      case _ => front
  }

  /** Named by a request that ended in doubt. */
  function MaybeAfter(log: seq<Exchange>): set<BranchId> {
    if log == [] then {}
    else
      var front, last := MaybeAfter(log[..|log| - 1]), log[|log| - 1];
      if last.InDoubt? then front + last.ids else front
  }

  /** Everything ever created or possibly created. */
  function EverAfter(log: seq<Exchange>): set<BranchId> {
    if log == [] then {}
    else
      var front, last := EverAfter(log[..|log| - 1]), log[|log| - 1];
      if Creates(last) then front + last.ids else front
  }

  /** The request names fresh branches, or releases what is confirmed to exist. */
  ghost predicate Fits(log: seq<Exchange>, e: Exchange) {
    if Creates(e) then e.ids != {} && e.ids !! EverAfter(log) else e.ids <= LiveAfter(log)
  }

  /** Every request fits what came before it. */
  ghost predicate Orderly(log: seq<Exchange>) {
    log == [] ||
    (var front, last := log[..|log| - 1], log[|log| - 1];
     Orderly(front) && Fits(front, last))
  }

  /** One way the server can react to a request, holding `before` and then `after`. */
  ghost predicate Reacts(before: set<BranchId>, e: Exchange, after: set<BranchId>) {
    match e
    case Confirmed(ids) => after == before + ids
    case InDoubt(ids) => before <= after <= before + ids
    case Released(ids) => after == before - ids
    case ReleaseInDoubt(ids) => before - ids <= after <= before
  }

  /** The server may hold exactly these branches after the log. */
  ghost predicate MayHold(log: seq<Exchange>, held: set<BranchId>) {
    if log == [] then held == {}
    else
      var front, last := log[..|log| - 1], log[|log| - 1];
      exists before :: MayHold(front, before) && Reacts(before, last, held)
  }

  /** One more request. */
  lemma NextEntry(log: seq<Exchange>, held: set<BranchId>, e: Exchange, held': set<BranchId>)
    requires Orderly(log) && MayHold(log, held) && Fits(log, e) && Reacts(held, e, held')
    ensures Orderly(log + [e]) && MayHold(log + [e], held')
    ensures LiveAfter(log + [e])
            == if e.Confirmed? then LiveAfter(log) + e.ids else if e.Released? then LiveAfter(log) - e.ids
               else LiveAfter(log)
    ensures EverAfter(log + [e]) == if Creates(e) then EverAfter(log) + e.ids else EverAfter(log)
  {
    assert (log + [e])[..|log|] == log && |log + [e]| == |log| + 1;
  }

  lemma {:induction false} KnownBranches(log: seq<Exchange>)
    requires Orderly(log)
    ensures LiveAfter(log) !! MaybeAfter(log) && LiveAfter(log) + MaybeAfter(log) <= EverAfter(log)
  {
    if log != [] {
      KnownBranches(log[..|log| - 1]);
    }
  }

  /** The server holds nothing but confirmed branches and those of requests in doubt. */
  lemma {:induction false} HeldIsKnown(log: seq<Exchange>, held: set<BranchId>)
    requires Orderly(log) && MayHold(log, held)
    ensures held <= LiveAfter(log) + MaybeAfter(log)
  {
    if log != [] {
      var front := log[..|log| - 1];
      var before :| MayHold(front, before) && Reacts(before, log[|log| - 1], held);
      KnownBranches(front);
      HeldIsKnown(front, before);
    }
  }

  /** And it may hold all of them. */
  lemma {:induction false} AllMayBeHeld(log: seq<Exchange>)
    requires Orderly(log)
    ensures MayHold(log, LiveAfter(log) + MaybeAfter(log))
  {
    if log != [] {
      var front := log[..|log| - 1];
      AllMayBeHeld(front);
      KnownBranches(front);
      assert Reacts(LiveAfter(front) + MaybeAfter(front), log[|log| - 1], LiveAfter(log) + MaybeAfter(log));
    }
  }

  // ----- one run on the log --------------------------------------------------------------

  /** Whatever the server did, it holds nothing new since the first `k` entries. */
  ghost predicate LeavesNothing(log: seq<Exchange>, k: nat)
    requires k <= |log|
  {
    forall held :: MayHold(log, held) ==> held <= LiveAfter(log[..k]) + MaybeAfter(log[..k])
  }

  ghost predicate NoneInDoubt(log: seq<Exchange>, k: nat) {
    forall i :: k <= i < |log| ==> !log[i].InDoubt?
  }

  lemma {:induction false} LaterMaybe(log: seq<Exchange>, k: nat)
    requires k <= |log|
    ensures EverAfter(log[..k]) <= EverAfter(log) && MaybeAfter(log[..k]) <= MaybeAfter(log)
    ensures NoneInDoubt(log, k) ==> MaybeAfter(log) == MaybeAfter(log[..k])
    decreases |log|
  {
    if k < |log| {
      var front := log[..|log| - 1];
      assert front[..k] == log[..k];
      LaterMaybe(front, k);
      if NoneInDoubt(log, k) {
        assert !log[|log| - 1].InDoubt? && forall i :: k <= i < |front| ==> !log[i].InDoubt?;
      }
    } else {
      assert log[..k] == log;
    }
  }

  /** A request in doubt names branches that were not there before. */
  lemma {:induction false} DoubtIsNew(log: seq<Exchange>, k: nat, i: nat)
    requires k <= i < |log| && Orderly(log) && log[i].InDoubt?
    ensures log[i].ids != {} && log[i].ids <= MaybeAfter(log) && log[i].ids !! EverAfter(log[..k])
    decreases |log|
  {
    var front := log[..|log| - 1];
    assert front[..k] == log[..k];
    if i < |front| {
      DoubtIsNew(front, k, i);
    } else {
      LaterMaybe(front, k);
    }
  }

  lemma {:induction false} OrderlyPrefix(log: seq<Exchange>, k: nat)
    requires k <= |log| && Orderly(log)
    ensures Orderly(log[..k])
    decreases |log|
  {
    if k < |log| {
      var front := log[..|log| - 1];
      assert front[..k] == log[..k];
      OrderlyPrefix(front, k);
    } else {
      assert log[..k] == log;
    }
  }

  /** A run that has released all it was told about leaves nothing behind for sure if and only if
      none of its emulate requests ended in doubt. */
  lemma LeavesNothingIff(log: seq<Exchange>, k: nat)
    requires k <= |log| && Orderly(log) && LiveAfter(log) == LiveAfter(log[..k])
    ensures LeavesNothing(log, k) <==> NoneInDoubt(log, k)
  {
    LaterMaybe(log, k);
    OrderlyPrefix(log, k);
    KnownBranches(log[..k]);
    if NoneInDoubt(log, k) {
      forall held | MayHold(log, held) ensures held <= LiveAfter(log[..k]) + MaybeAfter(log[..k]) {
        HeldIsKnown(log, held);
      }
    } else {
      var i :| k <= i < |log| && log[i].InDoubt?;
      DoubtIsNew(log, k, i);
      AllMayBeHeld(log);
      var b :| b in log[i].ids;
      assert b !in LiveAfter(log[..k]) + MaybeAfter(log[..k]);
    }
  }

  /** One request in doubt among others that were confirmed and released again. */
  lemma DoubtOutlivesRelease(created: set<BranchId>, doubtful: set<BranchId>)
    requires created != {} && doubtful != {} && created !! doubtful
    ensures var log := [Confirmed(created), InDoubt(doubtful), Released(created)];
      Orderly(log) && LiveAfter(log) == {} && MayHold(log, doubtful) && !LeavesNothing(log, 0)
  {
    var first := [Confirmed(created)];
    var second := first + [InDoubt(doubtful)];
    assert first == [] + [Confirmed(created)];
    NextEntry([], {}, Confirmed(created), created);
    NextEntry(first, created, InDoubt(doubtful), created + doubtful);
    NextEntry(second, created + doubtful, Released(created), doubtful);
    assert second + [Released(created)] == [Confirmed(created), InDoubt(doubtful), Released(created)];
  }
}
