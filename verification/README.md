# Verified model of the training client and the decision search

This project models, in Dafny, the parts of `sts2_training` whose correctness spans many calls:
the request sequencing towards the RL server, the beam search over emulated combat branches, and
the arithmetic and data preparation of the learned pruner around it. `dafny verify dfyconfig.toml`
checks all of it.

## The parts

**Sessions.** `WireContract` holds requests, answers and what the wire contract allows.
`SelectionAudit`, `TrainingClient` and `EventBranchSearch` are the classes and methods of the
client as the repository has them: fields that every call reassigns, loops over batches, and a
connection whose outcome is arbitrary. `SessionClient` is what they are proved against: the
client's state after each outcome. `SessionWorld` puts that client on a reconnectable stream that
may lose, delay or cut anything, in front of a server that caches its last exchange, and proves
what holds in every run: each sequence is executed at most once, the client never meets a conflict
or a gap, an uncertain request is resolved by its own answer, and a deferred branch release runs as
the very next sequence. `SessionLimits` adds that no batch ever exceeds the limit of the instance it is
for, and `SessionSelections` that every selection is logged. `SessionRuns` has runs that show where these
promises end.

**Beam search.** `BeamModel` has nodes, fresh ids and the emulator behind the client, whose
preconditions are the wire contract and the existence of every branch a request names, so each call
site proves both, and a log (`BranchLog`) of what the server may hold. `BeamPlan` proposes and fits a
ply into the active-branch budget, `BeamEmulate` runs it with chunked requests and local retries,
`BeamFrontier` scores it, `BeamPly` moves the frontier on, `BeamSettle` settles leaves at the turn
boundary. The client also keeps, as history, the answer to every branch it confirmed: nodes, leaves and
settled values are tied to it. `BeamState` is the state of a search
with its invariants: branch ownership, no node twice, one level for the whole frontier, and the tree
of parents. `BeamSearch` is the search itself, a class over the lists the code mutates, from the
first proposal to the cleanup on every way out. `Engine` decides one action at the root with event
evaluation, search and fallback.

**Targets, values and learning.** `OracleTargets` derives node targets from a recorded search by two
graph walks, `RootTargets` the estimates of the root's actions, and `ValueSamples` joins those with
the states the actions lead to. `DamageRace` is the value model over exact reals. `PlackettLuce` and
`PrunerSteps` are the exploring pruner, its probabilities and gradient, and the updater's check of a recorded step;
`ReinforceUpdate` is the update itself, and `Supergradient` shows that its gradient is a tangent to the
log-probability.
`Ranking` is the stable descending sort they share. `Coverage` is the structural coverage of policy
candidates, `SelectionMetrics` the training pairs and offline metrics, `CardCells` the printed cells
of the card table and their parsers.

## Assumptions about the surroundings

- The server admits only the sequence after its last one, replays an exact repeat of that one and
  refuses anything else; a `transport_error` frame means the request was not admitted
  (`README.md:61-66`, `src/sts2_training/api/tcp_connection.py:353-361`).
- The emulator never offers a choice action next to others. `BeamFrontier.MixedStateNeverAdvances`
  shows what happens otherwise.
- The value model is a function of the state; policy and pruner are arbitrary. The root decision has
  a non-empty decision point, as the client requires of a decision
  (`src/sts2_training/api/contract.py:467`).
- Deadlines may pass at any test; every nondeterministic outcome is considered.
- A search knows of a branch from a successful emulate call until a successful release. The server
  may also hold the branches of emulate requests that were sent and then lost, faulted or answered
  unreadably; `BranchLog` says what it can hold. An uncertain request leaves the client unusable, as
  `TrainingClient` shows.

## Where code and documentation differ

- `damage_race_value.py:43-46` says only three splits of a turn's energy can be optimal. The cost has
  a second kink, where just enough attack is kept to kill everything;
  `DamageRace.TurnCostOptimalIff` gives the exact condition and `DamageRace.ThreeSplitsCanMiss` a
  position where the three miss it.
- A replayed `release_branches` that is itself refused consumes its sequence but keeps its cleanup
  record (`async_client.py:296-304`, `698-709`). The record then belongs to no pending request, and
  the next uncertain evaluation cannot hand its branches over.
- The active-branch fit does not count nodes without candidates nor branches abandoned by a retry;
  the bound proved for a whole search is the budget plus exactly those two.
- The audit recognises a recovery by request id and branch. A different selection sent under a
  sequence that was never consumed is labelled a recovery as well
  (`SessionRuns.OtherActionLoggedAsRecovery`); it is the request and branch that are logged once, not
  the action.
- The final cleanup of a search is silent about branches it was never told of. A request whose answer
  is lost, a fault or unreadable puts nothing on record (`beam_search.py:994-996`, `1465-1477`), so the
  cleanup can complete while the server holds its batch; `BranchLog.LeavesNothingIff` gives the exact
  condition, `BeamSearch.LostFirstRequest` and `BeamSearch.FaultedRequestStays` two such runs.
- The list of leaves may hold the root twice: as it is and as the line that ends the turn at once. That
  is possible exactly when leaves are settled at the turn boundary and the root is resolved and offers
  End Turn (`BeamSearch.RootMayRepeatIff`, `BeamSearch.RootTwiceExists`).
- An event evaluation only logs a final release that was not sent or was rejected, and raises on a fault
  (`event_branch_search.py:225-259`). Its branches are then owned by nobody on a session that goes on;
  `EventBranchSearch.BestEventOption` says so and `SessionRuns.FinalReleaseRefused` is such a run.

## Model

| member | source | states |
|---|---|---|
| `WireContract.BuildEmulateActions` | src/sts2_training/api/contract.py:204-280 | The batch builder succeeds on exactly the batches the wire contract allows (inside the server limit, well-formed items, distinct new branches, no parent created by a sibling), and every error names a fault that is really there |
| `SelectionAudit.Audit.RecordAction` | src/sts2_training/selection_log.py:86-101 | One recorded answer: an event that is a recovery exactly when the same sequence and branch were remembered, and the bookkeeping moved to that sequence |
| `SelectionAudit.RecordedAllKeepsPromise` | src/sts2_training/selection_log.py:102-201 | Recording a batch for the sequence in turn keeps the promise that every pair of request and branch has one `selection`, first, and only recoveries after it |
| `SelectionAudit.SelectionLoggedOnce` | src/sts2_training/selection_log.py:86-101 | Of two events for the same request and branch, the later one is always a recovery |
| `SessionClient.CallKeepsInv` | src/sts2_training/api/async_client.py:654-788 | Every outcome of every fresh call and of every exact replay keeps the client invariant: a pending retry carries the next sequence on a live session, a deferred release matches its token, and the audit promise holds |
| `SessionClient.CallSequence` | src/sts2_training/api/async_client.py:654-712 | A definitive answer consumes exactly one sequence, an uncertain one leaves the request pending at the same sequence, and only an epoch change or a session rejection ends the session |
| `SessionClient.PendingIsNeverForgotten` | src/sts2_training/api/async_client.py:767-788 | A pending request stays pending, is consumed by an answer to exactly itself, or goes down with the session |
| `SessionClient.CleanupClaimKeepsInv` | src/sts2_training/api/async_client.py:582-652 | When a replay resolves, what its cleanup record still owes becomes the next executable request, and the record follows it as its token |
| `SessionClient.DeferKeepsInv` | src/sts2_training/api/async_client.py:103-155 | Deferring branches on the pending retry keeps the invariant and covers every branch the uncertain request may have created |
| `SessionClient.RetryKeepsCleanupAnchored` | src/sts2_training/api/async_client.py:190-318 | A whole retry, with both of its exchanges, keeps a deferred release attached to the pending request if and only if it did not replay that release and see it refused |
| `SessionWorld.StepKeepsInv` | src/sts2_training/api/tcp_connection.py:87-169 | Every step of client, connection, stream and server (connecting, sending, losing, late delivery, restart, answering) keeps the joint invariant |
| `SessionWorld.ExecutedAtMostOnce` | README.md:47-66 | In every run the executed sequences are 1, 2, 3, ... and none is executed twice, across retries, lost answers, late copies and server restarts |
| `SessionWorld.ServerAtMostOneAhead` | src/sts2_training/api/async_client.py:654-712 | In every run the server stands at the client's last consumed sequence or one ahead; one ahead, what it executed is the exact request the client still holds; consumed answers are a prefix of executed ones |
| `SessionWorld.NeverAConflictOrGap` | README.md:64-66 | In every run no reply a live client reads is a sequence conflict or a sequence gap |
| `SessionWorld.UncertainRequestResolvedExactly` | src/sts2_training/api/async_client.py:760-788 | From the moment a request is completion-uncertain, every later state of the run still owes it, has ended the session, or answered its sequence with exactly that request |
| `SessionWorld.EverySelectionLoggedOnce` | src/sts2_training/api/async_client.py:714-758 | After any run with replays, unsent failures and instance changes, each logged pair of request and branch has exactly one `selection` event |
| `SessionSelections.EverySelectionIsLogged` | src/sts2_training/api/async_client.py:714-758 | In every state of every run, each selection that was answered or is still owed is in the log under its own request, for each branch it selects, and no event speaks of anything its request does not select |
| `SessionSelections.LogOnlyGrows` | src/sts2_training/selection_log.py:102-201 | No logged event is ever taken back |
| `SessionLimits.InstanceIsLastStarted` | src/sts2_training/api/contract.py:115-132 | In every state of every run, the client's instance and batch limit are those of the last completed start it was answered, with no completed or faulted close after it, and it has none exactly when every started instance was closed |
| `SessionLimits.HeldBatchWithinLimit` | src/sts2_training/api/contract.py:220-230 | So in every run no batch that can be built, is pending or is in flight names another instance or is longer than that start's limit |
| `SessionLimits.OverLimitIsRefused` | src/sts2_training/api/contract.py:220-230 | A batch longer than the limit of the last start is refused before anything is sent |
| `SessionLimits.ExecutedBatchesWithinLimit` | src/sts2_training/api/contract.py:220-230 | And whatever copies arrive late, every batch a server executes is within the limit that the last start before it announced |
| `SessionWorld.StepKeepsAnchor` | src/sts2_training/api/async_client.py:296-304 | A step detaches a deferred release from the pending request if and only if it answers the replay of that release with a refusal |
| `SessionWorld.DeferredReleaseNeverForgotten` | src/sts2_training/api/async_client.py:582-652 | In every run without such a refusal, a recorded cleanup is always the pending request, so nothing is sent before it |
| `SessionWorld.DeferredCleanupRunsNext` | src/sts2_training/api/async_client.py:190-318 | In every run, once cleanup is deferred on an uncertain emulate request, only the exact replay comes before it, and the very next sequence releases exactly the deferred branches, less those a rejected replay would have created |
| `SessionWorld.RecoveredCleanupLeavesNothing` | src/sts2_training/api/async_client.py:582-652 | When that release completes, none of the recorded branches is left on the server, neither those owned before nor those the uncertain request may have created |
| `TrainingClient.TcpConnection.Exchange` | src/sts2_training/api/tcp_connection.py:87-169 | Which of the outcomes of one exchange can happen: the request counts as maybe-delivered exactly once the frame was handed to the stream, and a transport-error frame means it was not admitted |
| `TrainingClient.AsyncTrainingApiClient.Execute` | src/sts2_training/api/async_client.py:654-712 | The sequencing method's new state is the specified one for the outcome it met |
| `TrainingClient.AsyncTrainingApiClient.Call` | src/sts2_training/api/async_client.py:714-788 | A fresh call fails closed while a request is pending or the session is over, and otherwise moves the client to the specified state |
| `TrainingClient.AsyncTrainingApiClient.DeferBranchCleanupAfterRetry` | src/sts2_training/api/async_client.py:103-155 | Accepts exactly the hand-overs the specification accepts, and records exactly those branches |
| `TrainingClient.AsyncTrainingApiClient.CompleteDeferredBranchCleanup` | src/sts2_training/api/async_client.py:582-631 | Releases exactly what the record owes, as the next sequence, and clears the record only on an answer that settles it |
| `TrainingClient.AsyncTrainingApiClient.RetryRequest` | src/sts2_training/api/async_client.py:190-318 | Replays only the exact pending token; both exchanges together leave the client in the specified state |
| `EventBranchSearch.BestFromBatch` | src/sts2_training/decision/event_branch_search.py:282-295 | The chosen option is the first with the highest HP in the answer; there is none exactly when the answer lets the player survive in none |
| `EventBranchSearch.EvaluateSingly` | src/sts2_training/decision/event_branch_search.py:165-211 | One request per option, each for that option's own action, branch and random stream; the choice is the first option whose own answer leaves the most HP, and none when all were tried and none survives |
| `EventBranchSearch.UncertainHandOver` | src/sts2_training/decision/event_branch_search.py:269-280 | After an uncertain emulate request, everything the evaluation may own is handed to the retry token if and only if no older cleanup record is around |
| `EventBranchSearch.RefusedReleaseStrandsNextEvaluation` | src/sts2_training/api/async_client.py:296-304 | A refused release replay leaves its record behind, and the next uncertain evaluation can then hand nothing over |
| `SessionRuns.RefusedReleaseReached` | src/sts2_training/api/async_client.py:698-709 | A run, step by step, that reaches such a refusal: the record stays and its request is gone |
| `SessionRuns.FinalReleaseRefused` | src/sts2_training/decision/event_branch_search.py:225-259 | A run in which an evaluation's branch is created and its final release refused: the session goes on with nothing pending or deferred, and the branch is still on the server |
| `SessionRuns.OtherActionLoggedAsRecovery` | src/sts2_training/selection_log.py:86-101 | A run in which a different action sent under a sequence that was never consumed is logged as a recovery of the first |
| `EventBranchSearch.BestEventOption` | src/sts2_training/decision/event_branch_search.py:68-259 | By the outcomes of the evaluation's own requests, the choice is the first option that leaves the most HP, none exactly when every option was tried and none survives, and it raises only after a request without a conclusive answer or a release that failed. On a session that stays valid with release budget left, every branch the evaluation may have created is named by the release on the way out or deferred on the exact retry token; if that release was not sent, turned away, rejected or faulted nobody releases the branch, and otherwise it is gone, or waits for the replay of the release or of the uncertain request, exactly one of these |
| `Decimals.PrintNatInjective` | src/sts2_training/decision/beam_search.py:228-236 | Branch counters print differently, which is what makes allocated ids unique |
| `CombatDecision.CollectAvailableTypes` | src/sts2_training/decision/combat_decision.py:20-35 | The loop returns the set of types of the available actions, and nothing as soon as one of them carries no type |
| `CombatDecision.SelectedActionType` | src/sts2_training/decision/combat_decision.py:37-57 | In a searchable state every available action has a type, and it is a continuation type exactly in continuation states |
| `CombatDecision.EndTurnIsAvailable` | src/sts2_training/decision/beam_search.py:1967-1983 | There is a forced End Turn exactly when some available system action has an id, and it is the first of these |
| `CombatDecision.EndTurnIsSystem` | src/sts2_training/decision/beam_search.py:1967-1983 | When no two actions share an id, what that id plays is a system action and no card |
| `BeamModel.BranchNameInjective` | src/sts2_training/decision/beam_search.py:228-236 | Two counters never give the same branch id |
| `BeamModel.BranchIdAllocator.NextBranchId` | src/sts2_training/decision/beam_search.py:234-236 | Each id is one never issued before and never the root's |
| `BeamEmulate.TrackedKeepsInv` | src/sts2_training/decision/beam_search.py:994-1014 | Booking one result (final, or waiting for another attempt) keeps the depth batch's bookkeeping: every logical item is final or waiting, never both, under the same parent, action and rng |
| `BeamEmulate.NextRoundKeepsInv` | src/sts2_training/decision/beam_search.py:914-923 | A retry round under fresh ids keeps that bookkeeping |
| `BeamEmulate.EmulateDepthBatch` | src/sts2_training/decision/beam_search.py:925-1029 | A depth batch without a fatal reason returns one result per logical item in input order with parent, action and rng unchanged, and creates items plus retried faults branches; each result is what the server answered when asked for exactly that move, and only branches it answered unresolved are tried again; no item is tried more than the allowed attempts, stopped early or not, and every request it sends passes the wire contract and names only existing parents |
| `BeamFrontier.ScoreFrontier` | src/sts2_training/decision/beam_search.py:1031-1210 | The two-pass scoring gives every emulated branch the verdict of its own state and score, so faulted, out of scope, continuation-limited, leaf and expandable split the items of a ply |
| `BeamFrontier.VerdictIff` | src/sts2_training/decision/beam_search.py:1072-1200 | Exactly when an item goes on, ends its line, runs out of choices or falls out of scope: going on takes a state in scope that is not terminal, has a decision point, is not an unwanted partial result nor in the next player turn, and a choice or a move that is still allowed |
| `BeamFrontier.ExpandableAdvances` | src/sts2_training/decision/beam_search.py:1122-1200 | A survivor is a sound node one move or one choice further, with depth or steps left, and a resolved one carries the fresh score of its own state |
| `BeamFrontier.PliesDecrease` | src/sts2_training/decision/beam_search.py:1129-1131 | Every level a ply leads to is strictly closer to the end |
| `BeamFrontier.RootLevelWithinBound` | src/sts2_training/decision/beam_search.py:364-554 | A search starts with at most `C + D*(C+1)` plies ahead, for depth limit `D` and continuation limit `C` |
| `BeamFrontier.MixedStateNeverAdvances` | src/sts2_training/decision/beam_search.py:1129-1131 | A resolved state that also offers a choice answered by itself is judged expandable for ever at the same depth, which is why the bound assumes the emulator never mixes them |
| `BeamFrontier.MixedStateExists` | src/sts2_training/decision/beam_search.py:1129-1131 | Such a state, concretely |
| `BeamPlan.ProposeFrontier` | src/sts2_training/decision/beam_search.py:637-735 | It raises exactly when some answer is too long or names an unavailable action; otherwise every answered action is planned once, in the order of beam and answer, under a never-issued id and the node's own random stream (the root starts a new one), and the nodes without an answer are exhausted |
| `BeamPlan.AnsweredAt` | src/sts2_training/decision/beam_search.py:662-735 | What is planned is every answer of every node once, node by node and in the order of the answer |
| `BeamPlan.SelectParents` | src/sts2_training/decision/beam_search.py:858-880 | The loop over the beam is the specified greedy pass |
| `BeamPlan.GreedyIsChosen` | src/sts2_training/decision/beam_search.py:858-880 | That pass takes planned branches of selected beam nodes only, none twice, and its slot count is exact |
| `BeamPlan.GreedyUsesBudget` | src/sts2_training/decision/beam_search.py:868-878 | It stops early only with at most one slot left |
| `BeamPlan.GreedyKeepsOrder` | src/sts2_training/decision/beam_search.py:862-878 | Until it stops, every earlier parent with planned branches is taken with all of them |
| `BeamPlan.GreedyTakesAll` | src/sts2_training/decision/beam_search.py:862-878 | When everything fits, everything is taken |
| `BeamPlan.CutIsFitted` | src/sts2_training/decision/beam_search.py:880-912 | The cut stays inside the capacity, keeps no waiting node worth less than one it drops, and hands every resolved node it drops on as a leaf |
| `BeamPlan.RankedCut` | src/sts2_training/decision/beam_search.py:885-896 | Cutting the waiting nodes by value loses and doubles none, and keeps none worth less than one it cuts |
| `BeamPlan.FitToCapacity` | src/sts2_training/decision/beam_search.py:834-912 | Non-root parents, children and waiting nodes stay inside the active-branch budget; without a budget, or when everything fits, nothing is cut; no resolved node is lost |
| `BeamPlan.PruneStable` | src/sts2_training/decision/beam_search.py:1885-1907 | It raises exactly when the pruner returns too many, repeated or unknown indices, and otherwise keeps exactly the selected nodes in the selected order |
| `BeamPlan.ValueTopKIsAccepted` | src/sts2_training/decision/stable_pruner.py:167-189 | The baseline pruner passes those checks and drops nothing worth more than what it keeps |
| `BeamState.RootActionStartsChain` | src/sts2_training/decision/beam_search.py:1164 | A node's root action is the first action on its parent chain |
| `BeamState.MovedKeepsInv` | src/sts2_training/decision/beam_search.py:376-396 | Turning frontier nodes into leaves keeps the search in order: no branch twice in the frontier or among the leaves, every held branch alive, all levels equal |
| `BeamState.OnTheSideKeepsInv` | src/sts2_training/decision/beam_search.py:1403-1508 | Creating branches and releasing only those never disturbs the frontier or the leaves |
| `BeamState.ReleasedKeepsInv` | src/sts2_training/decision/beam_search.py:1708-1740 | Releasing keeps the search in order when it spares the frontier and the leaves still to be settled |
| `BeamState.RescoredKeepsInv` | src/sts2_training/decision/beam_search.py:1393-1401 | Settled scores change values of settled leaves and nothing else |
| `BeamState.AdvancedKeepsInv` | src/sts2_training/decision/beam_search.py:482-503 | Moving to the next frontier keeps the search in order, one level on |
| `BeamPly.PlyOffspring` | src/sts2_training/decision/beam_search.py:446-480 | What a ply adds are sound nodes and leaves on branches of their own, created in that ply |
| `BeamPly.SplitScope` | src/sts2_training/decision/beam_search.py:368-382 | The nodes that stay in the beam are exactly those with searchable actions only, in combat on whole runs; of the others exactly the resolved ones become leaves |
| `BeamPly.PlyGrafted` | src/sts2_training/decision/beam_search.py:1146-1178 | Hanging them below the nodes they were planned from keeps the tree |
| `BeamPly.GraftAnswered` | src/sts2_training/decision/beam_search.py:1146-1178 | Every node of the tree is what the server answered when asked to play the node's own action below its parent with its random stream |
| `BeamPly.JudgePly` | src/sts2_training/decision/beam_search.py:446-503 | Scoring and moving on: choices first, pruned resolved nodes otherwise, a beam left empty leaves nobody waiting; nothing usable if and only if every item faulted or fell out of scope, quietly only if some whole-run state is out of scope |
| `BeamPly.LiveAfterPly` | src/sts2_training/decision/beam_search.py:834-912 | When the frontier holds all existing branches, a ply adds at most what was planned |
| `BeamSettle.SubmittedStaysOnce` | src/sts2_training/decision/beam_search.py:1378-1386 | No leaf is submitted for settling twice over a search |
| `BeamSettle.PickedSettleable` | src/sts2_training/decision/beam_search.py:1324-1336 | Every leaf picked for settling still exists, so no settle request names a released branch |
| `BeamSettle.SettleActionIff` | src/sts2_training/decision/beam_search.py:1324-1336 | A leaf is settled exactly when it is not the root, not terminal, at a decision without an open choice, its turn not over and End Turn on offer, and the move is that End Turn, a system action when ids are distinct |
| `BeamSettle.ScoreSettled` | src/sts2_training/decision/beam_search.py:1480-1500 | Exactly the leaves whose End Turn the server answered with a readable state get a score, the value of that state |
| `BeamSettle.SettlingIsFair` | src/sts2_training/decision/beam_search.py:1393-1401 | After settling, every resolved leaf is worth the score of its own state or of the state the server answered to its own End Turn |
| `BeamSearch.BeamSearchRun.SettleBatch` | src/sts2_training/decision/beam_search.py:1403-1508 | Settle requests pass the wire contract, name existing parents, and only branches created here are created or released; of what was sent, exactly the leaves with a readable answer have a score, that answer's |
| `BeamSearch.BeamSearchRun.SettlePending` | src/sts2_training/decision/beam_search.py:1338-1401 | Exactly the leaves not submitted before that have to end their turn are sent, each with its own first End Turn; afterwards a leaf is worth the state the server answered to that, or keeps its value when there is none; nothing else changes |
| `BeamSearch.BeamSearchRun.SettleRootAsLeaf` | src/sts2_training/decision/beam_search.py:1528-1570 | Ending the turn at once joins the leaves as the root's first End Turn, with the score of the state the server answered; it does not only if no new answer shows a state |
| `BeamSearch.BeamSearchRun.ReleaseUnneeded` | src/sts2_training/decision/beam_search.py:1708-1740 | On success the frontier holds every branch that exists; a leaf not yet settled is never released |
| `BeamSearch.BeamSearchRun.Cleanup` | src/sts2_training/decision/beam_search.py:1742-1775 | When the final cleanup completes, every branch known to exist was cancelled and then released; nothing at all of the search is left for sure if and only if none of its emulate requests ended in doubt |
| `BeamSearch.BeamSearchRun.Ply` | src/sts2_training/decision/beam_search.py:365-554 | A round that goes on is strictly closer to the end, and after a complete emulation the live branches exceed the budget by at most the exhausted nodes and the retried branches |
| `BeamSearch.BeamSearchRun.Loop` | src/sts2_training/decision/beam_search.py:364-554 | The loop ends within the plies its limits allow, whatever emulator, policy and pruner answer, and every complete ply is within capacity in that sense |
| `BeamSearch.BeamSearchRun.Run` | src/sts2_training/decision/beam_search.py:563-620 | At most `C + D*(C+1)` plies; every branch the search was told of accounted for on every way out, and a completed cleanup leaves nothing for sure if and only if no emulate request ended lost, faulted or unreadable; no leaf settled twice; no two leaves on one branch but the root's, and that only when leaves are settled at the turn boundary and the root is resolved and offers End Turn; the result is the first most valuable resolved leaf; every leaf is sound, shows the state the server answered to its own move, and is worth that state or the one answered to its End Turn |
| `BeamSearch.BestIsSound` | src/sts2_training/decision/beam_search.py:605-620 | The best root action is available at the root and starts the best node's line; without leaf settling, the best value is the fresh score of its own state and the maximum over the resolved leaves |
| `BeamModel.EmulatorClient.EmulateActions` | src/sts2_training/decision/beam_search.py:968-996 | A request that comes back with results confirms its branches; one that is lost after sending, faulted or unreadable may have created them and is never put on record; a rejected or unsent one created nothing |
| `BranchLog.HeldIsKnown` | src/sts2_training/decision/beam_search.py:994-996 | Whatever the server did, it holds nothing but confirmed branches and branches of requests in doubt |
| `BranchLog.AllMayBeHeld` | src/sts2_training/decision/beam_search.py:994-996 | And it may hold all of them |
| `BranchLog.LeavesNothingIff` | src/sts2_training/decision/beam_search.py:1742-1775 | A run that has released all it was told about leaves nothing on the server in every case if and only if none of its emulate requests ended in doubt |
| `BeamSearch.LostFirstRequest` | src/sts2_training/decision/beam_search.py:966-996 | If the first request is sent and never answered, nothing is on record, the cleanup completes without a call, and the server may hold the whole batch |
| `BeamSearch.FaultedRequestStays` | src/sts2_training/decision/beam_search.py:1742-1775 | After a fault the branches created before are released, and what the faulted request may have created stays |
| `BeamSearch.RootTwiceIff` | src/sts2_training/decision/beam_search.py:1528-1570 | A branch occurs twice among the leaves if and only if it is the root's, which became a leaf as it is and whose End Turn was settled |
| `BeamSearch.TwiceOnlyIf` | src/sts2_training/decision/beam_search.py:1528-1570 | A branch occurs twice only when leaves are settled at the turn boundary and the root is resolved and offers End Turn |
| `BeamSearch.RootMayRepeatIff` | src/sts2_training/decision/beam_search.py:1528-1570 | And exactly then some list of leaves a search may end with has the root twice |
| `BeamSearch.ExhaustedRootRepeats` | src/sts2_training/decision/beam_search.py:391-396 | Any resolved root the policy has nothing for, with an End Turn that settles, is in the list twice |
| `BeamSearch.RootTwiceExists` | src/sts2_training/decision/beam_search.py:391-396 | Such a root, concretely |
| `BeamPly.PlyOneDeeper` | src/sts2_training/decision/beam_search.py:1165-1201 | A ply makes the tree of created nodes at most one node deeper |
| `BeamSearch.BeamSearchRun.Advance` | src/sts2_training/decision/beam_search.py:506-531 | A ply is counted exactly when its emulation was complete and a frontier came out of it; otherwise the tree is as it was, unless the emulation stopped early |
| `BeamSearch.PlyStopsFor` | src/sts2_training/decision/beam_search.py:506-531 | Why the loop ends after a ply: out of scope, emulation stopped early, some line out of choices, else some line at the depth limit, else exhausted |
| `BeamSearch.Search` | src/sts2_training/decision/beam_search.py:282-330 | What cannot be searched is refused before anything is sent; a result's root action is available at the root and its state is the server's answer to its own move; the same exact condition for leaving nothing behind |
| `Engine.ReadActions` | src/sts2_training/decision/engine.py:190-207 | Legal actions are accepted exactly when every one has a non-empty id of its own |
| `Engine.KeptInOrder` | src/sts2_training/decision/engine.py:208-215 | The actions to choose from are all the available ones, in their order |
| `Engine.NoChoiceIsAvailable` | src/sts2_training/decision/engine.py:212-213 | With nothing to choose from, no action id is available |
| `Engine.EvaluationBranchInjective` | src/sts2_training/decision/event_branch_search.py:102-107 | Branches of different event options differ, whatever their random suffixes |
| `Engine.EventCandidates` | src/sts2_training/decision/event_branch_search.py:96-107 | One candidate for each option, in order, each on a branch and random stream of its own |
| `Engine.AskEvents` | src/sts2_training/decision/engine.py:217-236 | What an evaluation hands back is the choice its own answers lead to, and nothing only when they lead to none or not every option was tried |
| `Engine.ActionableIsComplete` | src/sts2_training/decision/engine.py:309-318 | A search result is acted on only if its whole line lies within completed plies, or ends the turn at once |
| `Engine.RefusedIff` | src/sts2_training/decision/engine.py:309-318 | Turned down is exactly a line whose last move belongs to the ply that was cut short, or ending the turn before any ply was completed |
| `Engine.Decide` | src/sts2_training/decision/engine.py:154-254 | A decision chooses an available action, and none exactly when there is none; a single available action is taken without asking anyone; event evaluation chooses the event option its own answers favour and is passed over only when they favour none; a search result is followed exactly when it is actionable, and the fallback decides otherwise; a decision without a search result asked nothing of the emulator |
| `Ranking.SortedUnique` | src/sts2_training/decision/pruner_rl.py:174-181 | The stable descending order of a set of indices is unique |
| `Ranking.TopHasLargestTotal` | src/sts2_training/decision/pruner_training_data.py:317-327 | No choice of `k` distinct indices has a larger total than the first `k` of the ranking |
| `OracleTargets.BuildIndex` | src/sts2_training/decision/oracle_search.py:489-492 | The node index and the children index of a trace |
| `OracleTargets.DescendantNodes` | src/sts2_training/decision/oracle_search.py:834-853 | The walk ends on every recorded graph, cycles included, and returns each node below the start exactly once |
| `OracleTargets.MarkFaults` | src/sts2_training/decision/oracle_search.py:501-518 | Exactly the recorded nodes at or above a fault are marked, with the first such fault's kind |
| `OracleTargets.StableTargetFor` | src/sts2_training/decision/oracle_search.py:532-608 | A target is numeric if and only if no fault lies at or below the node and an eligible leaf lies below it; it is then the highest score of such a leaf; otherwise the censor reason names what really happened |
| `OracleTargets.BuildStableTargets` | src/sts2_training/decision/oracle_search.py:489-608 | The same for every node of every prune step |
| `OracleTargets.AncestorsScoreAtLeast` | src/sts2_training/decision/oracle_search.py:532-608 | A fault-free node never scores below a node underneath it, and has a target whenever that one has |
| `OracleTargets.FaultsCensorAncestors` | src/sts2_training/decision/oracle_search.py:515-518 | A fault below a node censors every recorded node above it |
| `RootTargets.GroupNodes` | src/sts2_training/decision/oracle_search.py:644-647 | The grouping holds, for every action and random stream, its recorded nodes in order |
| `RootTargets.GroupFaults` | src/sts2_training/decision/oracle_search.py:500-510 | And the first fault and the deepest one of each |
| `RootTargets.OutcomeFor` | src/sts2_training/decision/oracle_search.py:708-776 | A stream has a value if and only if nothing under it faulted and an eligible leaf lies under it; it is then the highest score of such a leaf, and the one recorded first is named; otherwise the reason names what really happened; its depth is the deepest recorded |
| `RootTargets.RootActionTargets` | src/sts2_training/decision/oracle_search.py:630-826 | One target for each available action in order, with one outcome for each stream anything was recorded under, ascending; exhaustive collection raises exactly when a proposed action left no record |
| `RootTargets.EstimateIff` | src/sts2_training/decision/oracle_search.py:778-805 | An action has an estimate if and only if no recorded fault lies under it and some eligible leaf does |
| `RootTargets.EstimateWithinBestLeaf` | src/sts2_training/decision/oracle_search.py:778-805 | No action is valued above its best eligible leaf |
| `RootTargets.MeanTimesCount` | src/sts2_training/decision/oracle_search.py:797-805 | The mean weighs every scored stream once |
| `RootTargets.MeanIsBetween` | src/sts2_training/decision/oracle_search.py:797-805 | The mean lies between the lowest and the highest outcome |
| `RootTargets.UnfaultedStreamIsFaultFree` | src/sts2_training/decision/oracle_search.py:500-518 | A stream without a recorded fault has none at or below any of its nodes: the two censoring rules agree |
| `RootTargets.RootCoversStable` | src/sts2_training/decision/oracle_search.py:532-608 | On a stream without a fault, the stream's value is at least the target of every node on it |
| `ValueSamples.RootStates` | src/sts2_training/decision/oracle_value_logging.py:210-226 | The candidates are exactly the kept fresh states of the stream at its least combat depth |
| `ValueSamples.StateOnLine` | src/sts2_training/decision/oracle_value_logging.py:290-298 | The walk up ends on every recorded graph, cycles included, and finds the candidate nearest above the best leaf, if there is one |
| `ValueSamples.SelectRootState` | src/sts2_training/decision/oracle_value_logging.py:281-300 | Otherwise the shallowest candidate is chosen, by id among equals; none exactly when there is no candidate |
| `ValueSamples.BuildSamples` | src/sts2_training/decision/oracle_value_logging.py:228-278 | One sample for each outcome with a state, in order, none for the others; a sample is about the chosen state and keeps the outcome's label, unless that is nothing but the bootstrap value of that very state |
| `ValueSamples.LabelComesFromBelow` | src/sts2_training/decision/oracle_value_logging.py:245-256 | A bootstrapped label never comes from the labelled state itself: the best leaf lies strictly below it |
| `ValueSamples.LabelIsStableTarget` | src/sts2_training/decision/oracle_value_logging.py:190-278 | And it equals the target that state would have as a node of a prune step |
| `DamageRace.RemainingLossIsMinimum` | src/sts2_training/decision/damage_race_value.py:198-221 | The closed form is the minimum of the race cost over every real split `0 < x <= E`, and is attained |
| `DamageRace.SplitCostIs` | src/sts2_training/decision/damage_race_value.py:176-196 | A split leaks what the attack exceeds the block already up and the block it adds, then races for the hit points its attack leaves |
| `DamageRace.TurnCostIs` | src/sts2_training/decision/damage_race_value.py:143-175 | With nothing left to kill only this turn's leak is paid; without energy the turn costs exactly what the attack exceeds the block plus the race |
| `DamageRace.TurnCostIsLeastTried` | src/sts2_training/decision/damage_race_value.py:164-174 | A turn costs the least of no block, exactly enough block and everything, and is the cost of one of them |
| `DamageRace.BlockedPosition` | src/sts2_training/decision/damage_race_value.py:283-284 | A position where twenty block against an attack of twenty is worth twenty hit points |
| `DamageRace.TurnCostOptimalIff` | src/sts2_training/decision/damage_race_value.py:143-196 | The three splits tried are the best of all splits if and only if this turn cannot kill everything, or the block it needs leaves the energy to do so, or one energy of attack is worth no more than one of block |
| `DamageRace.ThreeSplitsCanMiss` | src/sts2_training/decision/damage_race_value.py:43-46 | A position with default parameters where they cost 100 and the second kink costs 90 |
| `DamageRace.MoreBlockNeverHurts` | src/sts2_training/decision/damage_race_value.py:134-175 | A score never falls when block rises, and without energy to split each point of block up to the attack is worth one hit point |
| `DamageRace.HarderAttackNeverHelps` | src/sts2_training/decision/damage_race_value.py:134-175 | A score never rises when the incoming attack rises |
| `PlackettLuce.SamplesAreAll` | src/sts2_training/decision/pruner_rl.py:324-354 | The enumeration holds exactly the ordered choices of `k` distinct available indices |
| `PlackettLuce.SamplesAreDistinct` | src/sts2_training/decision/pruner_rl.py:324-354 | And each of them once |
| `PlackettLuce.TotalsOfSamples` | src/sts2_training/decision/pruner_rl.py:228-322 | For any rule whose chances add to one, all ordered samples without replacement have total probability one, and a centered gradient has zero expectation |
| `PlackettLuce.SamplingIsUnbiased` | src/sts2_training/decision/pruner_rl.py:228-322 | For any positive weights the Plackett-Luce probabilities sum to one and each coordinate of the log-probability gradient has zero expectation |
| `PlackettLuce.ScoreSample` | src/sts2_training/decision/pruner_rl.py:228-322 | The accumulating loops accept exactly lists of distinct valid indices and return the sample's probability and gradient |
| `PlackettLuce.IntervalIsUnique` | src/sts2_training/decision/pruner_rl.py:343-352 | Every threshold falls on the interval of at most one pick |
| `PlackettLuce.IntervalIsChance` | src/sts2_training/decision/pruner_rl.py:343-352 | A pick's interval is as long as its chance, which is positive |
| `PlackettLuce.DrawPosition` | src/sts2_training/decision/pruner_rl.py:343-352 | The cumulative scan returns the position on whose interval the threshold falls |
| `PlackettLuce.SampleOrder` | src/sts2_training/decision/pruner_rl.py:324-354 | The sampler returns `take` distinct valid indices, each drawn on its own threshold interval from what was left |
| `PrunerSteps.SurvivorsAreDetermined` | src/sts2_training/decision/pruner_rl.py:194-195 | The returned order is determined by the sampled set |
| `PrunerSteps.Select` | src/sts2_training/decision/pruner_rl.py:154-225 | Nothing is recorded when every node survives; a recorded step is honest if and only if it was asked for the beam width it records |
| `PrunerSteps.OddsAreWeights` | src/sts2_training/decision/pruner_rl.py:252-256 | The odds of two nodes are those of the weights of their own scores at the step's temperature |
| `PrunerSteps.ValidateStep` | tools/update_stable_pruner_rl_v2_impl.py:293-383 | The updater accepts exactly the honest steps: a real choice, distinct indices, the sampled set in score order, the behaviour's temperature and seed, and the probability the policy gives that order |
| `PrunerSteps.Clip` | tools/update_stable_pruner_rl_v2_impl.py:173-181 | The applied gradient is a positive multiple of the raw one, never longer than the clip, and unchanged when it was not longer |
| `ReinforceUpdate.GradientOf` | src/sts2_training/decision/pruner_rl.py:262-322 | A step's gradient is the Plackett-Luce log-probability gradient of what was sampled, coordinate by coordinate, at the weights of the current coefficients; a temperature that is not positive, an empty frontier or sample, repeated or unknown indices and features of another width are refused |
| `ReinforceUpdate.FeatureInUnits` | src/sts2_training/decision/pruner_rl.py:284-291 | Every recorded feature enters in units of its scale |
| `ReinforceUpdate.WeightInUnits` | src/sts2_training/decision/pruner_rl.py:306-309 | A node's weight is the exponential of its linear score in units of the temperature |
| `ReinforceUpdate.SumEpisodes` | tools/update_stable_pruner_rl_v2_impl.py:147-171 | The nested loops add up the reward-weighted log-probability gradients, and refuse exactly the batches with an invalid step |
| `ReinforceUpdate.ApplyReinforceUpdate` | tools/update_stable_pruner_rl_v2_impl.py:132-182 | With weights computed from the coefficients being updated: they move by a positive multiple of the reward-weighted mean of the log-probability gradients, no longer than the learning rate times the clip, and by the full learning rate when the gradient is not longer than the clip; an empty batch, an unfitting scale, an invalid step, or a rate or clip that is not positive is refused |
| `ReinforceUpdate.UpdateAscends` | tools/update_stable_pruner_rl_v2_impl.py:173-182 | The update never goes against the policy's reward-weighted gradient, and stands still only where that vanishes |
| `ReinforceUpdate.BatchOrderIsIrrelevant` | tools/update_stable_pruner_rl_v2_impl.py:147-172 | Any reordering of a batch gives the same gradient |
| `ReinforceUpdate.NoRewardNoGradient` | tools/update_stable_pruner_rl_v2_impl.py:168-169 | Episodes without a reward leave the gradient zero |
| `ReinforceUpdate.OneStepEpisode` | tools/update_stable_pruner_rl_v2_impl.py:147-171 | What an episode of one step adds is its gradient times its reward |
| `ReinforceUpdate.ConstantRewardIsUnbiased` | src/sts2_training/decision/pruner_rl.py:262-322 | A reward that does not depend on what was sampled moves no coefficient on average |
| `Supergradient.SampleBound` | src/sts2_training/decision/pruner_rl.py:228-322 | Changing the scores by any amounts multiplies a sample's probability by at most the exponential of the gradient along that change |
| `ReinforceUpdate.GradientBoundsProbability` | src/sts2_training/decision/pruner_rl.py:262-322 | However the coefficients are moved, the probability of what was sampled grows at most by the exponential of the computed gradient along the move: everywhere the log-probability lies below the tangent that gradient gives |
| `ReinforceUpdate.GradientBoundsEpisode` | tools/update_stable_pruner_rl_v2_impl.py:147-171 | The same for all choices of an episode with the sum of their gradients |
| `ReinforceUpdate.LikelierOnlyAlongGradient` | tools/update_stable_pruner_rl_v2_impl.py:147-182 | Only a move along an episode's gradient can make what was sampled likelier |
| `Coverage.SelectRanked` | src/sts2_training/decision/candidate_coverage.py:199-223 | The first `top_k` distinct policy candidates in policy order with their ranks, none skipped; an unavailable one raises |
| `Coverage.Cover` | src/sts2_training/decision/candidate_coverage.py:181-259 | At most `top_k` distinct candidates with every required id; surviving policy candidates keep place and rank, and only the lowest-ranked ones that are not required give way |
| `Coverage.CoveredAreAvailable` | src/sts2_training/decision/candidate_coverage.py:298-366 | Every candidate of a covered list is an available action |
| `Coverage.CoveredCombat` | src/sts2_training/decision/candidate_coverage.py:311-325 | In regular combat a covered list of at least two can end the turn and play a card |
| `Coverage.RequiredIff` | src/sts2_training/decision/candidate_coverage.py:298-350 | What has to be covered: in regular combat the best End Turn and card, from three candidates on the best potion, and with card choices open the best way to end them; nothing below two candidates |
| `Coverage.BestOrFirstIs` | src/sts2_training/decision/candidate_coverage.py:353-366 | The best of some types is the policy's own first candidate of them, and the first available action of them only when the policy selected none |
| `SelectionMetrics.BuildPairs` | src/sts2_training/decision/pruner_training_data.py:190-247 | For all frontiers, after their unlabelled nodes are dropped: one pair and its mirror image for every comparison further apart than the minimum, and nothing else; the pair names the node with the higher target first, its features are that node's minus the other's at every position, its weight the smaller of the two and its gap the difference of the targets; a negative minimum and a comparison of different lengths are refused, and nothing else is |
| `SelectionMetrics.PairsClosedUnderMirror` | src/sts2_training/decision/pruner_training_data.py:222-246 | Negating features and flipping the label of a pair gives another pair of the list |
| `SelectionMetrics.TeacherIsBest` | src/sts2_training/decision/pruner_training_data.py:317-327 | No `k` labelled nodes have a larger target sum than the teacher's first `k` |
| `SelectionMetrics.EvaluateFrontier` | src/sts2_training/decision/pruner_training_data.py:283-336 | For any scoring, recall is the share of the teacher's nodes selected and lies in [0, 1]; best-value regret and mean gap exist exactly when all selected nodes are labelled, and are never negative |
| `CardCells.SplitOfJoin` | tools/score_cards.py:121-156 | Splitting undoes joining for parts without semicolons |
| `CardCells.ParseCreatedList` | tools/score_cards.py:121-135 | The created-card parser returns the readable entries of the cell |
| `CardCells.ParsePoolList` | tools/score_cards.py:138-156 | The pool parser splits at the last colon and needs a label before it |
| `CardCells.RoundTripIff` | tools/extract_card_effects.py:1037-1062 | For all integer counts and marks, parsing the cell the printer's loop joins returns the entries if and only if no label holds a semicolon or starts with a space, and created labels hold no colon or pool labels are non-empty |
| `CardCells.CountsArePrinted` | src/sts2_training/board_eval/card_features.py:412-431 | The counter's loop over the parts of a printed cell gives the total of its certain counts and the number of its uncertain entries |

## Left out

- Sockets, locks, JSON, byte limits and clocks: only the outcomes of an exchange and of a deadline
  test are modelled.
- SelectionAudit.Audit.RecordAction: does not model the remembered decisions and the contents of an
  event beyond request, branch and kind, which the recovery rule does not read.
- TrainingClient.TcpConnection.Exchange: byte limits, frame decoding and stream buffers are replaced by
  the outcomes they lead to.
- The order in which the batch builder reports several faults of one batch.
- `turn_aligned_leaves`: that mode sends one unchunked batch after the loop
  (`src/sts2_training/decision/beam_search.py:1212-1322`).
- Traces, statistics and timing of the search, and errors a value model or policy raises itself; a
  policy, pruner or emulator that misbehaves raises in the model without a message.
- The restriction of a policy's request to turn-internal actions: the policy is arbitrary here, so
  its answer is only checked for availability, as the code does.
- Fetching and committing the decision (`src/sts2_training/decision/engine.py:161-176`, `256-284`);
  the fallback selector is arbitrary. Event evaluation and search see the client through two classes.
- The baseline membership and the action payloads copied into the Oracle's targets.
- Floating-point rounding and the logarithm; probabilities stand for the exponentials of logged
  log-probabilities. The exponential is any function that turns sums into products, is positive and lies
  above its tangent at zero.
- PrunerSteps.ValidateStep: compares exactly instead of within tolerances and omits the schema checks.
- PrunerSteps.Clip: takes the gradient's norm as an input with its defining property, because square
  roots are not modelled; `ReinforceUpdate` takes the square root as a function with that property.
- OracleTargets.StableTargetFor: asks that every node was recorded once, which the search's fresh ids
  give, and does not say which of several leaves with the highest score it names.
- RootTargets.RootCoversStable: asks that nodes and faults carry the action and stream of the node above
  them, which `BeamState.TreeNode` and `BeamFrontier.SoundPlan` keep for everything the search creates.
- ValueSamples.BuildSamples: which states' contents were kept is an input.
- DamageRace.RemainingLossIsMinimum: asks for a non-negative incoming attack, which the observation
  guarantees; the calibration of damage per energy and enemy multipliers enter as positive numbers.
- CardCells.RoundTripIff: counts are integers, as the extractor writes them; other literals that
  Python's `float` would accept are read as no count.
- Coverage.Cover: candidates carry their id and policy rank; scores are passed through unchanged in
  the code.
- Supervised fitting, feature extraction, artifact files and the runners.
