# PaperClaw: a verified model

PaperClaw runs a language-model agent over a workspace. Five parts of it carry promises that are
easy to break and hard to see: the durable run service, prompt assembly under a token budget, the
context builder with its compaction, the agent loop with its verification gate, and a group of
small stateful stores. This project models those parts in Dafny and proves what they keep.

`dafny verify dfyconfig.toml` checks everything.

## Durable runs

Workers claim queued runs under leases, cancellers stop them, coordinators recover what was
abandoned, executors run actions at most once, and readers page through events. All of them share
a few tables, and each transaction is one atomic step; reconciling and executing an action take
several steps, with stale snapshots in between, and may stop after any of them.

- `DurableRuns` – one run with its transition log, lease and events, and the operations on it.
- `DurableHistory` – what a log can look like, and what each operation does to it.
- `DurableTables` – the tables: creation with idempotency keys, claiming, receipts.
- `DurableSystem` – all participants interleaved: a state, a labelled step, and behaviours.
- `DurableSafety`, `DurableActions` – invariants of every reachable system.
- `DurableStore`, `DurableRecovery` – the classes of the source, table row by table row, proved to
  do what the steps say.
- `DurableGaps` – what interleaving takes away.
- `DurableEffects`, `DurableRequests` – every operation by cases and by fields: who is refused and
  why, what is written, who may take over a lease, what comes first, which calls share a receipt.

A behaviour is any finite sequence of steps from the empty system, so a theorem about behaviours
covers every interleaving, every stopping point and every clock.

## Prompt assembly

`Candidates`, `ContextStages`, `ContextBudget`, `PromptRender`, `ContextPipeline` and
`ContextAssembly` specify deduplication, conflict resolution, quota allocation, rendering and the
render-and-drop loop, and prove the claims about the whole pipeline. `ContextOrchestrator` is the
class of the source with its dictionaries, counters and loops, proved equal to that specification.
`ContextRules` says the same of the fields of the candidates: what is preferred, what is never
dropped, why something was left out. `PromptContents` is about the text: what a prompt shows of
every candidate and where, and that sensitive content has no influence on it. The theorems assume
distinct candidate ids.

## Context builder

`BuilderStages` and `ContextBuilder` specify the filters, the selection, the compaction into
summaries and the two budget checks; `BuilderBudget` is about the budget after compaction;
`BuilderRules` says of the rows why each is left out and which are kept rather;
`BuilderMethods` is the class with its loops. `Greedy` holds the one fact that both budgets share: what a
greedy pass over a sorted list selects.

## Agent

`Verify` gives verification a last-writer specification that does not mention the plan, and proves
that planning and executing decide exactly that. `AgentGraph` is the wired flow graph, `AgentLoop`
one turn and whole runs for any model, tools, files and cancellations, `AgentRuntime` the classes
that mutate the shared state. `VerifyRules` and `PlanRules` say of history positions and files when
verification passes, which claims fail and in which order they are checked; `AgentHistory` ties
every entry of a history to the turn of the tool that made it, `AgentRules` says where each node
leads and what the counters count.

## Smaller stores

`MemoryLineage` (supersession worklist), `SessionLog` (auto-numbered events and safe resume),
`ArtifactStore` (append-only revisions), `DesktopQueue` (bounded queue) and `DesktopFanout`
(cursors of several clients), with `SessionRules`, `ArtifactRules`, `QueueRules` and `FanoutRules`
on what each operation records, answers and loses.

`Common`, `Ordering` and `Lists` hold shared vocabulary: options and results, blank and trimmed
text, strict orders, sorting, filtering and sums.

## Where the code falls short of what one would expect

Each of these is stated with its exact condition and, where that does not show it by itself, with a
concrete input.

- A requeued run may have an action receipt: it does if and only if one was reserved after the
  coordinator counted and before it moved the run, because reserving does not change the version
  that the move compares (`DurableGaps.RequeuedHasReceiptIff`, `DurableGaps.LateReceiptIsMissed`).
  It cannot happen when the steps are taken together (`DurableGaps.AtomicRequeueHasNoReceipt`).
- A callback that raises with a blank message leaves its receipt pending, so the action can never be
  reserved again (`DurableActions.SettleEffect`, `DurableActions.OrphanedForEver`,
  `DurableGaps.BlankMessageOrphans`).
- The runtime section need not hold the built-in prompt: any protected candidate may call itself
  `runtime_prompt` and sort first (`ContextAssembly.RuntimeSectionIsBuiltin`,
  `ContextAssembly.RuntimeSectionCanBeTaken`).
- A finished snapshot may exceed its budget, because the summaries are added after selection filled
  it (`BuilderBudget.OverBudgetIff`, `BuilderBudget.OverWhenTight`, `BuilderBudget.EnoughSlack`,
  `BuilderBudget.OverBudgetHappens`); the error branch that follows can never be taken
  (`ContextBuilder.BuildFailsIff`).
- A gated run can end with plain `done` when a tool is called `halt`, and any run with no stop reason
  when a tool has the empty name and none is called `default` (`AgentLoop.GatedDoneIff`, `AgentLoop.NoReasonIff`).
- A text with a carriage return never verifies after being written, on a POSIX system: it is read
  back with universal newlines (`Verify.FreshWriteVerifies`).
- Members of a memory lineage that spans scopes do not all see the same history, unless they form a
  ring (`MemoryLineage.SameHistoryIff`, `MemoryLineage.CrossingDiffers`, `MemoryLineage.CircleShares`).

## Model

| member | source | states |
|---|---|---|
| DurableRuns.ApplyKeepsRecord | src/paperclaw/durability/service_store.py:204-520 | Every operation on one run that succeeds keeps the whole run record consistent: the transition log is a chain from nothing to queued at version 0, every edge is in the transition table, version equals index and the last entry is the row, a terminal reason is present exactly in terminal states, a lease exists only while running or cancelling and never from a later version, event sequences are 1..n |
| DurableRuns.FinalizeOk | src/paperclaw/durability/service_store.py:389-517 | Finalising keeps that invariant although it bypasses the transition method and writes row, log, event and lease itself |
| DurableRuns.CancelledOk | src/paperclaw/durability/service_store.py:222-345 | Cancelling a queued or running run, with one or two events at consecutive sequences, keeps the invariant |
| DurableRuns.ClaimedOk | src/paperclaw/durability/core.py:337-391 | Claiming a queued run keeps the invariant, with a lease taken at the new version |
| DurableRuns.MovedOk | src/paperclaw/durability/core.py:265-335 | An allowed edge extends the chain and keeps row and log in agreement |
| DurableRuns.NumberedMax | src/paperclaw/durability/service_store.py:89-121 | When sequences are 1..n, the largest stored sequence is n, so the next event is n + 1 |
| DurableHistory.LogLength | src/paperclaw/durability/core.py:24-45 | In any chain of allowed edges the length of the log is bounded by the level of its last state plus twice the number of requeues: requeueing is the only cycle of the table |
| DurableHistory.TerminalIsLast | src/paperclaw/durability/core.py:24-45 | A terminal state can only be the last entry of a log |
| DurableHistory.CancellationWins | src/paperclaw/durability/core.py:24-45 | After a cancelling entry there is at most one more, and it is stopped, failed or recovery_required |
| DurableHistory.HistoryAppendOnly | src/paperclaw/durability/core.py:265-335 | Any successful operation only appends to the log and the events; on a terminal run it leaves log, state, version and reason alone |
| DurableHistory.RequeueCount | src/paperclaw/durability/core.py:285-333 | The number of running-to-queued edges grows only by a transition that takes that edge, and recovery_attempts only by the bump flag: no cancel, finalise, renewal or event changes either |
| DurableHistory.FinalizeEdgeAlwaysAllowed | src/paperclaw/durability/service_store.py:389-517 | The invalid-transition error of finalize_run is unreachable for every run whose lease is consistent |
| DurableHistory.FinalizeGuard | src/paperclaw/durability/service_store.py:389-413 | Finalising a terminal run changes nothing; otherwise it succeeds exactly for the unexpired lease holder and any other caller gets the lease error |
| DurableHistory.FinalizeEffect | src/paperclaw/durability/service_store.py:389-517 | A live owner ends the run: terminal, no lease, one more entry signed by the worker, one terminal event; a running run gets the state asked for, a cancelling run gets failed for a timeout and stopped otherwise |
| DurableHistory.CancelRunning | src/paperclaw/durability/service_store.py:222-345 | Cancelling a running run records the reason, keeps the lease and moves to cancelling |
| DurableHistory.CancelThenFinalize | src/paperclaw/durability/service_store.py:204-520 | If a cancellation comes before the owner finalises, the run ends stopped (failed for a timeout) with the canceller's reason, whatever outcome the owner asks for |
| DurableHistory.FinalizeCancelled | src/paperclaw/durability/service_store.py:415-517 | The reason stored by the canceller decides the final state and the final reason |
| DurableHistory.TerminalEventsStep | src/paperclaw/durability/service_store.py:204-520 | An operation adds a terminal event exactly when it ends the run itself |
| DurableHistory.PageFrom | src/paperclaw/durability/service_store.py:125-158 | On contiguous sequences, filtering by sequence and cutting at the limit is a slice, from any base |
| DurableHistory.PageIsSlice | src/paperclaw/durability/service_store.py:125-158 | A page of list_events after n is the slice of the log starting at n |
| DurableTables.CreateRunOk | src/paperclaw/durability/core.py:200-259 | Creating a run, with or without an idempotency key, keeps the tables consistent and only adds to them |
| DurableTables.ApplyToOk | src/paperclaw/durability/core.py:265-433 | Every operation on a stored run keeps the tables consistent and every history append-only |
| DurableTables.ClaimNextOk | src/paperclaw/durability/core.py:337-391 | Claiming the oldest queued run keeps the tables consistent |
| DurableTables.EarliestUnique | src/paperclaw/durability/core.py:348-355 | Creation time and then run id pick exactly one run, so which one is claimed does not depend on table order |
| DurableSafety.ReachableTablesOk | src/paperclaw/durability/core.py:24-45 | In every reachable system, whatever workers, cancellers, coordinators, executors and readers do and wherever they stop, every run record is consistent |
| DurableSafety.StepKeepsTables | src/paperclaw/durability/core.py:183-712 | One step of any participant keeps the tables consistent and only extends histories |
| DurableSafety.HistoryOnlyGrows | src/paperclaw/durability/core.py:265-335 | Between any two moments of a run of the system, logs and events only grow and identities do not change |
| DurableSafety.TerminalForEver | src/paperclaw/durability/core.py:14-45 | A run seen terminal has the same log, state, version and reason at every later moment |
| DurableSafety.CancellationWinsEverywhere | src/paperclaw/durability/service_store.py:204-520 | A run seen cancelling can never be completed, blocked or budget_exhausted later |
| DurableSafety.RecoveryMoveCounted | src/paperclaw/durability/core.py:725-787 | A decision taken from a stale snapshot never attempts a disallowed edge and keeps recovery_attempts equal to the requeues |
| DurableSafety.StepKeepsRecovery | src/paperclaw/durability/core.py:725-787 | The counting invariant, including what stale snapshots still say truly, is kept by every step |
| DurableSafety.RecoveryIsBounded | src/paperclaw/durability/core.py:145-180 | Although listing, counting receipts, classifying and moving are separate steps: recovery_attempts equals the number of requeues and is at most 1, every version is at most 5 and no disallowed edge is ever attempted, provided only reconciliation takes the requeue edge |
| DurableSystem.DefaultRequeuesOnce | src/paperclaw/durability/core.py:148-180 | The default policy meets the one condition the bound needs: it requeues only a running run never recovered before |
| DurableSystem.GuardedRequeuesOnce | src/paperclaw/durability/plugins.py:41-63 | Wrapping any such policy in the registry keeps the condition: a policy that raises can only lead to manual recovery |
| DurableSafety.OneTerminalEvent | src/paperclaw/durability/service_store.py:204-520 | When append_event adds no terminal event, a run has at most one terminal event in every reachable system, and has one exactly when it is terminal and was not ended by a plain transition |
| DurableSafety.TerminalIffTerminalEvent | src/paperclaw/durability/service_store.py:204-520 | If only finalising and cancelling end runs, the number of terminal events is one for a terminal run and zero for any other |
| DurableSafety.ReplayIsExact | src/paperclaw/durability/service_store.py:125-158 | A reader paging from the last seen sequence with any limits, while others append, always holds an exact prefix of the log; the next page is empty exactly when it holds all of it |
| DurableSafety.CreationIsIdempotent | src/paperclaw/durability/core.py:200-259 | At any later moment the same idempotency key gives the first run back unchanged for the same request and is refused for another request |
| DurableActions.CallbackAtMostOnce | src/paperclaw/durability/core.py:796-824 | Over any interleaving of executors, stopped after any step: the callback of one action key runs at most once, ran once if its receipt is settled, and all successful returns of one key are equal |
| DurableActions.StepKeepsActions | src/paperclaw/durability/core.py:451-564 | The ownership invariant of receipts, executors and returned results is kept by every step of the system |
| DurableActions.ReceiptsMoveForward | src/paperclaw/durability/core.py:504-564 | A receipt only goes from pending to completed or failed, and a settled one never changes |
| DurableActions.SettleEffect | src/paperclaw/durability/core.py:796-824 | Settling a returned callback completes the receipt and returns the outcome; settling a raised one fails the receipt exactly when both error type and message are non-blank and otherwise leaves it pending |
| DurableActions.OrphanedForEver | src/paperclaw/durability/core.py:451-502 | A pending receipt whose executor is gone stays pending for ever: its callback never runs again and nothing is ever returned for the key |
| DurableGaps.AtomicRequeueHasNoReceipt | src/paperclaw/durability/core.py:148-180 | When counting, deciding and moving are one step, a decision requeues if and only if the run is running, was never recovered and has no receipt, and moving makes none |
| DurableGaps.ReceiptsSince | src/paperclaw/durability/core.py:451-502 | In any run of the system, a run without receipts at one moment has one at a later moment if and only if a reservation that creates one fell in between |
| DurableGaps.CountTaken | src/paperclaw/durability/core.py:725-760 | A count that a coordinator acts on was taken by an earlier step of its own, and nothing has touched the coordinator since |
| DurableGaps.RequeuedHasReceiptIff | src/paperclaw/durability/core.py:725-787 | Under any interleaving, a run that a coordinator requeues has a receipt if and only if one was reserved for it after the count that the requeue acted on, which was zero, and before the move |
| DurableGaps.BlankMessageOrphans | src/paperclaw/durability/core.py:540-564 | A concrete run of the system in which a callback raises an exception without a message and its receipt is left pending with no owner |
| DurableGaps.LateReceiptIsMissed | src/paperclaw/durability/core.py:725-787 | A concrete run of the system in which a receipt is reserved between the count and the move, so a requeued run does have one |
| DurableStore.RunStore.constructor | src/paperclaw/durability/core.py:188-198 | An empty store |
| DurableStore.RunStore.CreateRun | src/paperclaw/durability/core.py:200-259 | Row by row over the tables, does exactly the specified creation, including the error order and the replayed key |
| DurableStore.RunStore.Transition | src/paperclaw/durability/core.py:265-335 | Compare-and-swap transition: the whole new database and the error are those of the specification |
| DurableStore.RunStore.WriteTransition | src/paperclaw/durability/core.py:285-333 | The writes of an accepted transition: row, log entry, and the lease dropped when the run ends or is queued again |
| DurableStore.RunStore.ClaimNext | src/paperclaw/durability/core.py:337-391 | Claims the earliest queued run and no other, or nothing |
| DurableStore.RunStore.RenewLease | src/paperclaw/durability/core.py:393-423 | Extends the lease only for its holder at the version given |
| DurableStore.RunStore.ReleaseLease | src/paperclaw/durability/core.py:425-433 | Deletes the lease only of the named worker and says whether it did |
| DurableStore.RunStore.ListRecoveryCandidates | src/paperclaw/durability/core.py:435-449 | Lists the running and cancelling runs without a live lease, oldest update first |
| DurableStore.RunStore.ReserveAction | src/paperclaw/durability/core.py:451-502 | Creates a pending receipt or answers with the stored one, whatever its status; an unknown run is refused |
| DurableStore.RunStore.CompleteAction | src/paperclaw/durability/core.py:504-538 | Completes a pending receipt; a later completion is answered with the first outcome, a failed receipt is refused |
| DurableStore.RunStore.FailAction | src/paperclaw/durability/core.py:540-564 | Fails a pending receipt and refuses every other |
| DurableStore.RunStore.AppendEvent | src/paperclaw/durability/service_store.py:71-123 | Appends the event at the next sequence |
| DurableStore.RunStore.MergeMetadata | src/paperclaw/durability/service_store.py:170-202 | Merges the patch over the stored metadata without a version bump |
| DurableStore.RunStore.RequestCancellation | src/paperclaw/durability/service_store.py:204-347 | The three-way cancellation with its events and metadata, all or nothing |
| DurableStore.RunStore.WriteCancellation | src/paperclaw/durability/service_store.py:222-345 | The writes of a cancellation agree with its one-step description |
| DurableStore.RunStore.FinalizeRun | src/paperclaw/durability/service_store.py:349-520 | The lease check, the cancelled override, the metadata merge, the terminal event and the lease removal, all or nothing |
| DurableStore.RunStore.WriteEvents | src/paperclaw/durability/service_store.py:297-336 | The loop numbering several events writes exactly that many at consecutive sequences |
| DurableStore.RunStore.MergeFinal | src/paperclaw/durability/service_store.py:432-442 | The final metadata: patch over stored, the reason, and the timeout error where the reason is the timeout |
| DurableStore.FirstByTime | src/paperclaw/durability/core.py:348-355 | Scanning the rows finds the earliest by time and then id |
| DurableStore.ScanByTime | src/paperclaw/durability/core.py:435-449 | Repeated scanning yields the rows in that order, each once |
| DurableRecovery.ReconcileIsSteps | src/paperclaw/durability/core.py:725-787 | Handling one listed run equals the counting step followed by the deciding step of the interleaved system, and goes on exactly when that coordinator survives |
| DurableRecovery.DefaultIsDecisive | src/paperclaw/durability/core.py:148-180 | The default policy always names a reason and an action for a running or cancelling run |
| DurableRecovery.SettlesOne | src/paperclaw/durability/core.py:725-787 | An undisturbed decision moves its run to the decided state and leaves every other run, receipt and key alone |
| DurableRecovery.ReconciliationIsComplete | src/paperclaw/durability/core.py:725-787 | Undisturbed reconciliation moves every abandoned run where the policy says, touches no other run, reports each of them exactly once, in listing order, as changed and with its new state, and leaves no candidate at the listing time |
| DurableRecovery.ErrorSticks | src/paperclaw/durability/core.py:725-787 | An error other than a lost race ends the loop with what was done so far |
| DurableRecovery.NewRegistry | src/paperclaw/durability/plugins.py:21-35 | A registry is built if and only if the policy ids are unique and the active id is among them; its active policy is the one of that id |
| DurableRecovery.RecoveryPolicyRegistry.Classify | src/paperclaw/durability/plugins.py:41-63 | The decision of the guarded policy; exactly when the policy raises, manual recovery and one more recorded failure with the message cut at 500 characters |
| DurableRecovery.RecoveryCoordinator.CountReceipts | src/paperclaw/durability/core.py:566-573 | The number of receipts of the run |
| DurableRecovery.RecoveryCoordinator.ReconcileRun | src/paperclaw/durability/core.py:725-787 | One listed run: count, classify, move; a lost race is reported as unchanged |
| DurableRecovery.RecoveryCoordinator.Reconcile | src/paperclaw/durability/core.py:725-787 | The whole loop over the listed candidates |
| DurableRecovery.IdempotentActionExecutor.Execute | src/paperclaw/durability/core.py:796-824 | Reserve, replay or call, then complete or fail: result, database and whether the callback ran |
| DurableRecovery.ExecuteAgain | src/paperclaw/durability/core.py:796-824 | After one undisturbed execution a second never calls back: it returns the first outcome, or is refused after a failure |
| Candidates.WinsOrders | src/paperclaw/context/orchestration.py:999-1007 | The winner key is a strict total order on candidates with distinct ids |
| Candidates.PlacedOrders | src/paperclaw/context/orchestration.py:1010-1018 | So is the stable order, for any bucket priority list |
| Candidates.BestWins | src/paperclaw/context/orchestration.py:748-753 | The minimum of a group beats every other member |
| Candidates.WorstLoses | src/paperclaw/context/orchestration.py:918-924 | The maximum of the droppable candidates loses to every other |
| Candidates.RemoveOne | src/paperclaw/context/orchestration.py:924-930 | Removing by id removes exactly that candidate |
| ContextStages.DeduplicateKeepsWinners | src/paperclaw/context/orchestration.py:707-728 | A candidate survives deduplication if and only if it beats every other candidate of the same bucket and content, and kept plus dropped are the input, each once |
| ContextStages.DedupStepRepresents | src/paperclaw/context/orchestration.py:707-728 | After each step every candidate seen so far is kept or beaten by the kept one of the same bucket and content |
| ContextStages.ResolveKeepsWinners | src/paperclaw/context/orchestration.py:731-772 | A candidate survives conflict resolution if and only if it is free or beats every other member of its unresolved group |
| ContextStages.ResolveAccounts | src/paperclaw/context/orchestration.py:731-772 | Winners plus losers are the input, each once |
| ContextStages.WinnersAre | src/paperclaw/context/orchestration.py:748-770 | There is exactly one winner per group, its best member, in sorted group order |
| ContextStages.GroupsListed | src/paperclaw/context/orchestration.py:738-744 | The group names collected are exactly those of unresolved members, each once |
| ContextBudget.PassAllOk | src/paperclaw/context/orchestration.py:809-858 | During allocation the running totals stay exact, the sum stays within the budget and no bucket passes its quota |
| ContextBudget.LimitBounds | src/paperclaw/context/orchestration.py:811-816 | A quota limit is never negative and never more than what remains |
| ContextBudget.ChosenIff | src/paperclaw/context/orchestration.py:818-858 | A droppable candidate is allocated if and only if it fits after the allocated candidates that beat it: single size, bucket quota and budget |
| ContextBudget.PassIsGreedy | src/paperclaw/context/orchestration.py:818-858 | The counting loop is the greedy choice over that fit relation |
| ContextBudget.PassAccounts | src/paperclaw/context/orchestration.py:818-858 | Each droppable candidate is chosen or dropped with one reason |
| ContextBudget.AllocateAccounts | src/paperclaw/context/orchestration.py:774-873 | All protected candidates are kept, no protected one is droppable, and kept, chosen and dropped are the input |
| ContextBudget.AllocateBalanced | src/paperclaw/context/orchestration.py:774-873 | Protected tokens plus all buckets equal the selected tokens, at most what is available, and no bucket exceeds the floor of its share of the remainder |
| ContextBudget.BucketsAddUp | src/paperclaw/context/orchestration.py:816-873 | The bucket totals add up to the tokens of the droppable selection |
| ContextBudget.RecalculateBalanced | src/paperclaw/context/orchestration.py:939-964 | The recalculation after any number of drops is balanced in the same sense |
| PromptRender.PromptLength | src/paperclaw/context/orchestration.py:294-394 | The exact length of the prompt as a sum over the selected candidates and sections, with and without supplemental ones |
| PromptRender.PromptPush | src/paperclaw/context/orchestration.py:294-394 | Selecting one more candidate never makes the prompt shorter, although it may open a section, move the runtime part or join the sorted lists anywhere |
| PromptRender.PartSizeSorted | src/paperclaw/context/orchestration.py:320-339 | Sorting a section does not change its size |
| PromptRender.RuntimeAtPush | src/paperclaw/context/orchestration.py:303-311 | Adding a candidate at the end changes which one is the runtime part only if there was none |
| ContextPipeline.FitsDownward | src/paperclaw/context/orchestration.py:875-937 | If a prefix of the droppable candidates fits when rendered, so does every shorter one |
| ContextPipeline.DropLast | src/paperclaw/context/orchestration.py:918-930 | The candidate dropped is the last of the winner order, and exactly its record goes with it |
| ContextPipeline.FitFrom | src/paperclaw/context/orchestration.py:875-937 | The render-and-drop loop ends, and answers with the longest fitting prefix and the drops in order, or fails when not even the protected candidates fit |
| ContextAssembly.OrderIndependent | src/paperclaw/context/orchestration.py:417-474 | Two permutations of the same candidates with distinct ids give the identical prompt, sections, selections, exclusions, conflicts and allocation, or the same failure |
| ContextAssembly.LongestFittingPrefix | src/paperclaw/context/orchestration.py:875-937 | A successful assembly renders all protected survivors and the longest prefix, in winner order, of the allocated ones that fits the budget |
| ContextAssembly.FailsIffProtectedTooBig | src/paperclaw/context/orchestration.py:417-474 | Assembly fails if and only if the protected survivors are too many tokens or too long when rendered alone |
| ContextAssembly.EveryCandidateOnce | src/paperclaw/context/orchestration.py:417-474 | Across all four stages each candidate id is in exactly one of selected and excluded, once |
| ContextAssembly.FinalAllocationBalanced | src/paperclaw/context/orchestration.py:939-964 | The reported allocation is balanced, counts the tokens of what was selected and the size of the prompt returned, which fits |
| ContextAssembly.SectionsSeparate | src/paperclaw/context/orchestration.py:301-361 | Every id of a section belongs there: untrusted candidates only in the untrusted section, others never, apart from the runtime part |
| ContextAssembly.Contained | src/paperclaw/context/orchestration.py:301-361 | When the runtime part is trusted, a selected candidate is in the untrusted section if and only if it is untrusted |
| ContextAssembly.EveryoneRendered | src/paperclaw/context/orchestration.py:294-394 | Every selected candidate appears in some section |
| ContextAssembly.BuiltinSurvives | src/paperclaw/context/orchestration.py:477-494 | The built-in runtime prompt survives deduplication and conflicts when it is the only candidate at system trust |
| ContextAssembly.ProtectedSelected | src/paperclaw/context/orchestration.py:783-798 | A protected survivor is always selected |
| ContextAssembly.TrustContainment | src/paperclaw/context/orchestration.py:417-474 | End to end: the built-in prompt is selected, an external_untrusted candidate is never protected and is rendered only in the untrusted section, whatever source, kind, pin or bucket it declares |
| ContextAssembly.SurvivesIff | src/paperclaw/context/orchestration.py:707-772 | A candidate reaches allocation if and only if no other of the same bucket and content wins against it, and no other such winner of its unresolved group does |
| ContextAssembly.RuntimeSectionIsBuiltin | src/paperclaw/context/orchestration.py:301-318 | The first section is the runtime section, and it is the built-in prompt if and only if that sorts before every other protected candidate that names itself runtime_prompt and survives deduplication and conflicts, a condition on the collected candidates |
| ContextAssembly.RuntimeSectionCanBeTaken | src/paperclaw/context/orchestration.py:301-318 | A concrete pinned tool output that names itself runtime_prompt takes the runtime section under every budget under which assembly succeeds, and there is such a budget |
| ContextOrchestrator.Orchestrator.constructor | src/paperclaw/context/orchestration.py:400-411 | The orchestrator holds its policy |
| ContextOrchestrator.Orchestrator.Deduplicate | src/paperclaw/context/orchestration.py:707-728 | The dictionary loop computes the specified deduplication, in the dictionary's insertion order |
| ContextOrchestrator.Orchestrator.ResolveConflicts | src/paperclaw/context/orchestration.py:731-772 | The grouping and resolving loops compute the specified resolution |
| ContextOrchestrator.Orchestrator.CollectGroups | src/paperclaw/context/orchestration.py:738-744 | The grouping loop splits the candidates into the free ones and the groups |
| ContextOrchestrator.Orchestrator.Allocate | src/paperclaw/context/orchestration.py:774-873 | Allocation with its early failure computes the specification |
| ContextOrchestrator.Orchestrator.Spend | src/paperclaw/context/orchestration.py:809-858 | The loop over local counters computes the specified pass |
| ContextOrchestrator.Orchestrator.FitRenderedBudget | src/paperclaw/context/orchestration.py:875-937 | The render-and-drop loop terminates and computes the specification |
| ContextOrchestrator.Orchestrator.RecalculateAllocation | src/paperclaw/context/orchestration.py:939-964 | The recalculation loop computes the specified totals |
| ContextOrchestrator.Orchestrator.Assemble | src/paperclaw/context/orchestration.py:417-474 | The whole pipeline computes the specified assembly |
| Greedy.GreedyIff | src/paperclaw/context/builder.py:677-697 | In a strict order, a candidate is in a greedy selection if and only if it fits after the selected ones ahead of it |
| BuilderStages.FilteredAccounts | src/paperclaw/context/builder.py:263-303 | Through six filter stages every row is kept or excluded under one reason |
| BuilderStages.FilteredIff | src/paperclaw/context/builder.py:417-633 | With unique ids a row passes the six filters if and only if it is valid, not external in the two top layers, visible, active, replaced by no admitted row, and contradicted by no other such fact on its topic |
| BuilderStages.ConflictIff | src/paperclaw/context/builder.py:586-633 | A fact is excluded as conflicting if and only if some other fact on its layer and task says something else |
| BuilderStages.FilteredMeans | src/paperclaw/context/builder.py:417-633 | Even with repeated ids, what passes is valid, visible, active, within its trust boundary, unique by id and free of contradictions |
| BuilderStages.NoConflicts | src/paperclaw/context/builder.py:586-633 | After conflict exclusion no two rows on one topic differ in content |
| BuilderStages.DuplicatesKeep | src/paperclaw/context/builder.py:559-584 | After deduplication ids are distinct |
| ContextBuilder.SelectIff | src/paperclaw/context/builder.py:635-697 | When the rows do not all fit, protected rows are selected and any other row is selected if and only if it fits after the protected rows and the selected rows with a better keep key |
| ContextBuilder.SelectFailsIff | src/paperclaw/context/builder.py:654-671 | Selection fails if and only if the protected rows alone exceed the budget |
| ContextBuilder.SelectFits | src/paperclaw/context/builder.py:635-697 | A selection never exceeds the budget |
| ContextBuilder.SelectAccounts | src/paperclaw/context/builder.py:635-697 | Selected and evicted rows are the input |
| ContextBuilder.ChunksCover | src/paperclaw/context/compaction.py:319-330 | Cutting into sixteens loses and repeats nothing and gives the ceiling of n/16 non-empty chunks |
| ContextBuilder.Compaction | src/paperclaw/context/builder.py:739-796 | Compaction absorbs exactly the evicted rows and never adds to the protected ones |
| ContextBuilder.BuildFailsIff | src/paperclaw/context/builder.py:232-413 | Building fails if and only if the protected rows that pass the filters exceed the budget, so the second budget error, after compaction, cannot happen |
| ContextBuilder.BuildAccounts | src/paperclaw/context/builder.py:232-413 | Every row ends in the snapshot or among the exclusions, under one reason; summaries are the only addition to either |
| ContextBuilder.SelectedIff | src/paperclaw/context/builder.py:232-413 | Which rows of a run the finished snapshot keeps, as an if-and-only-if on the rows: those that pass the filters and are protected, or fit as described, for fitting and overflowing inputs alike |
| ContextBuilder.EvictedCoveredOnce | src/paperclaw/context/compaction.py:277-373 | The ids recorded in the summaries are exactly the ids of the evicted rows, each once; there are the ceiling of n/16 summaries, each of at most 16 rows, and each also names them in its source reference |
| BuilderBudget.OverBudgetIff | src/paperclaw/context/builder.py:343-383 | The finished snapshot is over budget if and only if what passes the filters does not fit and summarising what selection will evict, a cost of ids and contents known before the call, exceeds what selection leaves |
| BuilderBudget.NeverOverWhenAllFits | src/paperclaw/context/builder.py:308-316 | A build whose filtered rows fit succeeds within the budget |
| BuilderBudget.OverWhenTight | src/paperclaw/context/builder.py:343-383 | A snapshot with n evicted rows is always over budget when the slack is under ten tokens for each of the ceiling of n/16 summaries |
| BuilderBudget.EnoughSlack | src/paperclaw/context/builder.py:343-383 | It is never over budget when four times the slack covers 1718 bytes a summary and the bytes of the evicted ids |
| BuilderBudget.ContentBytes | src/paperclaw/context/compaction.py:398-416 | The bytes of a summary text, part by part |
| BuilderBudget.ChunkCostBounds | src/paperclaw/context/compaction.py:398-416 | What one summary costs, from below and from above |
| BuilderBudget.OverBudgetHappens | src/paperclaw/context/builder.py:343-383 | A concrete row whose snapshot is over budget, without an error |
| BuilderBudget.SummaryTokens | src/paperclaw/context/compaction.py:377-462 | A summary always costs at least ten tokens |
| BuilderMethods.Builder.constructor | src/paperclaw/context/builder.py:216-228 | The builder holds its hash function |
| BuilderMethods.Builder.ValidateItems | src/paperclaw/context/builder.py:417-433 | The loop computes the specified stage |
| BuilderMethods.Builder.EnforceTrustBoundary | src/paperclaw/context/builder.py:435-463 | The loop excludes exactly the external rows in the two top layers |
| BuilderMethods.Builder.ApplyRoleScope | src/paperclaw/context/builder.py:465-494 | The loop keeps exactly the visible rows |
| BuilderMethods.Builder.ItemVisibleToView | src/paperclaw/context/builder.py:497-512 | The marker loop answers whether some marker admits the role |
| BuilderMethods.Builder.RemoveExpiredAndSuperseded | src/paperclaw/context/builder.py:514-557 | The two loops compute the specified stage |
| BuilderMethods.Builder.Deduplicate | src/paperclaw/context/builder.py:559-584 | The loop over a set of seen ids keeps first occurrences |
| BuilderMethods.Builder.GroupFacts | src/paperclaw/context/builder.py:601-607 | The loop groups the facts by layer and task, in order |
| BuilderMethods.Builder.CollectConflicts | src/paperclaw/context/builder.py:609-616 | The loop over the groups collects the ids of every group with more than one content |
| BuilderMethods.Builder.ResolveConflicts | src/paperclaw/context/builder.py:586-633 | Grouping, collecting and filtering exclude exactly the rows with a contradicting partner |
| BuilderMethods.Builder.SelectWithinBudget | src/paperclaw/context/builder.py:635-697 | The loop over a running total computes the specified selection |
| BuilderMethods.Builder.CompactEvicted | src/paperclaw/context/compaction.py:248-373 | The chunk loop computes the specified summaries |
| BuilderMethods.Builder.Build | src/paperclaw/context/builder.py:232-413 | The stages in order, the two budget checks and the compaction in between compute the specified snapshot |
| Verify.VerdictIsSpecification | src/paperclaw/agent/verify.py:95-174 | For every history and file map: verification passes if and only if every modified path exists with its last modification's text, matches exactly when that was a write, and the latest relevant command at or after the last write succeeded; it is never incomplete, read-only histories pass, and it raises if and only if a modified path cannot be read |
| Verify.DraftOfOk | src/paperclaw/agent/verify.py:14-92 | The planning loop's tables hold exactly the last modification of each path, although an edit removes an earlier hash and a write adds one |
| Verify.PlanAll | src/paperclaw/agent/verify.py:14-92 | A property holds of all planned checks exactly when it holds of the checks of each path's last modification and of the command check |
| Verify.RunMeans | src/paperclaw/agent/verify.py:95-174 | The tally fails nothing if and only if every check passes, and covers every claim |
| Verify.IntactIff | src/paperclaw/agent/verify.py:177-201 | All file checks pass if and only if every path is as its last modification left it |
| Verify.CommandNeeded | src/paperclaw/agent/verify.py:83-92 | A verified history with a write holds a relevant successful command; a read-only one needs none |
| Verify.LatestRelevantIs | src/paperclaw/agent/verify.py:217-235 | The backward search finds the last relevant command at or after the step, or there is none |
| Verify.UnreadableIff | src/paperclaw/agent/verify.py:177-201 | All checks can be carried out if and only if no modified path is unreadable |
| Verify.FreshWriteVerifies | src/paperclaw/tools/file_write.py:22-32 | A file left exactly as written passes its checks if and only if the text holds no carriage return |
| Verify.BuildVerificationPlan | src/paperclaw/agent/verify.py:14-92 | The loop over the history builds the specified plan |
| Verify.FinishPlan | src/paperclaw/agent/verify.py:76-92 | The final loops emit existence, content, hash and command checks with their claims |
| Verify.FindLatestRelevantBash | src/paperclaw/agent/verify.py:217-225 | The loop is the specified search |
| Verify.ExecuteVerificationPlan | src/paperclaw/agent/verify.py:95-174 | The loop over the checks computes the specified result or raises |
| AgentGraph.Edges | src/paperclaw/agent/flow.py:21-69 | The complete successor table of the wired graph, for any tools, gated or not, including what a tool named like a reserved action does |
| AgentGraph.FlowGraph.constructor | src/pocketflow/__init__.py:3-20 | A graph without edges |
| AgentGraph.FlowGraph.Next | src/pocketflow/__init__.py:6-8 | Adds or replaces one edge |
| AgentGraph.FlowGraph.BuildReactFlow | src/paperclaw/agent/flow.py:21-69 | The wiring statements, in their order, build the specified graph |
| AgentGraph.FlowGraph.GetNextNode | src/pocketflow/__init__.py:42-45 | An empty action reads as default; a missing edge gives nothing |
| AgentLoop.TurnKeeps | src/pocketflow/__init__.py:46-49 | One turn of the walker keeps the loop invariant and strictly decreases the measure, whatever the model, the tools and the files do |
| AgentLoop.RunsAreBounded | src/paperclaw/agent/nodes.py:33-122 | Every run ends: at most max_steps decide calls, at most max_reflection_rounds reflection calls and 3·max_steps + 2·max_reflection_rounds + 4 turns |
| AgentLoop.DecideKeeps | src/paperclaw/agent/nodes.py:33-122 | A decide turn, entered with no stop reason, keeps the invariant |
| AgentLoop.ReflectNodeKeeps | src/paperclaw/agent/nodes.py:213-265 | A reflect turn bounds its rounds and accepts only a passed current result |
| AgentLoop.LastVerification | src/paperclaw/agent/nodes.py:175-198 | The result of a run that ended is that of the last turn of the gate, on the history of that turn and the files at that turn, or there was no such turn |
| AgentLoop.GatedDoneIff | src/paperclaw/agent/flow.py:38-69 | A gated run can end with plain done if and only if a tool is named halt |
| AgentLoop.NoReasonIff | src/pocketflow/__init__.py:42-49 | A run can end with no stop reason at all if and only if some tool has the empty name and none is named default |
| AgentRuntime.Runtime.constructor | src/paperclaw/agent/flow.py:75-88 | The runtime wires its graph |
| AgentRuntime.Runtime.DecideAction | src/paperclaw/agent/nodes.py:33-122 | prep, exec and post of the decide node on the shared state |
| AgentRuntime.Runtime.ExecuteTool | src/paperclaw/agent/nodes.py:143-164 | The tool node appends one entry and takes the pending call; an older verification result stays in the state, and only the history it was computed from tells that it is stale |
| AgentRuntime.Runtime.VerifyDoneProposal | src/paperclaw/agent/nodes.py:175-198 | The gate stores the result of planning and executing |
| AgentRuntime.Runtime.RegisterFailureSignature | src/paperclaw/agent/reflect.py:40-49 | Counts repeats of one failure signature and restarts on another |
| AgentRuntime.Runtime.Reflection | src/paperclaw/agent/nodes.py:213-265 | prep, exec and post of the reflect node |
| AgentRuntime.Runtime.FollowDecision | src/paperclaw/agent/nodes.py:235-265 | What each reflection decision does to the state |
| AgentRuntime.Runtime.Complete | src/paperclaw/runtime/node_registry.py:102-113 | The completed node sets a reason only for plain done |
| AgentRuntime.Runtime.RunCurrent | src/pocketflow/__init__.py:13-13 | Dispatches to the current node |
| AgentRuntime.Runtime.Run | src/paperclaw/agent/flow.py:90-116 | The walker loop over the wired graph ends in the specified state, or raises where it does |
| MemoryLineage.ListMemoryHistory | src/paperclaw/context/repository.py:1052-1081 | The worklist ends on any finite table, cycles included, and returns exactly the closure of the start under parent edges and same-scope child edges, sorted by age; nothing for an unknown id |
| MemoryLineage.HistoryUnique | src/paperclaw/context/repository.py:1081-1081 | There is only one such sorted history |
| MemoryLineage.SearchDone | src/paperclaw/context/repository.py:1057-1080 | When the worklist is empty the visited set is the closure |
| MemoryLineage.Advance | src/paperclaw/context/repository.py:1059-1080 | One round visits a node, keeps the search invariant and makes progress |
| MemoryLineage.Visit | src/paperclaw/context/repository.py:1061-1080 | One visit adds exactly the unvisited neighbours |
| MemoryLineage.ByAge | src/paperclaw/context/repository.py:1081-1081 | Sorting by creation and id gives the history of the visited rows |
| MemoryLineage.SameLineage | src/paperclaw/context/repository.py:1052-1081 | In a lineage of one scope every member has the same lineage |
| MemoryLineage.UpThenDown | src/paperclaw/context/repository.py:1057-1080 | Every member of a lineage is found by going up to what was replaced, in any scope, and then down in the scope of the start |
| MemoryLineage.SameHistoryIff | src/paperclaw/context/repository.py:1052-1081 | On any table, cycles included, all members of a lineage share it if and only if it has one scope, or is a ring: each member replaces every other, directly or not, and no replacement in the scope of a member lies outside |
| MemoryLineage.SameHistoryWithoutCircles | src/paperclaw/context/repository.py:1052-1081 | Where nothing replaces itself, even indirectly, one scope is the exact condition |
| MemoryLineage.CrossingDiffers | src/paperclaw/context/repository.py:1052-1081 | Two rows in two scopes, one replacing the other, see different histories |
| MemoryLineage.CircleShares | src/paperclaw/context/repository.py:1052-1081 | Two rows in two scopes that replace each other see the same history |
| MemoryLineage.BranchDiffers | src/paperclaw/context/repository.py:1052-1081 | A table in which every step between scopes can be taken back and the histories differ all the same |
| SessionLog.EveryLogOk | src/paperclaw/context/repository.py:465-569 | Whatever is appended and however often: sequences of each run are 1..n and no id or per-run key is stored twice |
| SessionLog.AppendOk | src/paperclaw/context/repository.py:509-549 | One append keeps that |
| SessionLog.AppendTwice | src/paperclaw/context/repository.py:509-528 | Appending again under the same id or key changes nothing and answers with the first sequence |
| SessionLog.ScanMeans | src/paperclaw/context/session.py:553-606 | The reconstruction loop knows exactly the started and the resolved identities and whether the run was terminated |
| SessionLog.ResumableIff | src/paperclaw/context/session.py:553-686 | Automatic resume is offered if and only if the run is not terminal and every started tool call is completed, failed or denied |
| SessionLog.ResumeIsIdempotent | src/paperclaw/context/session.py:611-686 | A second resume gives the same decision and appends nothing |
| SessionLog.ClosedStaysClosed | src/paperclaw/context/session.py:611-637 | Once a run has ended or recorded an ending, resuming it decides terminal_noop and appends nothing, whatever is appended in between |
| SessionLog.SessionService.constructor | src/paperclaw/context/session.py:277-305 | A session on an empty log |
| SessionLog.SessionService.AppendWithAutoSequence | src/paperclaw/context/repository.py:465-569 | The append transaction |
| SessionLog.SessionService.Reconstruct | src/paperclaw/context/session.py:553-606 | The loop over the events computes the specified scan |
| SessionLog.SessionService.Resume | src/paperclaw/context/session.py:611-686 | Decides and records with stable keys |
| SessionLog.SessionService.Close | src/paperclaw/context/session.py:728-760 | Ends the run once; a second close does nothing |
| ArtifactStore.ApplyKeeps | src/paperclaw/artifacts/store.py:94-275 | Every create, revision, replay or abandoned attempt keeps the store consistent and only adds to it |
| ArtifactStore.ReachableOk | src/paperclaw/artifacts/store.py:94-275 | So every reachable store has revisions 1..latest without gaps, unique ids, and a blob for every revision |
| ArtifactStore.BundlesNeverFail | src/paperclaw/artifacts/contracts.py:148-161 | On every reachable store get_bundle succeeds: its validation never fails, and it returns revisions 1..latest in order, or refuses only for the caller's limit |
| ArtifactStore.RevisionsLast | src/paperclaw/artifacts/store.py:368-383 | A stored revision is never rewritten and reads back the same for ever |
| ArtifactStore.WrittenIsRead | src/paperclaw/artifacts/store.py:368-383 | The bytes given to an accepted request are the bytes read back at any later time |
| ArtifactStore.ReplayOrConflict | src/paperclaw/artifacts/store.py:148-185 | At any later time the same key with the same request returns the original revision and with another request is refused |
| ArtifactStore.RevisionsAre | src/paperclaw/artifacts/store.py:294-332 | The bundle rows are exactly the revisions of the artifact and meet the bundle checks |
| ArtifactStore.OneToN | src/paperclaw/artifacts/contracts.py:154-161 | Rising numbers within 1..n that include each of 1..n are 1..n |
| ArtifactStore.EnsureBlobOk | src/paperclaw/artifacts/store.py:446-464 | Storing a blob never fails on a consistent store and changes nothing when the blob is there |
| ArtifactStore.FileArtifactStore.constructor | src/paperclaw/artifacts/store.py:54-92 | An empty store |
| ArtifactStore.FileArtifactStore.WriteBlob | src/paperclaw/artifacts/store.py:446-464 | Writes the blob or finds the same one |
| ArtifactStore.FileArtifactStore.Create | src/paperclaw/artifacts/store.py:94-185 | The creation transaction |
| ArtifactStore.FileArtifactStore.Revise | src/paperclaw/artifacts/store.py:187-275 | The revision transaction |
| ArtifactStore.FileArtifactStore.Read | src/paperclaw/artifacts/store.py:368-383 | Reads the latest or the given revision and checks its digest |
| ArtifactStore.FileArtifactStore.RevisionLocked | src/paperclaw/artifacts/store.py:588-607 | The row of that artifact and number |
| ArtifactStore.FileArtifactStore.RevisionById | src/paperclaw/artifacts/store.py:609-618 | The row of that id |
| DesktopQueue.StepKeeps | src/paperclaw/desktop/event_queue.py:37-75 | Every operation keeps every published item accounted for, once, in publication order, within the capacity and with at most one pending snapshot |
| DesktopQueue.Conservation | src/paperclaw/desktop/event_queue.py:37-75 | After any sequence of operations published equals pending plus drained plus dropped plus cleared, and the rest of that invariant holds |
| DesktopQueue.RetainedOk | src/paperclaw/desktop/event_queue.py:40-52 | Removing old snapshots keeps every item accounted for and counts each as dropped |
| DesktopQueue.DesktopEventQueue.constructor | src/paperclaw/desktop/event_queue.py:19-25 | An empty queue of that capacity |
| DesktopQueue.DesktopEventQueue.PublishEvent | src/paperclaw/desktop/event_queue.py:37-38 | Drops the oldest item when full and appends the event |
| DesktopQueue.DesktopEventQueue.PublishSnapshot | src/paperclaw/desktop/event_queue.py:40-52 | Replaces any pending snapshot, then appends with overflow |
| DesktopQueue.DesktopEventQueue.RemoveSnapshots | src/paperclaw/desktop/event_queue.py:40-52 | The loop keeps the events in order and counts the removed snapshots as dropped |
| DesktopQueue.DesktopEventQueue.AppendWithOverflow | src/paperclaw/desktop/event_queue.py:71-75 | Makes room for one item and appends it |
| DesktopQueue.DesktopEventQueue.Drain | src/paperclaw/desktop/event_queue.py:54-61 | Delivers the oldest items, in order, up to the limit; a limit out of range is refused without effect |
| DesktopQueue.DesktopEventQueue.Clear | src/paperclaw/desktop/event_queue.py:63-65 | Empties the queue without counting drops |
| DesktopFanout.PollDelivers | src/paperclaw/desktop/app.py:93-154 | A poll returns the entries right after the effective cursor, contiguous, up to the limit, and stores the cursor behind them |
| DesktopFanout.PollOk | src/paperclaw/desktop/app.py:93-154 | A poll keeps history serials contiguous and bounded and cursors unique and bounded |
| DesktopFanout.ClientStream | src/paperclaw/desktop/app.py:126-154 | Over any polls of any clients, a client whose cursor stays retained gets strictly rising serials, and its new cursor is the old one plus what it got plus what was reported dropped |
| DesktopFanout.ReachableMirrors | src/paperclaw/desktop/app.py:116-134 | After any polls and resets, entry k of the history holds the k-th payload drained since the last reset |
| DesktopFanout.DeliversPublished | src/paperclaw/desktop/app.py:116-154 | After any polls and resets, a poll delivers payloads published since the last reset only, in order, without a gap and under their numbers; a client without a cursor starts at the oldest kept |
| DesktopFanout.ForgottenIff | src/paperclaw/desktop/app.py:295-305 | A client that polled is still known at a later moment if and only if there was no reset and fewer than 32 other clients polled in between |
| DesktopFanout.SelectedIs | src/paperclaw/desktop/app.py:136-144 | Selecting by serial on a contiguous history is a slice |
| DesktopFanout.DesktopApi.constructor | src/paperclaw/desktop/app.py:67-77 | Nothing published, nobody known |
| DesktopFanout.DesktopApi.ResetEventFanout | src/paperclaw/desktop/app.py:295-299 | Back to that |
| DesktopFanout.DesktopApi.RememberClientCursor | src/paperclaw/desktop/app.py:301-305 | Moves the client to the end and forgets the first beyond the limit |
| DesktopFanout.DesktopApi.RecordDrained | src/paperclaw/desktop/app.py:120-124 | Numbers the drained payloads and cuts the history |
| DesktopFanout.DesktopApi.SelectAfter | src/paperclaw/desktop/app.py:136-144 | The selection loop and its new cursor |
| DesktopFanout.DesktopApi.PollEvents | src/paperclaw/desktop/app.py:93-154 | The whole poll, with its refusals of a limit or a client id and its answer while the controller has none, all without effect |
| DurableEffects.EdgeIff | src/paperclaw/durability/core.py:24-45 | The transition table read by its targets: any live run may fail, stop or need recovery, a run starts only from the queue, everything else happens to running runs; terminal are exactly the states other than queued, running and cancelling |
| DurableEffects.OutcomesNeedRunning | src/paperclaw/durability/core.py:24-45 | In every log, completing, blocking, running out of budget, cancelling and requeueing directly follow an entry that says running, and that one follows queued |
| DurableEffects.TransitionIff | src/paperclaw/durability/core.py:265-315 | A transition succeeds if and only if its edge is allowed, reason and actor are not blank, and the expected state and version are current; the three errors come in that order |
| DurableEffects.TransitionEffect | src/paperclaw/durability/core.py:285-333 | Everything an accepted transition writes: row, log entry, attempts by the bump flag, the lease kept only while running or cancelling, and no event |
| DurableEffects.ClaimEffect | src/paperclaw/durability/core.py:357-391 | Everything a claim writes, with a lease that ends at now plus the given seconds |
| DurableEffects.RenewIff | src/paperclaw/durability/core.py:393-423 | A lease is renewed if and only if the row is running or cancelling at the given version and the lease is held by that very worker; then only the lease changes, to that worker, now plus the given seconds and that version; another worker gets the lease error |
| DurableEffects.ReleaseEffect | src/paperclaw/durability/core.py:425-433 | Releasing drops the lease if and only if that worker holds it, and changes nothing else |
| DurableEffects.AppendEffect | src/paperclaw/durability/service_store.py:71-123 | An appended event is the last, has the next number, the given payload and flag, and its type cut at 160 characters |
| DurableEffects.MergeEffect | src/paperclaw/durability/service_store.py:170-202 | In merged metadata the patch wins field by field, and nothing but the metadata and the time of update changes |
| DurableEffects.CancelIff | src/paperclaw/durability/service_store.py:204-240 | Cancelling is refused without a reason or an actor and for an ended run, and does nothing to a run that is cancelling already |
| DurableEffects.CancelEffect | src/paperclaw/durability/service_store.py:240-345 | Everything a cancellation writes: a queued run stops with two numbered events and no lease, a running one is asked to stop with one event and keeps its lease; the reason is stored |
| DurableEffects.FinalizeIff | src/paperclaw/durability/service_store.py:365-413 | Who may finalise, and with which error everybody else is refused: a malformed request, then an ended run unchanged, then anybody but the holder of an unexpired lease |
| DurableEffects.FinalizeWritesAll | src/paperclaw/durability/service_store.py:415-517 | Everything finalising writes: final state and reason, also for a cancelled and a timed-out run, log entry, no lease, and one terminal event whose payload carries state and reason |
| DurableEffects.FinalizeMetadata | src/paperclaw/durability/service_store.py:432-442 | The final metadata field by field: the reason over the patch over what was stored, and the error field as the timeout leaves it |
| DurableEffects.FinalizeTimeout | src/paperclaw/durability/service_store.py:432-442 | A run that timed out carries the timeout error, unless the error it carries already has that code |
| DurableEffects.LeaseUnderOp | src/paperclaw/durability/core.py:393-433 | No operation on a run gives its lease to another worker: it is kept, dropped, or extended for its own holder |
| DurableEffects.LeaseStep | src/paperclaw/durability/core.py:337-433 | Between two adjacent moments of the interleaved system a lease is kept, dropped, extended by its own holder, or given to the worker that claims the queued run |
| DurableEffects.LeaseHandover | src/paperclaw/durability/core.py:337-433 | Over any behaviour, if a run that one worker held is later held by another, then in between the run was queued and the later holder is whoever claimed it last |
| DurableRequests.CreateCases | src/paperclaw/durability/core.py:200-259 | Creation by cases: the error order, the replay, and for a new run every field of its row, its one log entry and its key |
| DurableRequests.IdentifierIff | src/paperclaw/durability/core.py:904-908 | Run ids and idempotency keys are 1 to 200 characters without white space, once trimmed |
| DurableRequests.MissingRunIs | src/paperclaw/durability/core.py:265-433 | What each operation answers for a run that does not exist: its own input errors first, and never an effect |
| DurableRequests.ClaimsOldest | src/paperclaw/durability/core.py:337-391 | The claimed run has the least creation time of all queued runs, and the least id of those; nothing is claimed if and only if nothing is queued |
| DurableRequests.InOrderRises | src/paperclaw/durability/core.py:435-449 | Listed in order, times never fall, and ids rise where times are equal |
| DurableRequests.CandidatesAre | src/paperclaw/durability/core.py:435-449 | Listed for recovery are exactly the running and cancelling runs whose lease is missing or has run out, each once, the least recently updated first |
| DurableRequests.ActionKeyIff | src/paperclaw/durability/core.py:827-842 | Two calls share a receipt if and only if run, step and tool agree up to surrounding white space and the arguments agree; a call with a blank part has none |
| DurableRequests.ReserveEffect | src/paperclaw/durability/core.py:451-502 | Reserving answers with the stored receipt or makes a pending one of that run, and changes nothing else |
| DurableRequests.CompleteEffect | src/paperclaw/durability/core.py:504-538 | Completing by cases: pending, completed, failed and unknown receipts |
| DurableRequests.FailEffect | src/paperclaw/durability/core.py:540-564 | Failing by cases, with type and message trimmed and cut at 120 and 500 characters |
| DurableRequests.ExecuteCalls | src/paperclaw/durability/core.py:796-824 | The callback of an execution runs if and only if its action has no receipt yet; then the receipt holds what it returned, and otherwise nothing changes |
| DurableRequests.OtherArgumentsRun | src/paperclaw/durability/core.py:796-842 | After one execution, a second one with other arguments runs its callback |
| DurableRequests.ExecuteTouches | src/paperclaw/durability/core.py:796-824 | An execution changes no run, no key and no receipt but that of its own action |
| DurableRequests.DefaultDecides | src/paperclaw/durability/core.py:148-180 | Each action and each reason of the default policy, as an if-and-only-if on state, receipts and attempts |
| DurableRequests.RaisingIsManual | src/paperclaw/durability/plugins.py:41-63 | A policy that raises leads to manual recovery under its own id and the name of the exception, whether the coordinator or the registry catches it |
| DurableRequests.RecoveryEntry | src/paperclaw/durability/core.py:725-787 | The row, log entry and report of a recovered run: signed by the policy, explained by its decision |
| DurableRequests.LostRaceIsReported | src/paperclaw/durability/core.py:725-787 | A run that has moved on since it was listed is left alone and reported as unchanged |
| Ordering.LexLessIff | src/paperclaw/context/orchestration.py:999-1018 | Key tuples and texts compare by the first place at which they differ, and a proper prefix comes first |
| ContextRules.WinsIff | src/paperclaw/context/orchestration.py:999-1007 | One candidate wins against another if and only if it is more trusted; or equally trusted and the only fact; or, those equal, of higher priority; then fresher; then of smaller id |
| ContextRules.TrustRankIff | src/paperclaw/context/orchestration.py:33-39 | The five trust levels form the strict chain system, trusted_local, user, tool_output, external_untrusted |
| ContextRules.PlacedIff | src/paperclaw/context/orchestration.py:1010-1018 | A candidate is placed before another if and only if its bucket is listed earlier, or it has the higher priority there, or the smaller id |
| ContextRules.DuplicatesGo | src/paperclaw/context/orchestration.py:707-728 | Of the candidates of one bucket and content exactly the one preferred to all others, by these fields, is kept |
| ContextRules.LosersGo | src/paperclaw/context/orchestration.py:731-772 | Of the members of one unresolved group exactly the one preferred to all others, by these fields, survives |
| ContextRules.PriorityBeatsFreshness | src/paperclaw/context/orchestration.py:707-772 | With equal trust and fact status, a member of lower priority never survives conflict resolution, nor a duplicate of lower priority deduplication, however fresh |
| ContextRules.DuplicatesExplained | src/paperclaw/context/orchestration.py:718-728 | Every duplicate is excluded in the name of a preferred candidate of its bucket and content |
| ContextRules.ConflictsExplained | src/paperclaw/context/orchestration.py:748-770 | Every group of two or more has its conflict recorded, and each record names the member preferred to all others and exactly the others, each of them excluded in its name |
| ContextRules.ConflictsInOrder | src/paperclaw/context/orchestration.py:745-772 | Conflicts are reported in the order of their group names, and the survivors are those without a group as they came, then one of each group in that order |
| ContextRules.KeptIff | src/paperclaw/context/orchestration.py:179-192 | Allocation keeps a candidate whatever it costs if and only if it is not external and is pinned, in a top layer, a constraint, evidence or an open todo |
| ContextRules.LimitIs | src/paperclaw/context/orchestration.py:811-816 | A quota is the floor of its share of what the protected candidates leave; a bucket without one may take all of it |
| ContextRules.RefusalExplained | src/paperclaw/context/orchestration.py:818-858 | A candidate that is not allocated is excluded for the first of three reasons that holds after the allocated ones preferred to it: larger than the single limit, than its quota, than the budget |
| ContextRules.DefaultBuckets | src/paperclaw/context/orchestration.py:51-59 | The default order of the seven buckets; any other comes after them |
| ContextRules.FailureReports | src/paperclaw/context/orchestration.py:774-937 | A failure reports the room there is and what the protected survivors need: their tokens if those are too many, else the size of their prompt |
| ContextRules.TokenCountIs | src/paperclaw/context/orchestration.py:967-972 | A text costs one token for every four characters begun |
| ContextRules.PromptLeavesReserve | src/paperclaw/context/orchestration.py:875-964 | A prompt has at most four characters for every token of the input limit less the reserve, and the allocation reports its size |
| ContextRules.FailsByLength | src/paperclaw/context/orchestration.py:774-937 | Assembly fails if and only if the protected survivors cost more than the room there is, or their prompt has more than four characters for every token of it |
| ContextRules.SelectedReported | src/paperclaw/context/orchestration.py:799-859 | Each selected candidate is reported with its tokens, as protected or under its bucket |
| PromptContents.SensitiveIsWithheld | src/paperclaw/context/orchestration.py:1021-1040 | Non-interference: two selections that differ only in what sensitive candidates other than the runtime part say give the same sections and the same prompt |
| PromptContents.SecretsDoNotMatter | src/paperclaw/context/orchestration.py:1021-1040 | Replacing the content of one selected sensitive candidate that is not the runtime part changes neither the sections nor the prompt |
| PromptContents.CandidateShown | src/paperclaw/context/orchestration.py:320-361 | Every other selected candidate is shown in the section of its side of the trust boundary: its id, source, trust and kind in one line, then its content, or that it is withheld if it is sensitive |
| PromptContents.SectionsLaidOut | src/paperclaw/context/orchestration.py:301-361 | What a section is, character by character: the selected candidates of its side, each once, in placement order, each under its labels, a blank line between them, after the warning in the untrusted section; the runtime section is the runtime part as it is |
| PromptContents.PromptLaidOut | src/paperclaw/context/orchestration.py:362-394 | What a prompt is: the runtime part alone as it is, or all sections in order, each under its title, a blank line between them |
| PromptContents.JoinTiles | src/paperclaw/context/orchestration.py:1021-1040 | Joined text is its parts one after the other with the separator between them and nothing else |
| PromptContents.Labels | src/paperclaw/context/orchestration.py:1034-1035 | The words under which trust and kind are shown |
| BuilderRules.KeepsIff | src/paperclaw/context/builder.py:712-737 | What is kept rather: neither observation nor large file before large file before observation, a large file being over 500 tokens; then the higher priority, the later start, the larger id |
| BuilderRules.NoneDisplaced | src/paperclaw/context/builder.py:635-697 | When not everything fits, no unprotected row is kept while one that outranks it, by these fields, and costs no more is evicted |
| BuilderRules.SeesIff | src/paperclaw/context/builder.py:497-512 | What each role sees: shared rows, its own, and a worker those of its task |
| BuilderRules.WhyLeftOut | src/paperclaw/context/builder.py:263-303 | For every row and every reason, as an if-and-only-if on the rows: it is left out for trust, scope, expiry, supersession or contradiction, the first that holds in this order, or passes |
| BuilderRules.NeverDropped | src/paperclaw/context/builder.py:635-697 | Every snapshot holds every current, undisputed row of the two top layers, constraint, evidence and todo without an end |
| BuilderRules.OverflowIff | src/paperclaw/context/builder.py:635-697 | A row is excluded for the budget if and only if it passes the filters and is not in the snapshot |
| BuilderRules.FailureReports | src/paperclaw/context/builder.py:654-671 | A build that fails reports what the protected rows that pass the filters cost, and the budget |
| BuilderRules.SixteenEach | src/paperclaw/context/compaction.py:319-330 | Sixteen rows to a summary, in order, the last one taking what is left |
| BuilderRules.DigitsAre | src/paperclaw/context/compaction.py:409-413 | A count is written in decimal without leading zeros |
| BuilderRules.SnippetsAre | src/paperclaw/context/compaction.py:398-408 | Quoted are the first 80 characters of the first rows, 400 in all, and no further than the first row that would exceed them |
| BuilderRules.SummaryIs | src/paperclaw/context/compaction.py:418-462 | A summary is a valid, unprotected observation that starts now, never ends, is seen by every role, costs one token for every four bytes begun and names its rows in order |
| BuilderRules.SummaryIdIgnoresOrder | src/paperclaw/context/compaction.py:415-427 | The id of a summary depends on which rows it is made of, not on their order or the time |
| VerifyRules.PassedIff | src/paperclaw/agent/verify.py:95-174 | Said of positions in the history: the check raises if and only if a changed path is unreadable; the verdict is passed if and only if each path is as its last change left it and, if anything was changed, the last relevant command whose step is no less than that of any change succeeded; it is never incomplete; and its flag says whether there was such a command |
| VerifyRules.LastWriteIsGreatest | src/paperclaw/agent/verify.py:107-108 | The step of the last write is the greatest step of any successful write or edit |
| VerifyRules.VerifyingIff | src/paperclaw/agent/verify.py:217-225 | There is a verifying command if and only if some relevant command has a step no less than any change, and it is the last such command |
| VerifyRules.LooksRelevantIff | src/paperclaw/agent/verify.py:217-236 | A command is relevant if and only if it mentions pytest or the name of a changed file, in any case |
| VerifyRules.NamedBehind | src/paperclaw/agent/verify.py:218-218 | The file name of a path is what is behind the last slash, passing over empty parts and single dots |
| VerifyRules.UniversalTranslates | src/paperclaw/agent/verify.py:184-191 | Reading translates each line ending by itself and nothing else |
| VerifyRules.NormalizedReplaces | src/paperclaw/agent/verify.py:204-214 | What is hashed has each pair of return and line feed replaced and nothing else |
| VerifyRules.ClaimsAre | src/paperclaw/agent/verify.py:95-174 | Claim by claim, which are reported as passed and which as failed: existence, content, edit and hash of the last change of every path, and the command; none is left uncovered |
| PlanRules.PlanIs | src/paperclaw/agent/verify.py:14-92 | A plan check by check: existence in the order in which the paths were first changed, contents in the same order, hashes of the paths last written whole in the order of the writes since which they are whole, and the command last, if anything was changed |
| VerifyRules.CheckOnFile | src/paperclaw/agent/verify.py:177-201 | What each check answers for a missing path, a directory, an unreadable file and a text |
| VerifyRules.StatusOfAnyPlan | src/paperclaw/agent/verify.py:160-174 | For any plan at all: failed if and only if a claim failed; otherwise incomplete if and only if a claim is uncovered or a change untested; one piece of evidence for each check |
| AgentHistory.TurnRecords | src/paperclaw/agent/nodes.py:72-164 | A turn adds exactly one entry if it runs a tool or gets an unusable answer, with the outcome of the tool, and otherwise none |
| AgentHistory.HistoryIs | src/paperclaw/agent/nodes.py:72-164 | Over whole runs: every entry of the history belongs to exactly one turn, with the call, step and outcome of that turn, and every turn that ran a tool or got an unusable answer has its entry, in order |
| AgentHistory.OutcomesAreTheTools | src/paperclaw/agent/nodes.py:143-164 | Every entry that is not a marker is the call the model asked for in the turn before, and its outcome is what the tool returned in that turn |
| AgentHistory.WholeRun | src/paperclaw/agent/nodes.py:143-164 | The same of the history that a run leaves, however it ends |
| AgentHistory.ToolRunsTheCall | src/paperclaw/agent/nodes.py:118-152 | A tool turn runs the call of the decide turn right before it, under its name |
| AgentHistory.CompletedMeansVerified | src/paperclaw/agent/nodes.py:175-265 | A run that ends completed_verified had, at its last turn of the gate and with nothing recorded since, every changed file as its last change left it; and if anything was changed, the last relevant command no earlier than any change is one the model asked for, the shell ran before that turn, and the tool really returned as successful |
| AgentRules.DecideLeads | src/paperclaw/agent/nodes.py:33-122 | Where a decision leads, in order: out of steps, cancelled, timed out, then the answer: raised, unusable and the bound on unusable answers in a row, a proposal, a call; with the state it leaves |
| AgentRules.GateLeads | src/paperclaw/agent/nodes.py:175-198 | Where the gate leads |
| AgentRules.ReflectLeads | src/paperclaw/agent/nodes.py:213-265 | Where reflection leads: a passed result is accepted unasked, out of rounds or as many equal failures in a row as rounds blocks unasked, and otherwise an admissible decision is followed and any other is an internal error |
| AgentRules.ValidIff | src/paperclaw/agent/parser.py:85-102 | A reflection decision is followed if and only if it cites evidence there is, accepts only what passed, and otherwise repeats every failed claim exactly once |
| AgentRules.CountersCount | src/paperclaw/agent/nodes.py:69-93 | In every run, while it works: the step count is the number of decisions so far, and the count of unusable answers is the length of their unbroken row up to now |
| MemoryLineage.LineageIsLeast | src/paperclaw/context/repository.py:1057-1080 | A lineage is the least set of rows with its start that holds every replacement of its rows in the scope of the start, and whatever its rows say they replace |
| MemoryLineage.ToldInTime | src/paperclaw/context/repository.py:1081-1081 | In a history creation times never fall, and ids rise where they are equal |
| SessionRules.AppendIs | src/paperclaw/context/repository.py:465-569 | An append is answered by the first event of that id or per-run key, and otherwise adds the event as given under the number after those of its run |
| SessionRules.SameCallIff | src/paperclaw/context/session.py:763-782 | Two events are about one call if and only if their call ids agree, or without any their tools and indexes, or they are one event |
| SessionRules.StatusIs | src/paperclaw/context/session.py:553-637 | An ended run is left alone, a run with a started call that is neither completed, failed nor denied needs a person, any other resumes; cancelling a call does not resolve it |
| SessionRules.LastSafeIs | src/paperclaw/context/session.py:560-572 | The last safe point is the greatest number of a completed model, tool or node boundary, and 0 without any |
| SessionRules.OpenCallsNamed | src/paperclaw/context/session.py:573-591 | The calls named to a person are exactly the open ones, sorted by name, one name for each |
| SessionRules.ResumeRecords | src/paperclaw/context/session.py:611-686 | Everything the first resume of a run records: two numbered events under the keys of the run, or nothing if it has ended |
| ArtifactRules.BoundedIff | src/paperclaw/artifacts/store.py:718-728 | Identifiers are 1 to 200 letters, digits, underscores, dots, colons and hyphens |
| ArtifactRules.CreateIs | src/paperclaw/artifacts/store.py:94-185 | Creation by cases: which request is refused with which error and no effect, when it is a replay, and every field written otherwise |
| ArtifactRules.ReviseIs | src/paperclaw/artifacts/store.py:187-275 | Revision by cases, with the next number, the time of change and the key of that artifact |
| ArtifactRules.ReadIs | src/paperclaw/artifacts/store.py:368-383 | Reading by cases: only a malformed id, a missing artifact or a number beyond the latest fails; zero and none mean the latest |
| ArtifactRules.KeysApart | src/paperclaw/artifacts/store.py:124-213 | The keys of creations and revisions never meet, and those of revisions meet if and only if artifact id and key, joined by a colon, are one text; never for ids without a colon |
| ArtifactRules.ColonsMeet | src/paperclaw/artifacts/store.py:213-213 | Two artifact ids, one with a colon, whose revision keys are one text |
| QueueRules.PublishIs | src/paperclaw/desktop/event_queue.py:37-75 | Everything a publication does: appends, loses the oldest item at capacity, and a snapshot first takes the place of a pending one |
| QueueRules.DrainIs | src/paperclaw/desktop/event_queue.py:54-61 | Draining delivers the oldest items, as many as asked for, between 1 and 500, and there are; another number changes nothing |
| QueueRules.OldestAreLost | src/paperclaw/desktop/event_queue.py:37-75 | Over any operations: a lost event is older than everything pending, and a lost snapshot older than any pending snapshot |
| FanoutRules.PollAnswers | src/paperclaw/desktop/app.py:93-154 | In every run of the fan-out a poll answers exactly the payloads published since the last reset after the place the client had reached, or after all but the last 2048, in order, under their numbers, up to the limit, and says how many it will never see |
| FanoutRules.KnownIff | src/paperclaw/desktop/app.py:295-305 | A client is known later if and only if there was no reset and fewer than 32 other clients polled in between |
| FanoutRules.AskedIs | src/paperclaw/desktop/app.py:93-115 | A limit outside 1 to 500 and a blank or longer than 80-character client name are refused without effect; any other request is answered under the trimmed name |

## Left out

- SQL, JSON text, WAL, backups and schema: a table is a map or a sequence, a transaction is one step that applies fully or not at all.
- The length and size limits of the metadata sanitiser, and the metadata column of the transition log: metadata is any map.
- DurableRequests.ActionKeyIff: arguments are what is left of them after the sanitiser that drops credentials, as one opaque text, so two calls that differ only in a dropped field count as having equal arguments.
- SHA-256 and uuid: a digest is the value it digests, a generated id is a fresh string given by the caller.
- Clocks: every operation gets any real number as its time; no theorem needs time to move forward.
- The services around a run (HTTP, CLI, desktop window, providers, exporters, evaluation reports): plumbing.
- Run states outside the nine: the state column is taken to hold one of them, since every write stores one of them.
- Calls of `transition` that requeue a run or bump its attempts from outside reconciliation: the recovery bound is for systems in which only reconciliation does so.
- DurableSafety.RecoveryIsBounded: assumes a policy that requeues only a running run never recovered before, which the default policy is; a policy of another kind can requeue without bound.
- Collecting candidates from the repository, and the fingerprints, memory ids and trace events of an assembly: candidates are the input.
- Duplicate candidate ids in orchestration, where the order of the input would matter: the pipeline theorems assume distinct ids.
- The trust label of a section: it is a constant of the section's name.
- ContextBudget.LimitBounds: quotas are reals and the floor is exact; rounding of floating-point products is not modelled.
- ContextStages.DedupStepRepresents: the winner named in an exclusion reason is the one that won at that step; that it survives later steps is not claimed, and it need not.
- Context builder: rows of one run with distinct ids and no summaries of an earlier build among them; repeated compaction over stored summaries, rendering of the snapshot text and its hash are not part of this model.
- BuilderMethods.Builder.ResolveConflicts: conflicting rows are excluded in input order, where the source's order is that of a set.
- BuilderMethods.Builder.ValidateItems: validation is a flag and token signs; the field-by-field checks are not part of this model.
- Model calls, tool execution and the file system of the agent: arbitrary replies, outcomes and file maps at every turn; directories and undecodable files are unreadable files.
- The emitted events, `verification_status` and `remaining_issues` of the agent state: nothing in the loop reads them.
- Verify.LatestRelevantIs: relevance folds ASCII case only, where the source folds Unicode case.
- Verify.FindLatestRelevantBash: relevance folds ASCII case only, and file names are those of POSIX paths.
- The retry, batch and asynchronous variants of the flow library: the agent's nodes run with a single attempt.
- Memory ranking, search and snapshots, checkpoints, task states, the idempotency ledger and `commit_runtime_step`: guarded inserts without further logic.
- SessionLog.SessionService.AppendWithAutoSequence: of two stored events that match, one by id and one by key, the database may answer with either; the model answers with the earlier.
- SessionLog.SessionService.constructor: opening and reopening a stored conversation, and the memory snapshot taken then, are not part of this model.
- ArtifactStore.FileArtifactStore.Create: metadata, titles and links are one opaque text; whether they are valid is given.
- Listing, counting and exporting artifacts, path and symlink checks, and a blob file damaged from outside: reading checks the digest, but nothing in the model damages a blob.
- Desktop event contents: a payload is a number, and a limit or client id of another type is not modelled.
- DesktopQueue.DesktopEventQueue.constructor: a capacity below two is a precondition, where the source raises.
- Threads within a step: locks make each method one step.
- Redis, Postgres, multi-agent, trace and retrieval packages, the executor gateway, migrations and the capability catalogue.
