# AgentOS runtime: verified model

AgentOS runs agents durably: workers claim runs from a store, execute batches of tool actions against an
append-only journal, checkpoint, recover and resume. This project models the logic that makes that safe and
proves what it guarantees, for every input, interleaving and crash the model allows. Where the code does less
than its comments promise, a concrete history shows it and a companion theorem says exactly when the promise
holds.

`dafny verify dfyconfig.toml` checks everything.

## What is modelled

- **Run ownership** (`RunClaims`, `RunOwnership`, `ClaimSafety`,
  `SessionCourse`, `LostUpdates`, `RunQueue`): queue operations, operators and run sessions as
  atomic steps over one run row and one state row, with crashes between any two of them; in which order a session
  writes and when it is over; the same operations as
  classes over a compare-and-set store, tied to the steps.
- **Run states** (`BreadthFirst`, `RunStates`): the transition table, both breadth-first searches over it (proved
  over an arbitrary finite table) and the versioned state machine.
- **Action execution** (`ActionProtocol`, `ActionSafety`, `Executor`, `WorkerPool`, `BatchExecution`): the journal
  guard, the approval gate, intents, commits and the hook as a step machine with any number of interleaved tasks;
  the executor as a class that takes exactly those steps; the bounded worker pool; waves and skipping.
- **Graphs** (`DependencyGraph`, `Waves`, `PlanCycles`): layering by longest chain, and depth-first cycle search.
- **Checkpoints** (`Checkpoints`): numbering and incremental retention against a batch rule.
- **Protocol pieces** (`JsonRpc`, `JsonSchema`, `JsonValues`, `CanonicalJson`, `Decimals`, `Sequences`): call correlation
  (section 5 of the JSON-RPC 2.0 Specification), defaults and validation, canonical JSON and idempotency keys.
- **Names and ids** (`ToolIds`, `ToolNames`, `McpToolIds`, `ToolFamilies`, `Ulids`).
- **Stateful policies** (`AgentLoop`, `CircuitBreakers`): turns, step and recovery budgets over resumptions; the
  breaker under a clock that never goes back.
- **Locks and messages** (`Locks`, `AnthropicMessages`): leases that expire and waiters that are woken once; the
  grouping of chat messages into alternating turns.

What the code calls and the model does not contain is a parameter or an answer of the environment: model and tool
results, policy decisions, clocks, random digits, regular expressions, lower-casing, hashing.

## Assumptions

- A run update and a state save are compare-and-set on the version (packages/persistence/src/store.ts:38,
  packages/persistence/src/embedded/embedded-store.ts:145-180). Creation of the run has completed: both rows carry
  version 1. Claim times are positive. Store calls do not fail otherwise, except where an operation says so.
- The journal is append-only and a lookup by key finds the newest entry, as in the embedded store
  (packages/persistence/src/embedded/embedded-store.ts:370-381). One executor works on a run at a time.
- Where keys and ids are compared, the hashes of the two records compared do not collide; nothing is assumed of other values.
- Clocks never go back between two readings, in the breaker and in the locks.
- The order in which canonical keys are written is any strict total order; JavaScript's own placing of
  integer-like keys is one.

## Where the code does less than it promises

- A session bumps its local version before its write is accepted, so a rejected session can be accepted again
  (`RunOwnership.StaleSessionOverwrites`, and with sessions kept to their loop
  `LostUpdates.StaleContainmentOverwrites`); `RunOwnership.AcceptedIffMissesMatch` says exactly when. The comment at
  packages/runtime/src/session.ts:61-65 promises that this cannot happen.
- `advanceTo` writes without a bump, so a queue or start write can undo a terminal status
  (`LostUpdates.TerminalStatusLost`); `LostUpdates.UndoneIffAdvancedSinceRead` says exactly
  when it has happened, `LostUpdates.LosableIffSessionNear` when it still can.
- `release` does not ask who holds the claim (`ClaimSafety.StaleReleaseRepeatsAttempt`,
  `ClaimSafety.AttemptIncreasesIff`).
- A hook that throws after a succeeded commit appends a failure, after which a retry-safe action runs again
  (`ActionSafety.HookFailureRepeatsSuccess`); `ActionSafety.RepeatableIffReplaySafe` gives the exact condition.
- Skipping follows direct dependencies only (`BatchExecution.SkippingIsNotTransitive`); `BatchExecution.WaveIsFaithful`
  says exactly which actions are skipped.
- A new session starts with no recovery attempts, so a resumed run can recover more often than its limit
  (`AgentLoop.LimitIsOvershot`); `AgentLoop.RecoveryLimitHoldsIff` and `AgentLoop.RecordedWithinLimitIff` say exactly
  when, and `AgentLoop.LimitsHoldAcrossResumptions` how far at most.
- Canonicalizing drops an own key `__proto__`, so a value that has one looks like one without it
  (`CanonicalJson.ProtoLooksEmpty`, `CanonicalJson.ConfusedIffProto`).  Arguments a provider sends lose the key before.
- An answer whose error member is null takes its call out of the table and then throws, so the call never settles
  (`JsonRpc.NullErrorLosesCall`); `JsonRpc.AccountedForIff` says that nothing else loses a call.
- The schema validator reads names that objects inherit as if they were fields (`JsonSchema.InheritedNamesMislead`);
  `JsonSchema.OwnNamesDecide` says that nothing else misleads it.
- A probe that spans the end of the open time takes no slot (`CircuitBreakers.UnclaimedProbeIff`).
- With nothing retained every checkpoint gets number 1 (`Checkpoints.NumbersNeverReused`).
- Tools of two MCP servers may share an id, because a server name may hold dots; `McpToolIds.NamespacesMeetIff` says
  exactly for which servers.
- Tool names that are not in the id grammar may not survive the wire (`ToolNames.RoundTripExactly`).

## Model

| member | source | states |
|---|---|---|
| `RunOwnership.RunKeepsInv` | packages/runtime/src/session.ts:206-242 | over every interleaving of queue operations, starts, session writes, restores and crashes: one log entry per version, the state version never ahead of the run version, every session's copy explained by its last accepted write and its rejected ones |
| `RunOwnership.OwnersHoldDistinctVersions` | packages/runtime/src/session.ts:222-230 | sessions that never had a write rejected hold pairwise distinct versions, none above the stored one, so at most one of them can write |
| `RunOwnership.PersistMeansUndisturbed` | packages/runtime/src/session.ts:222-242 | such a session's persist is accepted exactly when no other version-bumping write hit the run since its own previous accepted one; a refused one leaves the row alone |
| `RunOwnership.AcceptedIffMissesMatch` | packages/runtime/src/session.ts:228-230 | what the version check decides for every session, stale or not: accepted exactly when the writes of others since its last accepted one number as many as its own rejected ones |
| `RunOwnership.StaleSessionOverwrites` | packages/runtime/src/session.ts:61-65 | the promise that a stale worker never overwrites newer state fails: a history in which a once rejected session gets its next write accepted and shuts out the owner |
| `RunOwnership.StartCarriesStoredVersions` | packages/runtime/src/runtime.ts:468-510 | a session rebuilt by start carries exactly the two stored versions |
| `RunOwnership.PersistInOnePiece` | packages/runtime/src/session.ts:222-242 | the three writes of persist as three steps amount to one declared outcome, including a refused state write |
| `RunOwnership.PersistInFull` | packages/runtime/src/session.ts:222-242 | a persist whose two copies match the store is accepted in full and leaves both rows at one version |
| `RunOwnership.RestartAfterCrash` | packages/runtime/src/runtime.ts:1013-1027 | after any history, crashes between the writes of persist included, state version <= run version; and a restarted run is never refused as long as nobody else writes: after any list of its own advances, persists and checkpoints, interleaved with anything of others that leaves both rows alone, its next persist is accepted in full |
| `ClaimSafety.RunKeepsClaimInv` | apps/worker/src/queue.ts:90-207 | until a session has a write rejected, every accepted write did to the claim it found only what its operation may do |
| `ClaimSafety.ClaimsAreSeparated` | apps/worker/src/queue.ts:103-147 | any two successful claims of a run are separated by a successful enqueue, release or reclaim, which cleared its claim time |
| `ClaimSafety.AttemptIncreasesIff` | apps/worker/src/queue.ts:116-124 | between consecutive claims the attempt number grows exactly when the last enqueue or release between them did not write a smaller one |
| `ClaimSafety.AttemptsIncrease` | apps/worker/src/queue.ts:150-163 | if every release comes from the current holder, attempt numbers strictly increase over all claims between two enqueues |
| `ClaimSafety.StaleReleaseRepeatsAttempt` | apps/worker/src/queue.ts:150-163 | without that proviso they need not: a history in which the release of an old ticket makes the next claim repeat an attempt number |
| `ClaimSafety.VersionCheckSeesRow` | packages/runtime/src/session.ts:206-220 | a queue write that passes the version check found the stored claim, and found a different row only at a version a session wrote; `LostUpdates` says exactly when it did |
| `ClaimSafety.AcceptedWritesLeaveTheirRow` | apps/worker/src/queue.ts:90-207 | over all runs: every accepted write of a queue or an operator leaves exactly the fields its operation prescribes, so a claim of a run that is neither CREATED nor QUEUED leaves a marker to resume it; a rejected write leaves row and log alone |
| `LostUpdates.OverwritesUnseenIffAdvanced` | packages/runtime/src/session.ts:206-220 | a write that passes the version check overwrites a row its author never saw exactly when a session has advanced the run to another status since the read; the claim is never the difference |
| `LostUpdates.UndoneIffAdvancedSinceRead` | apps/worker/src/queue.ts:90-207 | for every enqueue, claim, release, reclaim, start or operator hop that passes the version check, after any steps since its read: it undoes a terminal status if and only if the last accepted advanceTo since was to a terminal one |
| `SessionCourse.MovesAreSteps` | packages/runtime/src/loop.ts:93-109 | sessions kept to their loop, which end at the containment after an exception, at a persist in a resting state or at a second refused write, do nothing the ownership steps do not allow, so all results about those hold of them |
| `LostUpdates.LosableIffSessionNear` | packages/runtime/src/loop.ts:1047-1063 | at the moment of reading, for sessions kept to their loop: some continuation lets a write of the reader undo a terminal status only if a session that is neither completed nor cancelled holds the stored version and is not past its containment's advance, or is one version behind and may persist before it next advances; and surely if so, unless that session is inside a persist whose state write would first have to turn out otherwise |
| `LostUpdates.AnyTerminalAdvanceIsLost` | packages/runtime/src/session.ts:219 | after any accepted advance to a terminal status, an enqueue that read that version before goes through and undoes it, and so does a start unless it read a paused run |
| `LostUpdates.TerminalStatusLost` | packages/runtime/src/runtime.ts:468-510 | it happens from the creation of a run on with no write ever refused: a history of a session kept to its loop for each terminal status an initializing run can reach |
| `LostUpdates.StaleContainmentOverwrites` | packages/runtime/src/loop.ts:1047-1063 | a stale session overwrites newer state within its loop: taken over, refused once, it fails the run in its containment, persists and shuts out the new owner |
| `RunQueue.StoreRunQueue.Write` | apps/worker/src/queue.ts:200-207 | a marker is stored with exactly one version bump, only at the version that was read; otherwise the store is unchanged and the error says which |
| `RunQueue.StoreRunQueue.Enqueue` | apps/worker/src/queue.ts:90-101 | unknown runs are refused, terminal ones ignored, others get a cleared marker at attempt 0 if unchanged since read |
| `RunQueue.StoreRunQueue.Claim` | apps/worker/src/queue.ts:103-147 | claims the first run of the page that is free, live and unchanged; a run that is created or queued is started and every other one resumed, at the next attempt, now and in this worker's name, with one version bump and the status kept; nothing is claimed exactly when no run of the page qualifies; any other error stops it |
| `RunQueue.StoreRunQueue.Release` | apps/worker/src/queue.ts:150-163 | hands the ticket's attempt and action back whoever holds the claim; a conflict is swallowed |
| `RunQueue.StoreRunQueue.ReclaimStale` | apps/worker/src/queue.ts:178-197 | the loop over a page computes the declared sweep, also when it stops at a deleted run |
| `RunQueue.SweepFreesExactlyReleased` | apps/worker/src/queue.ts:178-197 | a sweep frees and reports exactly the runs whose claim was stale and whose row is unchanged since read, keeps their attempts, and touches no other row |
| `RunQueue.RunSession.AdvanceTo` | packages/runtime/src/session.ts:206-220 | walks a found path and writes the row at an unchanged version: exactly the protocol's step |
| `RunQueue.RunSession.Persist` | packages/runtime/src/session.ts:222-242 | bumps the local version before the write is accepted; its outcome is exactly that of the protocol's steps, cut short when the run row is refused |
| `RunQueue.AdvanceRunTo` | packages/runtime/src/transition.ts:37-84 | whatever others write between the hops, an operator's walk goes through exactly when every hop finds the version the previous one left, and costs one version per hop of the found path; otherwise it stops at the first hop that does not and leaves the row as others made it; unreachable targets change nothing |
| `BreadthFirst.FindIsShortest` | packages/runtime/src/session.ts:303-321 | over any finite table: the search ends and returns a shortest legal path, or nothing exactly when source and target are equal or no legal path joins them |
| `RunStates.EdgeIffTrigger` | packages/core/src/state-machine.ts:44-131 | a state is an allowed target exactly when some trigger leads to it |
| `RunStates.TableByTarget` | packages/core/src/state-machine.ts:50-76 | the transition table read by target: for each state exactly the states a run can come from; every run that is not terminal can fail and be cancelled |
| `RunStates.FindPath` | packages/runtime/src/session.ts:303-321 | the session's search, with its trigger filter, returns the shortest path of the generic search |
| `RunStates.SearchForAdvance` | packages/runtime/src/transition.ts:37-62 | the operator's search, without the filter, returns the same path |
| `RunStates.FinishedRunsStay` | packages/core/src/state-machine.ts:50-99 | no state is reachable from COMPLETED or CANCELLED but itself, and neither search finds a path out |
| `RunStates.AdvancesAreLegal` | packages/runtime/src/session.ts:206-220 | any sequence of advances stays on legal hops and never leaves COMPLETED or CANCELLED |
| `RunStates.RunStateMachine.Apply` | packages/core/src/state-machine.ts:211-220 | accepted exactly when the state is not terminal and a target of the trigger is legal, the first such target being taken; one version and one history record each; the history stays a chain of legal transitions from the start to the current state |
| `RunStates.RunStateMachine.ApplyIfVersion` | packages/core/src/state-machine.ts:226-229 | a caller with a stale version changes nothing |
| `ActionSafety.RunKeepsInv` | packages/executor/src/executor.ts:194-452 | over every sequence of batches, task interleavings, approval decisions and crashes, every event of the log is one the executor may write at that point |
| `ActionSafety.InvocationsAreJournaledAndAuthorized` | packages/executor/src/executor.ts:206-408 | every tool invocation is preceded by its own intent record and by an allow or by a resolved, unexpired approval of the same tool and arguments, whose substituted arguments it uses |
| `ActionSafety.FailedKeyReinvokedOnlyIfSafe` | packages/executor/src/executor.ts:212-249 | after a failed commit a key is invoked again only after an intent that found the failure and was idempotent or retry-safe |
| `ActionSafety.SucceededKeyNeverReinvoked` | packages/executor/src/executor.ts:212-249 | after a succeeded commit a key is never invoked again, unless the invocation hook threw after a commit and the action was then retried as safe to repeat |
| `ActionSafety.HookFailureRepeatsSuccess` | packages/executor/src/executor.ts:421-452 | that exception is real: for every action declared safe to repeat, a history in which a throwing hook makes it run twice although it succeeded |
| `ActionSafety.RepeatNeedsDeclaration` | packages/executor/src/executor.ts:212-249 | whenever a key is invoked after a success, some earlier intent of that key declared it idempotent or retry-safe |
| `ActionSafety.RepeatableIffReplaySafe` | packages/executor/src/executor.ts:212-452 | the exact condition: a history in which a succeeded key runs again, all its intents declaring the same idempotency, exists if and only if that idempotency is idempotent or retry-safe |
| `Executor.SoloEnds` | packages/executor/src/executor.ts:194-367 | one action, whatever the world answers, reaches an outcome |
| `Executor.SoloIsAHistory` | packages/executor/src/executor.ts:194-452 | executing one action is a history of the protocol, so its safety results hold of it |
| `Executor.ActionExecutor.ExecuteOne` | packages/executor/src/executor.ts:194-367 | for any answers and any earlier journal, besides being the protocol's steps: an exact condition for each of the five outcomes and for a replay; a replay changes nothing and is already committed exactly when the newest record of the key succeeded; what is written otherwise, event by event |
| `Executor.ActionExecutor.ExecuteWithApproval` | packages/executor/src/executor.ts:285-364 | the approval gate: an action's own reference, else the newest matching approval, else a new request; it waits, is denied or runs on exact conditions over the approvals and the clock |
| `Executor.ActionExecutor.ResolveAndRun` | packages/policies/src/approvals.ts:91-112 | an approval is used only if granted or modified, unexpired and for the same tool and arguments; an expired one is marked so |
| `Executor.ActionExecutor.RunAuthorized` | packages/executor/src/executor.ts:370-452 | intent, invocation, commit and hook, in that order, on every branch; the tool's record succeeded exactly when the tool did not throw and answered success, and a throwing hook adds a failure |
| `Waves.PlanWaves` | packages/executor/src/dag.ts:19-42 | succeeds exactly when ids are distinct and the dependencies inside the batch are acyclic; wave k then holds exactly the nodes whose longest dependency chain has k edges, in input order; otherwise it names the first repeated id, or exactly the ids from which chains of dependencies never end |
| `Waves.WavesPartition` | packages/executor/src/dag.ts:19-42 | each node lies in exactly one wave and each of its dependencies in a strictly earlier one |
| `Waves.CriticalPathLength` | packages/executor/src/dag.ts:44-46 | the length of a longest dependency chain |
| `Waves.WavesCountLongestChain` | packages/executor/src/dag.ts:44-46 | as many waves as nodes on a longest dependency chain |
| `PlanCycles.CycleFinder.Visit` | packages/planner/src/validate.ts:76-87 | the recursive visit ends; without a cycle everything it reached is finished, with one the reported list is a real cycle |
| `PlanCycles.FindCycle` | packages/planner/src/validate.ts:70-92 | nothing is returned exactly when the plan is acyclic, which is when distinct ids are accepted by planWaves; a returned list is a real cycle with equal ends |
| `PlanCycles.AssertAcyclic` | packages/planner/src/validate.ts:94-97 | refuses exactly the cyclic plans, naming a real cycle |
| `DependencyGraph.RankedMeansAcyclic` | packages/executor/src/dag.ts:29-40 | a graph whose dependencies lie strictly lower has no cycle |
| `DependencyGraph.LastNodeWins` | packages/planner/src/validate.ts:71 | where ids repeat, the last node of an id gives the dependencies |
| `DependencyGraph.NoSinkMeansCycle` | packages/executor/src/dag.ts:33-35 | a non-empty set of nodes each waiting for another of the set contains a cycle |
| `WorkerPool.EveryInterleaving` | packages/core/src/async.ts:112-130 | as many workers as the concurrency and the items allow, but at least one; in every interleaving each index is handed out once and in order, calls in flight never exceed the worker count, and a stored result stays |
| `WorkerPool.WhenAllDone` | packages/core/src/async.ts:112-130 | when all workers are finished every item was called exactly once and has a result |
| `WorkerPool.ResultsBelongToItems` | packages/core/src/async.ts:120-127 | the result at an index is that of the item at that index, whatever the interleaving |
| `WorkerPool.EveryStepIsOneTurn` | packages/core/src/async.ts:120-129 | every interleaving ends after exactly two turns per item and one per worker |
| `WorkerPool.StuckMeansDone` | packages/core/src/async.ts:120-129 | while a worker is unfinished some worker can move |
| `WorkerPool.ConcurrentMap.TakeTurn` | packages/core/src/async.ts:121-125 | one turn of a worker up to its next await is exactly one step of the pool |
| `BatchExecution.Execute` | packages/executor/src/executor.ts:126-166 | a batch is refused exactly when it is empty, repeats an id or is cyclic, naming the first repeated id or the ids from which dependencies never end; otherwise each action gets exactly one outcome, skipped exactly when a direct dependency is reported as failed, denied or waiting for approval, else the one it ran to; every count is the number of occurrences of its status, and the wave count is the critical path |
| `BatchExecution.ExecuteWave` | packages/executor/src/executor.ts:137-156 | skipped actions first, then the results in input order; exactly the ids that ran and ended neither succeeded nor already committed are remembered |
| `BatchExecution.EveryInterleavingCollectsInOrder` | packages/executor/src/executor.ts:146-150 | the concurrent run of a wave returns, in every interleaving, the results in input order |
| `BatchExecution.WaveIsFaithful` | packages/executor/src/executor.ts:138-155 | every outcome a wave adds is the declared one: skipped exactly when a direct dependency ran and ended neither succeeded nor already committed |
| `BatchExecution.WaveFails` | packages/executor/src/executor.ts:149-154 | after a wave the remembered ids are exactly those whose declared outcome blocks |
| `BatchExecution.OneOutcomePerAction` | packages/executor/src/executor.ts:157-165 | exactly one outcome per action, none for anything else, and the six statuses add up to the batch size |
| `BatchExecution.SkippingIsNotTransitive` | packages/executor/src/executor.ts:138-144 | an action below a skipped one still runs |
| `Checkpoints.IncrementalIsBatch` | packages/checkpoints/src/manager.ts:130-162 | pruning after every creation leaves what one batch rule leaves of the whole history: the newest ones, and the newest labelled ones before those |
| `Checkpoints.KeptExactly` | packages/checkpoints/src/manager.ts:232-261 | checkpoint by checkpoint: kept exactly if among the newest, or labelled with fewer than the allowed number of labelled ones between it and those |
| `Checkpoints.RetainedStep` | packages/checkpoints/src/manager.ts:232-261 | the batch rule applied to a pruned store and one more checkpoint equals the rule applied to the longer history |
| `Checkpoints.PruneIsIdempotent` | packages/checkpoints/src/manager.ts:232-261 | pruning a pruned store changes nothing |
| `Checkpoints.NumbersNeverReused` | packages/checkpoints/src/manager.ts:131-132 | the k-th checkpoint gets number k when something is retained; with retain 0 every one gets number 1 |
| `Checkpoints.CheckpointManager.Create` | packages/checkpoints/src/manager.ts:130-162 | saves the next number and keeps the store equal to the batch rule on the extended history |
| `Checkpoints.CheckpointManager.Prune` | packages/checkpoints/src/manager.ts:232-261 | keeps exactly what the batch rule keeps, reports exactly the others and the right count |
| `Checkpoints.CheckpointManager.List` | packages/checkpoints/src/manager.ts:168-171 | the stored checkpoints by ascending sequence number, whatever order the store returns |
| `JsonRpc.RunKeepsInv` | packages/mcp/src/jsonrpc.ts:84-243 | in every interleaving of requests, messages, timers, send and transport failures and close: issued ids are the disjoint union of pending, settled and lost ones, a watchdog is armed exactly for the pending ones, and no call settles twice |
| `JsonRpc.SettledForGood` | packages/mcp/src/jsonrpc.ts:106-148 | a settled call keeps what it got |
| `JsonRpc.AccountedForIff` | packages/mcp/src/jsonrpc.ts:200-243 | the exact condition: over any run every issued id is pending or settled if and only if no pending call was answered with a null error member |
| `JsonRpc.LostIff` | packages/mcp/src/jsonrpc.ts:231-239 | call by call: lost exactly when it was answered with a null error member while pending |
| `JsonRpc.LostForGood` | packages/mcp/src/jsonrpc.ts:231-239 | a lost call has no watchdog, is never pending again and never settles |
| `JsonRpc.NullErrorLosesCall` | packages/mcp/src/jsonrpc.ts:40-45 | it happens: the first call, answered with a result and a null error member |
| `JsonRpc.ClosedForGood` | packages/mcp/src/jsonrpc.ts:162-174 | after close nothing is pending, becomes pending, settles or is lost |
| `JsonRpc.ResponseSettlesOwnCall` | packages/mcp/src/jsonrpc.ts:200-243 | a message touches the call table exactly when it is an answer to a pending call, and then only that call: a result or an error settles it, a null error drops it unsettled with its watchdog |
| `JsonRpc.EveryOutcomeHasItsCause` | packages/mcp/src/jsonrpc.ts:106-243 | over every run, each settled call was settled while pending and by an event of its own: an answer sent with its id, its timer, its failed send, or the end of the transport or the client; answers are never crossed |
| `JsonRpc.SettledIff` | packages/mcp/src/jsonrpc.ts:106-243 | over every run: a call ends with an outcome if and only if, while it was pending, an event came that decides it so: an answer in its own name, its timer, its failed send, or the end of the transport or the client |
| `JsonRpc.JsonRpcClient.Request` | packages/mcp/src/jsonrpc.ts:106-148 | refused exactly when closed; otherwise a never used id becomes pending with its watchdog armed |
| `JsonRpc.JsonRpcClient.HandleMessage` | packages/mcp/src/jsonrpc.ts:200-243 | over the fields of the message alone: version 2, no method, the id of a pending call and an error value reject the call, with or without a result; a result alone resolves it; a null error drops it and throws; every other shape leaves the table alone; which note each shape adds, and when it throws |
| `JsonRpc.JsonRpcClient.FailAll` | packages/mcp/src/jsonrpc.ts:162-168 | every pending call is rejected once and its watchdog cleared |
| `JsonRpc.JsonRpcClient.Close` | packages/mcp/src/jsonrpc.ts:170-174 | closes first, then rejects everything pending |
| `JsonSchema.DefaultsAreIdempotent` | packages/mcp/src/json-schema.ts:55-74 | filling in defaults twice is filling them in once, nested objects and array items included |
| `JsonSchema.DefaultsDeclared` | packages/mcp/src/json-schema.ts:55-74 | in an object every declared property is filled in from its value or else its default, except that an inherited name is taken for a given value; any other key keeps its value, and an input that is no object counts as an empty one |
| `JsonSchema.DefaultsElsewhere` | packages/mcp/src/json-schema.ts:68-74 | array items are filled in one by one, and every other value stays as it is |
| `JsonSchema.OwnNamesDecide` | packages/mcp/src/json-schema.ts:19-25 | where no declared, required or present key is an inherited name, at any depth, defaults and acceptance are those of objects that inherit nothing |
| `JsonSchema.InheritedNamesMislead` | packages/mcp/src/json-schema.ts:55-129 | for every inherited name: an absent field of that name passes for a required one, an unlisted one is let through, and a missing one does not get its default |
| `JsonSchema.AcceptedAgainUnchanged` | packages/mcp/src/tool.ts:53-76 | a value accepted once is accepted again unchanged, so validating before and inside execute is harmless |
| `JsonSchema.BrokenIff` | packages/mcp/src/json-schema.ts:76-130 | for every schema, alternatives included: the recursive conformance the methods compute fails if and only if a path leads to a place that breaks a keyword |
| `JsonSchema.FillDefaults` | packages/mcp/src/json-schema.ts:55-74 | the loop over declared properties computes the declared filling |
| `JsonSchema.ValidateAgainstSchema` | packages/mcp/src/json-schema.ts:18-24 | rejects exactly the inputs for which some path into the value, defaults filled in, leads through items and declared fields to a place that breaks a keyword, and otherwise returns the filled value |
| `JsonSchema.Validate` | packages/mcp/src/json-schema.ts:76-130 | pushes issues, all at or below the path, and some exactly when a path into the value leads to a place that breaks a keyword: wrong constructor for the type, wrong constant, too short, too small, too few, a required key absent, an unlisted key, or alternatives none of which takes the value |
| `JsonSchema.ValidateChoices` | packages/mcp/src/json-schema.ts:86-92 | an issue exactly when each alternative is broken somewhere or, under oneOf, two are not; anyOf hides the list of oneOf |
| `JsonSchema.ValidateFields` | packages/mcp/src/json-schema.ts:115-129 | no issue exactly when no required key is absent and no field is unlisted or breaks the schema of the first property declared under its key; names that objects inherit count as present and listed |
| `CanonicalJson.CanonicalizeTwice` | packages/core/src/json.ts:9-27 | canonicalizing is idempotent |
| `CanonicalJson.CanonicalFormsDecide` | packages/core/src/json.ts:9-31 | two values share a canonical form exactly when, without the key __proto__ that assignment drops, they are equal up to the order of object keys at every depth; for values without that key, exactly when they are equal up to key order |
| `CanonicalJson.ConfusedIffProto` | packages/core/src/json.ts:21-26 | canonical forms tell a value from every value free of __proto__ keys that differs in more than key order if and only if it has no such key itself |
| `CanonicalJson.ProtoLooksEmpty` | packages/core/src/json.ts:21-26 | an object with nothing but a __proto__ key has the canonical form of the empty object |
| `CanonicalJson.KeysDecide` | packages/runtime/src/support.ts:130-138 | unless the hashes of the two records collide, two actions get the same idempotency key exactly when run, step, tool and attempt agree and the arguments agree up to key order and dropped __proto__ keys; for arguments without such keys, exactly up to key order |
| `CanonicalJson.IdsDecide` | packages/runtime/src/support.ts:91-102 | unless the hashes of their records collide, the action id distinguishes exactly what the idempotency key distinguishes |
| `CanonicalJson.DistinctIdsGiveDistinctKeys` | packages/executor/src/dag.ts:21-24 | a batch with distinct action ids, which planWaves requires, has distinct idempotency keys, unless hashes of its records collide |
| `ToolIds.PatternMeansGrammar` | packages/agent/src/definition.ts:212 | what the pattern matches has only allowed characters, alphanumeric ends and no two adjacent separators |
| `ToolIds.GrammarMeansPattern` | packages/agent/src/definition.ts:212 | and everything of that shape is matched |
| `ToolNames.RoundTripExactly` | packages/providers/src/tool-names.ts:10-16 | over all texts, decoding undoes encoding exactly when no underscore is followed by an underscore or a dot |
| `ToolNames.ToolIdsSurviveTheWire` | packages/providers/src/tool-names.ts:10-16 | every tool id of the grammar survives the wire |
| `ToolNames.WireNamesAreDistinct` | packages/providers/src/tool-names.ts:10-16 | distinct tool ids have distinct wire names |
| `ToolNames.EncodedAlphabet` | packages/providers/src/tool-names.ts:1-6 | an encoded tool id uses only the characters provider wire formats accept |
| `McpToolIds.SanitizedIsToolId` | packages/mcp/src/normalize.ts:11-18 | whatever a server calls itself, the sanitized segment is in the grammar |
| `McpToolIds.ToolIdsAreSanitized` | packages/mcp/src/normalize.ts:11-18 | a tool id is left as it is |
| `McpToolIds.SanitizeTwice` | packages/mcp/src/normalize.ts:11-18 | sanitizing twice is sanitizing once |
| `McpToolIds.SanitizeKeepsLetters` | packages/mcp/src/normalize.ts:11-18 | sanitizing loses and reorders no letter or digit of the lower-cased name; a name without any becomes unnamed |
| `McpToolIds.McpToolIdsSurviveTheWire` | packages/mcp/src/normalize.ts:7-9 | every MCP tool id survives the wire |
| `McpToolIds.NamespacesMeetIff` | packages/mcp/src/normalize.ts:6-18 | tools of two servers with different sanitized names can get the same id if and only if one name continues the other after a dot |
| `ToolFamilies.ExpandToolFamilies` | packages/agent/src/definition.ts:219-232 | the expanded list, each entry once and one without a dot or underscore as its whole family; or the first entry that is neither a tool id, everything, nor a family of these |
| `ToolFamilies.ExpandedMembers` | packages/agent/src/definition.ts:219-232 | exactly the normalized ids, each once |
| `ToolFamilies.ExpandTwice` | packages/agent/src/definition.ts:214-232 | expanding an expanded list succeeds and changes nothing |
| `Ulids.EncodingIsAlphabet` | packages/core/src/ids.ts:3-4 | the alphabet has 32 characters in ascending order |
| `Ulids.TimesKeepOrder` | packages/core/src/ids.ts:12-21 | times up to 2^48-1 are encoded injectively and in order |
| `Ulids.EncodeTime` | packages/core/src/ids.ts:12-21 | the loop computes the ten digits of the time |
| `Ulids.DigitsValue` | packages/core/src/ids.ts:12-21 | the digits stand for the number again |
| `Ulids.OrderIsNumeric` | packages/core/src/ids.ts:12-57 | texts of one width compare lexicographically as the numbers they stand for |
| `Ulids.IncrementRandom` | packages/core/src/ids.ts:34-45 | adds exactly one with carry, and falls back to new random digits exactly on overflow |
| `Ulids.UlidGenerator.Ulid` | packages/core/src/ids.ts:48-57 | the next ULID sorts after the last exactly when its millisecond is later, or is the same and the count did not overflow or the new digits are larger; times past 2^48-1 are refused |
| `Ulids.OneMillisecondAscends` | packages/core/src/ids.ts:33-57 | all ULIDs of one millisecond without overflow are in the order they were made |
| `AgentLoop.TurnsAreBounded` | packages/runtime/src/loop.ts:110-137 | however the model answers, at most maxSteps + 1 iterations, and at most maxSteps while still running |
| `AgentLoop.LoopStops` | packages/runtime/src/loop.ts:110-220 | enough answers always bring the loop to a stop |
| `AgentLoop.RecoveryDepth` | packages/runtime/src/loop.ts:583-723 | the retry recursion ends; it counts at least one and at most max(1, limit - attempts so far) recoveries and changes nothing else |
| `AgentLoop.LimitsHoldAcrossResumptions` | packages/runtime/src/loop.ts:234-258 | over any number of resumptions and crashes recorded steps never exceed maxSteps, and recorded recoveries never exceed max(1, 2 * limit - 1) |
| `AgentLoop.RecoveryLimitHoldsIff` | packages/runtime/src/loop.ts:583-723 | a session keeps its run within max(1, limit) recoveries, whatever the world answers, if and only if it starts within it and not with recovery enabled, a step left and a recovery count of at least one and below the limit |
| `AgentLoop.RecordedWithinLimitIff` | packages/runtime/src/loop.ts:583-723 | over all histories of resumptions and crashes every recorded count stays within max(1, limit) if and only if recovery is disabled, the limit is below two or no step is allowed |
| `AgentLoop.LimitIsOvershot` | packages/runtime/src/loop.ts:633-719 | otherwise resuming forgets the attempts: for every limit of at least two a history that records twice the limit less one recoveries |
| `AgentLoop.RepeatsAreBounded` | packages/runtime/src/loop.ts:168-215 | the same action set is never executed more than maxNoProgress + 1 times in a row, and lack of progress stops the run only then |
| `AgentLoop.RecoveryEnds` | packages/runtime/src/loop.ts:583-723 | the recursion of a recovery ends at the first attempt that is not a failed retry below the limit, counts up to it, and that attempt alone decides whether the run stops |
| `AgentLoop.LoopIsCourse` | packages/runtime/src/loop.ts:110-220 | over any answers: every turn of the loop but the last meets the condition for going on, and the last one that of the loop's stop |
| `AgentLoop.AgentSession.Iterate` | packages/runtime/src/loop.ts:110-220 | after at most maxSteps + 1 iterations: every turn but the last meets the exact condition for going on, and the last one the exact condition of the stop that is returned |
| `AgentLoop.AgentSession.TakeTurn` | packages/runtime/src/loop.ts:118-215 | exactly when each of the twelve stops is yielded and when the loop goes on, read off the answer, the configuration, the iteration number and the counters before the turn; and what the turn adds to every counter |
| `AgentLoop.AgentSession.RescueDecision` | packages/runtime/src/loop.ts:951-1042 | a failed model call counts one recovery; calling again is allowed below its own limit, and a failing strategy ends the run |
| `AgentLoop.AgentSession.RecoverFrom` | packages/runtime/src/loop.ts:583-723 | the mutual recursion of recover and applyRecovery computes the declared recovery, which by RecoveryEnds is decided by the first attempt that is not a failed retry below the limit |
| `CircuitBreakers.ReachableStatesDescribed` | packages/core/src/circuit-breaker.ts:31-86 | for any thresholds and any open time, zero included, in every reachable state, with the two readings of the clock that a trip and a probe make: CLOSED holds exactly the failures since the last success, below the threshold; OPEN has counted nothing yet; HALF_OPEN holds exactly the successes and granted probes of calls made since the last failure and the end of the open time, within their limits |
| `CircuitBreakers.NothingAllowedWhileOpen` | packages/core/src/circuit-breaker.ts:36-71 | after a trip at t, whatever is recorded meanwhile, no call is allowed before t + openMs |
| `CircuitBreakers.AllowedAgainExactlyWhenDue` | packages/core/src/circuit-breaker.ts:36-49 | an open breaker lets a call through again exactly from openMs after its trip on, if it grants probes at all; a probe is decided by its last reading of the clock |
| `CircuitBreakers.UnclaimedProbeIff` | packages/core/src/circuit-breaker.ts:80-86 | a probe granted while not closed takes no slot exactly when the open time ends between its two readings of the clock |
| `CircuitBreakers.TripsExactlyAtThreshold` | packages/core/src/circuit-breaker.ts:61-71 | from CLOSED it opens exactly on the failure that completes the threshold |
| `CircuitBreakers.ClosesExactlyAtThreshold` | packages/core/src/circuit-breaker.ts:51-59 | from HALF_OPEN it closes exactly on the success that completes the threshold, and opens exactly on a failure |
| `CircuitBreakers.DefaultCircuitBreaker.RecordFailure` | packages/core/src/circuit-breaker.ts:61-65 | counts the failure and opens, at the later reading of the clock, exactly when the breaker is half open or the threshold is reached; logged in the history |
| `CircuitBreakers.DefaultCircuitBreaker.RecordSuccess` | packages/core/src/circuit-breaker.ts:51-59 | while half open counts the success and closes with all counters cleared exactly at the threshold; else forgets the failures; logged in the history |
| `CircuitBreakers.DefaultCircuitBreaker.ClaimProbe` | packages/core/src/circuit-breaker.ts:80-86 | grants a probe exactly when closed, or half open by its last reading with a slot left, and takes the slot when half open at the first reading |
| `Locks.RunKeepsLeases` | packages/core/src/lock.ts:32-83 | over every history of attempts, releases, extensions, timers and time: each entry belongs to the unreleased handle it was granted to, and every live handle has its entry |
| `Locks.AtMostOneHolder` | packages/core/src/lock.ts:42-48 | two handles of one key that are neither released nor expired are the same handle |
| `Locks.GrantedIffNobodyHolds` | packages/core/src/lock.ts:42-50 | an attempt is granted exactly when no handle of the key is live |
| `Locks.RunKeepsWaiters` | packages/core/src/lock.ts:51-75 | no waiter is woken twice and none is forgotten: one not yet woken stands in its queue once, with its timer still to fire |
| `Locks.InMemoryLockManager.Acquire` | packages/core/src/lock.ts:37-65 | one pass of the loop: granted until now plus the lease exactly when no unexpired entry is stored; else refused, or queued last with its timer; nobody is woken |
| `Locks.InMemoryLockManager.Release` | packages/core/src/lock.ts:67-75 | frees the lock only for the token that holds it, and wakes the first waiter whoever calls |
| `Locks.InMemoryLockManager.Extend` | packages/core/src/lock.ts:77-83 | succeeds exactly for the token that holds the entry, and moves both expiries to now plus the lease |
| `Locks.InMemoryLockManager.OnTimer` | packages/core/src/lock.ts:55-62 | wakes its waiter exactly if a release was not faster |
| `AnthropicMessages.ToAnthropicMessages` | packages/providers/src/anthropic.ts:128-163 | the messages alternate and are never empty, and hold, at its place in the conversation, one block for every message that is not an instruction, of the kind, the turn and the content its role asks for; the instructions are joined apart, in order |
| `AnthropicMessages.AppendAlternates` | packages/providers/src/anthropic.ts:138-160 | appending a block keeps the alternation and adds exactly that block at the end |
| `AnthropicMessages.GroupingIsUnique` | packages/providers/src/anthropic.ts:127 | the grouping is the only one that alternates with those blocks in that order |

## Left out

- The in-process lock around `start`, back-pressure and event emission: the ownership results hold without them; `Locks` models the lock itself.
- `RunOwnership.PersistMeansUndisturbed`: speaks of sessions that never had a write rejected; for the others `RunOwnership.AcceptedIffMissesMatch` is the exact rule.
- In `persist`, bumping the local version and sending the write is one step; the usage counters write carries no version and changes nothing the model tracks.
- Checkpoints inside the ownership model are saved only by sessions with no rejected write, and restoring one is one atomic write of the state row.
- Queue and operator methods take what they read earlier as a parameter instead of calling `get` or `list`; page order and page limits belong to the store.
- `LostUpdates.LosableIffSessionNear`: exact unless the only session that could matter is between the writes of a persist and its state write would first have to be refused, or accepted, because the state row changes; for those sessions it states the "only if" half.
- `SessionCourse.MovesAreSteps`: which targets and how many persists a session has before its next advance follow the loop; between two writes an exception of anything else may be thrown, inside a persist only by a refused write.
- `RunQueue.RunSession.Persist`: uninterrupted as a method; what others do between its writes is covered by the steps of `RunOwnership`.
- The journal of the SQL store, which updates rows in place, and any store failure other than a version conflict or a missing run.
- Permissions handed to a tool, result truncation and scrubbing, observations and tracing in the executor.
- `BatchExecution.Execute`: what executing one action returns is a parameter here; `Executor.ActionExecutor.ExecuteOne` says what it is. A policy engine or a hook on its decisions that throws, which rejects the whole batch while siblings are still in flight, is not modelled.
- `Checkpoints.CheckpointManager.Create`: the policy that decides whether to checkpoint, the snapshots and forks are not part of the model; checkpoint ids are assumed unused.
- `JsonRpc.JsonRpcClient.HandleMessage`: how a server request is answered; it never touches the call table.
- `JsonSchema.Validate`: issue messages are shortened; a text's length counts characters, where the code counts UTF-16 units; a pattern that is not a regular expression is not modelled, nor is a declared property named `__proto__`, which is assigned differently from every other, nor the comparison of `const` and `enum` with an object that holds something inherited.
- `Ulids.UlidGenerator.Ulid`: negative or fractional times, which the code does not reject.
- `CanonicalJson.CanonicalizeTwice`: JSON values only; dates, maps, sets and functions are not modelled.
- `AgentLoop.LimitsHoldAcrossResumptions`: speaks of recorded usage; model calls whose usage was lost in a crash are not counted by the code either. Token, cost and time budgets appear only as an answer that stops the run, and an exception that escapes a phase is not modelled.
- `AnthropicMessages.ToAnthropicMessages`: the labels put around untrusted text are part of the given text; reading responses is not modelled.
- `Locks.InMemoryLockManager.Acquire`: one pass of its loop at a time; tokens are numbered instead of random.
- Failover, retry engine, permission merging, plan normalization, deep merge and truncation: they would add easier members only.
- HTTP, webhooks, dashboard, command line, transports, workspace snapshots, scoring and memory: input, output and text building.
