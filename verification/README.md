# KLAFI: verified model of the stateful core

KLAFI wraps LangGraph agents with admission limits, stream filtering, guardrails, retries, hooks,
model fallbacks, history compression and a trace recorder. This project models those algorithms in
Dafny and proves what they promise over whole runs: every interleaving of requests, every upstream
item stream, every nesting of values, every pattern of failures, every alias graph, every schedule
of recorder actions.

`dafny verify dfyconfig.toml` checks everything. One module models one component:

| module | component |
|---|---|
| `Concurrency` | two-level admission of requests, as a step relation over per-request program counters, and the limiter object |
| `StreamGate` | the filter on streamed items: held tokens, internal nodes, substituted messages |
| `ContextManager` | history compression (`reduce`) and the summary cache |
| `Binding`, `Guardrail`, `Luhn` | guardrails on the text leaves of nested values, and the card-number check |
| `Policy`, `Engine`, `Retry` | backoff, the retry loops, and retrying a checkpointed graph |
| `Hooks`, `Node`, `Agent` | the hook engine, a node inside its pipelines and hooks, one agent invocation |
| `Gateway` | model fallback, recursive and iterative |
| `LayeredConfig` | recursive merge and layered lookup |
| `Approval`, `Recorder`, `BoundedFifo` | approval announcements, the execution recorder, and the bounded insertion-ordered map behind both and behind the summary cache |
| `Supervisor` | the supervisor template |
| `Exceptions`, `Wrappers`, `Basics` | the exceptions the code tells apart; option and result types; shared definitions |

Where the source updates objects, the model has classes whose methods are proved equal to
specification functions; the theorems are lemmas about those functions. Foreign parts (the graph
engine, providers, guardrail checks, summarisers, hooks, random draws, durations) are arbitrary
functions or parameters, so each theorem holds for all of them.

## What the proofs found

Several properties one would expect do not hold of the code as it stands. Each has a lemma with a
concrete failing input or an exact condition:

- Every finally-hook fires exactly once only if no hook but the outermost raises a `BaseException`
  in its finally callback, because `_finally` swallows only `Exception`
  (`Hooks.FinallyFiresOnceIff`, `Hooks.InterruptedFinally`).
- The error hooks of an agent are skipped when an `on_error` middleware of the graph raises
  (`Agent.AgentErrorHooksFireExactlyWhen`, `Agent.RaisingMiddlewareSilencesErrorHooks`).
- The before-hooks stand outside the `try`: a fail-close failure there reaches no error or finally
  hook (`Hooks.BeforeFailureFiresNothingElse`, `Agent.FinallyHearsOfEnteredRuns`).
- Compression with a summariser is idempotent exactly when no message object is listed both among
  the old and among the recent messages (`ContextManager.ReduceIsIdempotentIff`).
- The summary cache is invisible for every summariser exactly when messages with equal keys have
  the same transcript line; a message edited under its id gets the old summary
  (`ContextManager.CacheIsAlwaysTransparentIff`, `ContextManager.EditedMessageKeepsItsSummary`).
- The visited leaves of a bound value are the mapped leaves, for every value, exactly when the
  policy neither makes nor unmakes the string `tool`, because the role of dict-shaped messages is
  a visited leaf and decides where the tail starts (`Binding.MapsLeavesIff`,
  `Binding.RenamedRoleMovesTheTail`).
- Guards behind a mask check everything that is stored exactly when the mask does not rename the
  tool role (`Guardrail.MaskCoversIff`, `Guardrail.RenamedRoleEscapesTheCheck`).
- Merging is associative exactly on compatible triples, so `override` followed by `resolve` equals
  merging onto the previous result exactly for those (`LayeredConfig.MergeAssociativeIff`,
  `LayeredConfig.OverrideMergesOnTop`, `LayeredConfig.MergeIsNotAssociative`).
- The digest of a message without an id joins role and content with a colon, so two different messages
  can share it (`ContextManager.ColonInRoleMisleads`, `ContextManager.DigestsAreTransparent`).
- With the default backoff settings and 8 retries or more, a wait can be longer than the next one,
  and with 7 or more longer than `backoff_max`, because jitter is added after capping
  (`Policy.DefaultWaitsShrink`, `Policy.DefaultRuns`). For any settings the waits a run makes never
  shrink exactly when two of them, computed up front, are in order (`Engine.SleepsNeverShrinkIff`),
  and stay within the maximum exactly when two of them do (`Engine.SleepsWithinMaxIff`).
- In the gateway a control-flow signal raised by a provider leads to the fallback like any other
  exception, since only guardrail and policy exceptions are re-raised
  (`Gateway.ControlFlowReachesTheFallback`, `Gateway.FallbackFailureLeavesIff`).
- A run's total is not always what was reported since its record was created: a `ModelCalled` event
  takes the lock twice, and its tokens can land in a record created in between
  (`Recorder.LateAppendIsCarried`, exact condition in `Recorder.SettledTotals`).
- With capacity 0 the recorder stores nothing, and what it is told is lost
  (`Recorder.RunsAreTheLastCreated`).
- An approval whose adapter raised is not pushed again while its id is remembered
  (`Approval.FailedPushIsNotRepeated`).

## Model

| member | source | states |
|---|---|---|
| Concurrency.StepKeepsInv | klafi/server/concurrency.py:49-90 | one atomic step of any request, in any state, keeps the invariant: program counters consistent, free slots plus holders equal to the limit at every semaphore, nothing over-released |
| Concurrency.SlotsAreConserved | klafi/server/concurrency.py:49-90 | over every interleaving of any number of requests, free slots plus requests holding a slot equals the limit, globally and per agent, and no release ever exceeds the bound |
| Concurrency.CapsNeverExceeded | klafi/server/concurrency.py:58-70 | over every interleaving, the requests being served never exceed the global cap or the cap of their agent |
| Concurrency.AllSlotsReturn | klafi/server/concurrency.py:72-90 | once every request has ended, both levels are full again, although the final body and the `finally` both release |
| Concurrency.RefusedNeverReachesApp | klafi/server/concurrency.py:59-69 | a request that is refused at some point was in the app at no earlier point and ends without a slot; one that reached the app is never refused |
| Concurrency.RefusedExactlyWhenFull | klafi/server/concurrency.py:59-69 | a level answers 429 exactly when all its slots are held at that moment |
| Concurrency.RefusalNamesItsLevel | klafi/server/concurrency.py:59-69 | the level a 429 names is the one that refused: the global one with nothing acquired, or the request's own agent behind the global one |
| Concurrency.FinalBodyGivesSlotsBack | klafi/server/concurrency.py:72-85 | in every run, a request whose app sends its final body no longer counts as being served and gives one slot back with each of its own turns, whatever the others do; after as many turns as it held slots it holds none, while its app still runs |
| Concurrency.ServedRequestsKeepTheirSlots | klafi/server/concurrency.py:81-85 | until then it holds a slot of every configured level it passed, and a chunk with more to come changes nothing |
| Concurrency.EveryRequestEnds | klafi/server/concurrency.py:49-90 | no request gets stuck: five turns, the end of its app and three turns more end every request, whatever the others do in between |
| Concurrency.HolderBlocksOverRelease | klafi/server/concurrency.py:76-79 | while a request holds a slot, returning it cannot overflow the bounded semaphore |
| Concurrency.PhasesPersist | klafi/server/concurrency.py:58-90 | no step of any request takes another out of the app phase or out of a refusal |
| Concurrency.ConcurrencyLimiter.constructor | klafi/server/concurrency.py:41-47 | exactly the positive limits get a semaphore of their own, and the initial state satisfies the invariant |
| Concurrency.ConcurrencyLimiter.Advance | klafi/server/concurrency.py:49-90 | the limiter object on real semaphore counters does exactly one step of the protocol and stays valid |
| Concurrency.ConcurrencyLimiter.Serve | klafi/server/concurrency.py:49-90 | a whole schedule on the limiter object ends in the state of the protocol run, with full semaphores once all requests are done |
| StreamGate.NonInterference | klafi/core/base_graph.py:571-608 | upstream runs that agree after erasing guarded token texts, internal tokens and internal update entries give the same output, the same final values and the same context state; the one thing a gate must not do is list the reserved key `__interrupt__` among its internal nodes, which are names of graph nodes |
| StreamGate.ConstructedGatesAreNonInterferent | klafi/core/base_graph.py:548-608 | so a gate as constructed is non-interferent whenever it passes everything through or that key is not among the internal nodes it was given |
| StreamGate.ErasedRunIsEquivalent | klafi/core/base_graph.py:571-608 | from any gate state, a run and its erasure give the same stream and the same state |
| StreamGate.GateMatchesHistory | klafi/core/base_graph.py:566-608 | on every run the stateful gate with its hold table emits exactly what a table-free definition over the history emits |
| StreamGate.GateRecordsTheLastState | klafi/core/base_graph.py:575-578 | what the output guardrails run on at the end is the payload of the last `values` item, and nothing without one; the context waits for approval exactly when some update carried a truthy interrupt entry |
| StreamGate.StreamOutputsIff | klafi/core/base_graph.py:571-625 | exactly what gets out over every run: final AI messages with the metadata of the last token of their guarded node, declared values for callers that asked for a list, and the requested items without internal entries, bare or tagged as asked |
| StreamGate.UpdateInOrder | klafi/core/base_graph.py:588-608 | the outputs of an update stand in the order of its visible entries, and the update itself comes last |
| StreamGate.EntryInOrder | klafi/core/base_graph.py:589-605 | of one entry the message comes before the declared value |
| StreamGate.HeldIff | klafi/core/base_graph.py:579-599 | a token is held exactly until the next update of its guarded, non-internal node, and a later token of the node takes its place |
| StreamGate.PassthroughPasses | klafi/core/base_graph.py:571-573 | a gate that passes everything through hands out the run itself |
| StreamGate.NoRawTokenEscapes | klafi/core/base_graph.py:580-598 | over a whole stream every message of a guarded or internal node that gets out is the finished message of a guarded node, standing in for a token held before |
| StreamGate.OneReplacementPerUpdate | klafi/core/base_graph.py:588-599 | an update releases at most one message per node, exactly when a token was held since that node's previous update and the update has a final AI message |
| StreamGate.HeldComesFromToken | klafi/core/base_graph.py:585-599 | what is held for a node comes from a token of that node with no update of it since, and only guarded, non-internal nodes are ever held |
| StreamGate.PlainGateProjects | klafi/core/base_graph.py:571-611 | with nothing guarded, internal or structured the gate is the projection to the requested modes |
| StreamGate.SingleModeIsBare | klafi/core/base_graph.py:558-611 | in single mode every output is a bare payload of the one requested mode, never a structured extra |
| StreamGate.StreamGate.constructor | klafi/core/base_graph.py:548-569 | the gate is made of the requested modes and the declared nodes, and subscribes to states and updates besides |
| StreamGate.StreamGate.Feed | klafi/core/base_graph.py:571-608 | the loop over an update's entries, popping held tokens, emits and leaves exactly what the specification says |
| StreamGate.StreamGate.FeedAll | klafi/core/base_graph.py:571-608 | feeding a whole run gives the specified stream, leaves the last state of the run as the values, and marks the context when an interrupt was reported |
| ContextManager.CutIsSafe | klafi/context/manager.py:100-107 | the last `keep_recent` non-important messages survive, recent is empty, everything or starts at a human turn, and no later human turn would have done |
| ContextManager.TurnIsNotSplit | klafi/context/manager.py:101-107 | a tool call and its result, with no human turn between, are kept or dropped together |
| ContextManager.ReduceRemovesOldPrefix | klafi/context/manager.py:97-112 | selecting by identity removes exactly the old prefix of the non-important messages, in order, if and only if no object is on both sides of the cut |
| ContextManager.ReduceIsIdempotentIff | klafi/context/manager.py:95-120 | a second pass changes nothing, for every `keep_recent`, if and only if it has no summariser or no object is on both sides of the cut |
| ContextManager.DistinctHistoriesAreReducedOnce | klafi/context/manager.py:95-120 | a history that lists no object twice is compressed once and for all |
| ContextManager.SharedMessagesBreakIdempotence | klafi/context/manager.py:111-118 | a history listing one human message object twice is summarised again on the second pass |
| ContextManager.ReduceOutput | klafi/context/manager.py:95-120 | the whole output: system messages and those marked important and recent others in original order, the old ones gone, the summary right after the leading system block |
| ContextManager.RequestsJoin | klafi/context/manager.py:127-128 | the summariser is told a title and one line per message, role and content, in order: the request for two stretches is that for the first, a newline and the lines of the second |
| ContextManager.EveryMessageIsTold | klafi/context/manager.py:127-128 | every message of the history to summarise is told with role and content, in the order of the history |
| ContextManager.SummaryTellsTheOldMessages | klafi/context/manager.py:112-128 | carried to the message that is inserted: with a summariser that repeats what it is told, its content has every removed message, in order |
| ContextManager.CacheIsBoundedFifo | klafi/context/manager.py:122-132 | the summary cache is a bounded FIFO over its keys and never holds more than 32 summaries |
| ContextManager.CacheIsTransparentIff | klafi/context/manager.py:122-132 | every run of cached requests gives the uncached answers if and only if histories with equal keys have equal summaries |
| ContextManager.CacheIsAlwaysTransparentIff | klafi/context/manager.py:122-132 | the cache is invisible for every summariser if and only if messages with equal keys have the same transcript line, which a caller can check |
| ContextManager.EditedMessageKeepsItsSummary | klafi/context/manager.py:59-61 | a message whose text was edited under its id gets the summary of the old text |
| ContextManager.FaithfulKeysAreTransparent | klafi/context/manager.py:59-61 | when equal keys mean equal role and content, caching is invisible for any summariser |
| ContextManager.DigestsAreTransparent | klafi/context/manager.py:59-61 | messages without ids never mislead the cache, as long as the digest tells texts apart and no role has a colon |
| ContextManager.ColonInRoleMisleads | klafi/context/manager.py:59-61 | two messages whose roles and contents split one text differently at a colon share a key under every digest, and the second gets the summary of the first |
| ContextManager.CachedReduceIsPlain | klafi/context/manager.py:95-132 | over any run of histories, cached compression equals uncached compression when equal keys mean equal role and content |
| ContextManager.SecondAnswerIsFirst | klafi/context/manager.py:59-61 | a history with the keys of an earlier one gets the earlier summary, whatever it says |
| ContextManager.ContextManager.Reduce | klafi/context/manager.py:95-120 | the loops that rewind the cut and insert the summary compute the specified compression and change the cache only by one request |
| ContextManager.ContextManager.SummaryFor | klafi/context/manager.py:122-132 | one lookup, eviction and insertion on the cache is one request of the specification |
| Binding.BindSucceedsIff | klafi/guardrail/binding.py:46-89 | binding succeeds exactly when every visited leaf passes, and returns the value unchanged exactly when every visited leaf is fixed |
| Binding.BindRaisesTheFirst | klafi/guardrail/binding.py:61-89 | binding raises the error of the first visited leaf that has one, in the order of the value, and only that |
| Binding.TailIs | klafi/guardrail/binding.py:33-43 | the visited tail is the last message alone, or the longest run of tool messages at the end, dict-shaped or objects |
| Binding.BindKeepsShape | klafi/guardrail/binding.py:61-89 | keys, lengths, constructors, message ids and types and every unvisited message are unchanged |
| Binding.LeavesAreMapped | klafi/guardrail/binding.py:61-89 | the visited leaves of the result are the policy mapped over the visited leaves, in order, when messages are objects or the policy leaves the tool role alone |
| Binding.MapsLeavesIff | klafi/guardrail/binding.py:33-43 | the mapping law holds of every value if and only if the policy neither makes nor unmakes the role string of tool messages |
| Binding.RenamedRoleMovesTheTail | klafi/guardrail/binding.py:33-43 | two dict-shaped tool messages under a policy that renames the role: two leaves were visited, the result has one |
| Binding.TailIsKept | klafi/guardrail/binding.py:37-43 | binding the tail of a message list does not move where the tail starts |
| Binding.BindDependsOnLeaves | klafi/guardrail/binding.py:61-89 | two policies that agree on the visited leaves give the same result, error or not |
| Binding.BindFusion | klafi/guardrail/binding.py:61-89 | binding one policy and then another equals binding their composition, up to which error is raised, when opaque leaves are left alone and messages are objects or the policy leaves the tool role alone |
| Binding.FindTail | klafi/guardrail/binding.py:37-43 | the backward loop finds the start of the trailing block of tool messages |
| Binding.BindDict | klafi/guardrail/binding.py:65-76 | the loop over a dict with its message-tail rule computes the recursive definition |
| Guardrail.TailCoversBlock | klafi/guardrail/binding.py:37-43 | the checked tail covers what a step appended if and only if the step appended one message or only tool messages |
| Guardrail.EveryMessageWasChecked | klafi/guardrail/base.py:118-159 | in every run that has not raised, every leaf of every message of the history was allowed by every blocking guard of a list of guards that block or warn, although each check sees only the tail |
| Guardrail.EveryRewrittenMessageWasChecked | klafi/guardrail/base.py:118-159 | with masking guards before them, every leaf of every message of the rewritten history was allowed by every blocking guard behind the last mask, when messages are objects or no mask renames the tool role |
| Guardrail.MasksCoverIff | klafi/guardrail/base.py:139-142 | masks leave that coverage intact, for all checks behind them and all runs of admissible steps, if and only if none of them renames the tool role, provided that role gets past the masks before the first that does |
| Guardrail.MaskCoversIff | klafi/guardrail/base.py:139-142 | for a single mask that is the exact condition, with no proviso |
| Guardrail.NoRefusalIsReached | klafi/guardrail/base.py:145-159 | the proviso holds of every single mask and of every list in which no mask refuses the text `tool` |
| Guardrail.RenamedRoleEscapesTheCheck | klafi/guardrail/binding.py:37-43 | behind a mask that renames the tool role a blocking guard misses a message of the step, and it is stored |
| Guardrail.WarnOnlyNeverBlocks | klafi/guardrail/base.py:162-187 | a warn-only guard succeeds unless an opaque object would be substituted, and returns what the guard itself returns wherever that one succeeds |
| Guardrail.ChecksKeepValue | klafi/guardrail/base.py:118-159 | a list of guards that block or warn and raises nothing changed nothing, and its blocking guards allowed every visited leaf |
| Guardrail.GuardDecides | klafi/guardrail/base.py:118-159 | a text guard passes a value exactly when no visited leaf stops it, raises what the first that does says, and shows every visited text as it is or as its replacement, in order |
| Guardrail.RawGuardDecides | klafi/guardrail/base.py:118-159 | a guard on the whole value replaces it whenever there is a replacement, and raises on a refusal that is no warning |
| Guardrail.Enforce | klafi/guardrail/base.py:139-142 | the loop rebinding the value guard by guard stops at the first error and otherwise composes the guards in order |
| Luhn.Luhn | klafi/guardrail/base.py:221-228 | the loop over the reversed digits decides validity as Annex B of ISO/IEC 7812-1 defines it |
| Luhn.WeightsAlternate | klafi/guardrail/base.py:221-228 | a digit adds itself at an even distance from the right end, and at an odd one twice itself, less 9 if that has two digits |
| Luhn.SingleErrorDetected | klafi/guardrail/base.py:221-228 | replacing one digit of a valid number keeps it valid only if the digit is the same |
| Luhn.TranspositionDetected | klafi/guardrail/base.py:221-228 | swapping two neighbours of a valid number keeps it valid exactly when they are equal or are 0 and 9 |
| Luhn.UniqueCheckDigit | klafi/guardrail/base.py:221-228 | every prefix has exactly one check digit |
| Policy.DelayBounds | klafi/runtime/policy.py:72-74 | a wait lies between the capped exponential delay and that delay plus at most one second or the delay itself |
| Policy.PlainDelayNonDecreasingIff | klafi/runtime/policy.py:73 | for a factor of at least 1, the delays before jitter never shrink if and only if the base is not negative or the factor is 1 |
| Policy.WaitsNeverShrinkIff | klafi/runtime/policy.py:72-74 | over all attempt numbers, however many retries are allowed, for settings that are not negative and whatever the draws: no wait is shorter than the one before it, if and only if the base or the maximum is zero, or there is no jitter and the factor is at least 1 |
| Policy.WaitsWithinMaxIff | klafi/runtime/policy.py:72-74 | over all attempt numbers, for settings that are not negative and whatever the draws: no wait exceeds the maximum, if and only if the base or the maximum is zero, or there is no jitter, or the factor is at most 1 and the base leaves room for its jitter |
| Policy.RunWaitsNeverShrinkIff | klafi/runtime/policy.py:72-83 | over the attempts that `max_retries` lets wait: no wait is shorter than the one before it, whatever the draws, if and only if there are fewer than two, or the first and the last but one, fully drawn, fit under their successors |
| Policy.RunWaitsWithinMaxIff | klafi/runtime/policy.py:72-83 | over the same attempts: no wait exceeds the maximum if and only if there are none, or the first and the last do not with a full draw |
| Policy.DefaultWaitsShrink | klafi/runtime/policy.py:29-32 | with the default backoff settings the wait at attempt number 6, which takes 8 retries to be followed by another, can be 31 seconds, over the maximum of 30 and longer than the next |
| Policy.DefaultRuns | klafi/runtime/policy.py:29-32 | with the default backoff settings no wait of a run shrinks exactly up to 7 retries, and none exceeds the maximum exactly up to 6 |
| Engine.SleepsNeverShrinkIff | klafi/runtime/engine.py:46-107 | the waits the engine makes never shrink, whatever fails and whatever is drawn, if and only if that condition on two attempts holds |
| Engine.SleepsWithinMaxIff | klafi/runtime/engine.py:46-107 | the waits the engine makes never exceed the maximum if and only if the first and the last possible one do not with a full draw |
| Engine.AttemptsAreBounded | klafi/runtime/engine.py:46-107 | at most `max_retries` failures are swallowed, each was one the policy lets be retried at its attempt and was followed by its own wait, and the last failure was not: retries left, no control flow, no `BaseException`, no timeout in sync, and a connection error or retryable and not excluded |
| Engine.BodyCallsAreBounded | klafi/runtime/engine.py:46-107 | counted by the body itself, it is called once more than the engine waits, and at most `max_retries` + 1 times, and the run takes the time of these calls, each cut off at the limit, and of the waits |
| Engine.OneTerminalState | klafi/runtime/engine.py:46-107 | after RUNNING exactly one terminal state is recorded: COMPLETED, WAITING_APPROVAL for control flow, TIMEOUT for a timeout, FAILED for the rest; a `BaseException` records none |
| Engine.TotalTimeIsBounded | klafi/runtime/engine.py:75-107 | total time is at most one timeout per attempt plus the worst waits between attempts |
| Engine.TimeBudgetOfRun | klafi/runtime/engine.py:75-107 | that budget is (R + 1) timeouts plus the sum over i below R of d_i + min(d_i, 1) |
| Engine.LastAttempt | klafi/runtime/engine.py:46-107 | induction over attempts: what every attempt keeps holds when the last one starts, and the run ends as that attempt does if it was in time, and with a TimeoutException if not |
| Engine.RunSync | klafi/runtime/engine.py:46-72 | the sync loop terminates with the exit, waits and recorded states of the specification |
| Engine.RunAsync | klafi/runtime/engine.py:84-107 | the same for the async loop, which also retries timeouts |
| Retry.Payloads | klafi/core/base_graph.py:151-171 | the payloads are the input and then only Resume with a checkpointer, and only the input without one |
| Retry.CompletedTasksAreNotRepeated | klafi/core/base_graph.py:151-171 | over any pattern of failures on a checkpointed graph whose next superstep is any function of what is committed, every task completes at most once, and a run that succeeds has completed exactly the tasks of an uninterrupted run |
| Retry.SuccessesAgree | klafi/core/base_graph.py:151-171 | two runs of one graph that both succeed complete the same tasks, each once, whatever failed on the way and under whatever policies |
| Retry.RunStepsKeeps | klafi/core/base_graph.py:151-171 | any run of supersteps, cut off anywhere, leaves a checkpoint on the uninterrupted path with every completion logged once |
| Retry.CleanRunFinishes | klafi/core/base_graph.py:151-171 | from any checkpoint on the path, a run whose tasks all complete ends where an uninterrupted one does, if it may take as many supersteps as that needs |
| Retry.WhyARunStops | klafi/core/base_graph.py:151-171 | a run that does not finish used up its supersteps, or met a task that fails, with all saved that completed beside it |
| Retry.EveryAttemptRestarts | klafi/core/base_graph.py:151-171 | without a checkpointer every attempt completes again all that it completes from the input |
| Hooks.ResolvedOrder | klafi/core/hook.py:80-83 | the resolved hooks are the one sorted list that keeps, at every priority, the enabled global hooks and then the enabled agent hooks in order |
| Hooks.OnionOrder | klafi/core/hook.py:163-177 | past the before-hooks, those fire in resolved order, and after- and finally-hooks in the reverse of it |
| Hooks.RunInOrder | klafi/core/hook.py:163-177 | the whole trace in order, failing or not: before-hooks, node, after-hooks, error hooks, finally-hooks, each with the signal of its phase |
| Hooks.SweepStopsAtTheFirst | klafi/core/hook.py:108-136 | a phase ends with what the first hook lets out that lets anything out; the hooks up to that one fire, and no other |
| Hooks.WhichExceptionLeaves | klafi/core/hook.py:163-177 | which exception leaves a failing run, for all hooks: the first before-hook's, else the first finally-hook's, else the failure as the error hooks leave it, control flow and cancellation unchanged |
| Hooks.BeforeFailureFiresNothingElse | klafi/core/hook.py:163-168 | a before-hook that lets an exception out ends the run with it, and no after-, error- or finally-hook fires |
| Hooks.FinallyFiresOnceIff | klafi/core/hook.py:134-136 | every finally-hook fires exactly once on every exit if and only if none but the outermost raises a `BaseException` there |
| Hooks.InterruptedFinally | klafi/core/hook.py:134-136 | with an interrupted inner finally-hook the outer one never fires |
| Hooks.ErrorHooksFireExactlyWhen | klafi/core/hook.py:168-177 | error hooks fire exactly when an exception that is not control flow leaves the node or an after-hook |
| Hooks.EveryErrorHookFiresIff | klafi/core/hook.py:129-131 | all error hooks fire, in order, if and only if none but the last raises a `BaseException` |
| Hooks.ReturnsExactlyWhen | klafi/core/hook.py:108-177 | a run returns exactly when nothing lets an exception out, and then returns the node's own result |
| Hooks.EveryoneFiresIff | klafi/core/hook.py:119-136 | a phase fires all its hooks exactly when none but the last lets an exception out |
| Hooks.ObserversAreInvisible | klafi/core/hook.py:108-177 | deleting any set of fail-open hooks that raise only `Exception` changes neither the value nor the exception |
| Hooks.WatchersAreInvisible | klafi/core/hook.py:139-159 | the same for the transforming boundary: a hook that fails open leaves the value as it was before that hook |
| Hooks.TransformSplits | klafi/core/hook.py:139-159 | transforming through a list of hooks is transforming through its two parts in turn |
| Hooks.TransformIff | klafi/core/hook.py:139-159 | a value leaves a boundary exactly at the end of a passage through all hooks, each taking on what the one before left; an exception leaves it exactly from the first hook that stops the value |
| Hooks.TransformValue | klafi/core/hook.py:139-159 | the loop over the hooks, in either order, computes the specified transformation |
| Hooks.HookRegistry.Resolve | klafi/core/hook.py:68-83 | the registry resolves its global hooks with the agent's to the sorted, stable order |
| Hooks.NodeRunner.FireAll | klafi/core/hook.py:108-136 | the firing loop logs the hooks it fires and stops at the first exception that gets out |
| Hooks.NodeRunner.RunNode | klafi/core/hook.py:163-177 | before, try, except and finally produce exactly the specified trace and exit |
| Node.ReturnsThroughAChain | klafi/core/middleware.py:49-60 | a pipeline returns a value exactly when every item ran in order and each accepted what the one before it returned |
| Node.StoppedIff | klafi/core/middleware.py:49-60 | a pipeline raises exactly what the first item raises that raises, on the value the items before it made |
| Node.ApplySplits | klafi/core/middleware.py:49-60 | applying a list is applying its two parts in turn |
| Node.MiddlewaresObserveTheBodyOnly | klafi/core/node.py:109-126 | on_error middlewares observe failures of the node function that are not control flow, and none of the before pipeline, the output contract or the after pipeline |
| Node.FirstRaisingMiddlewareWins | klafi/core/middleware.py:79-86 | a failure is replaced exactly when a middleware raises, by what the first of those raises, and the later ones do not run |
| Node.OnlyCheckedResultsLeave | klafi/core/node.py:109-126 | a result leaves the node exactly when it passed the contract and every after item, and the node ran on the state that passed every before item |
| Node.WhichFailureLeaves | klafi/core/node.py:109-126 | which exception leaves a failing node: a pipeline's or the contract's unchanged, the node function's as the first raising middleware replaces it |
| Node.StepsInOrder | klafi/core/node.py:109-126 | the whole order of a node, failing or not: before items, the node function if they passed, then the middlewares if it failed or the after items if the contract accepted its result |
| Node.StoppedSeen | klafi/core/middleware.py:49-60 | a pipeline that is stopped showed each item up to the one that raised exactly what the items before it made |
| Node.OnionOfAReturn | klafi/core/node.py:22-26 | the whole order of a returning run: before-hooks, before pipeline, node, after pipeline, after-hooks and finally-hooks in reverse |
| Node.ApplyItems | klafi/core/middleware.py:49-60 | the loop rebinding the value computes the specified pipeline and what each item received |
| Node.Wrapped | klafi/core/node.py:109-126 | the wrapper of a node function runs the specified steps |
| Agent.AgentReturnsExactlyWhen | klafi/core/base_graph.py:300-322 | an invocation returns a result exactly when every before_agent hook took the input on, every item before the graph passed, the graph returned, every item after it passed, the after_agent hooks took the result on to it, and no finally hook raises a `BaseException` |
| Agent.WhichExceptionLeavesAgent | klafi/core/base_graph.py:300-332 | which exception leaves a failing invocation: that of a before_agent hook, else of a finally hook, else the failure as the graph middlewares and the error hooks leave it |
| Agent.WhatIsHeard | klafi/core/base_graph.py:318-332 | the handlers hear, in order, of the failure and of the input of the moment: as it came, or as it entered the graph; and the state recorded is CANCELLED or WAITING_APPROVAL for cancellation or control flow and none otherwise |
| Agent.FinallyHearsOfEnteredRuns | klafi/core/base_graph.py:301-322 | finally hooks hear of a run exactly when the before_agent hooks let it in; otherwise nothing hears of it and the run is the same for every graph |
| Agent.AgentErrorHooksFireExactlyWhen | klafi/core/base_graph.py:318-332 | the error hooks of an agent fire exactly when the try block fails with an exception that is neither control flow nor cancellation and no on_error middleware of the graph raises |
| Agent.RaisingMiddlewareSilencesErrorHooks | klafi/core/base_graph.py:330-332 | a graph middleware that raises replaces the failure and keeps the error hook silent |
| Agent.AgentFinallyFiresOnceIff | klafi/core/base_graph.py:321-322 | once the input is transformed, every finally_agent hook fires once in reverse order, if and only if none but the outermost raises a `BaseException` |
| Agent.PassiveHooksAreInvisible | klafi/core/base_graph.py:289-332 | deleting any set of hooks that only observe or fail open changes neither result, exception nor recorded state of an invocation |
| Gateway.TheChain | klafi/model/gateway.py:153-164 | every alias graph, cyclic or not, has exactly one fallback chain from each alias: distinct, linked, as long as it goes |
| Gateway.CallsFollowTheChain | klafi/model/gateway.py:166-200 | a call tries a prefix of the chain, each alias once, on the prompt masked by the hooks of all aliases so far, and every one but the last failed without a block |
| Gateway.BlocksStopTheChain | klafi/model/gateway.py:178-187 | a provider failure of class guardrail block, policy block, cancellation or other `BaseException` is the last call and the exit; one of any other class leaves only when the chain is used up |
| Gateway.FallbackFailureLeavesIff | klafi/model/gateway.py:182-187 | a provider failure of any other class, control flow included, reaches the caller if and only if its alias is the last of the chain |
| Gateway.ControlFlowReachesTheFallback | klafi/model/gateway.py:180-187 | a control-flow signal of a provider leads to the fallback and the caller never sees it |
| Gateway.TriesWhatChatFallbacksVisits | klafi/model/gateway.py:153-187 | the recursive form tries the alias and then exactly the aliases the iterative form visits, if and only if all are registered, no before-hook stops the call and every provider but the last fails without a block |
| Gateway.HooksPerAlias | klafi/model/gateway.py:176-200 | before-hooks run once per alias tried, and once more only for a refused prompt; after-hooks run at most once, for the alias that answered |
| Gateway.RepliesAreReportedOnce | klafi/model/gateway.py:188-200 | a call is reported to the event bus exactly when it replies: once, under the alias that answered and with the tokens of that answer |
| Gateway.ModelGateway.ChatFallbacks | klafi/model/gateway.py:153-164 | the loop terminates on cycles, returns exactly the aliases with a chat model along the fallback chain, and fails exactly when an alias of the chain is not registered |
| Gateway.ModelGateway.Call | klafi/model/gateway.py:166-200 | the recursive method terminates and logs exactly the specified events |
| LayeredConfig.MergeAt | klafi/config/layered.py:29-37 | at every path the higher operand decides if it says anything there: a leaf, a dict, or a non-dict that hides what is below |
| LayeredConfig.PathsDetermineDict | klafi/config/layered.py:29-37 | dicts that read the same at every path are equal, so the path law determines the merge |
| LayeredConfig.HighestLayerDecides | klafi/config/layered.py:94-98 | the value at a path comes from the highest layer that does not leave it open |
| LayeredConfig.LayersInOrder | klafi/config/layered.py:94-98 | runtime decides before agent, agent before project, project before environment, environment before framework |
| LayeredConfig.MergeIdentity | klafi/config/layered.py:29-37 | the empty dict is a left and a right identity |
| LayeredConfig.MergeIdempotent | klafi/config/layered.py:29-37 | merging a dict onto itself changes nothing |
| LayeredConfig.CoveredIffMergeIsOver | klafi/config/layered.py:29-37 | a merge yields its higher operand exactly when that covers everything of the lower one |
| LayeredConfig.MergeAssociativeIff | klafi/config/layered.py:29-37 | merging is associative on exactly the compatible triples |
| LayeredConfig.MergeIsNotAssociative | klafi/config/layered.py:29-37 | dict, scalar, dict at one key: grouping matters |
| LayeredConfig.OverrideMergesOnTop | klafi/config/layered.py:89-98 | overriding and then resolving equals merging onto the resolved result exactly for compatible layers |
| LayeredConfig.FindIsSeen | klafi/config/layered.py:100-107 | a lookup returns a value exactly where the resolved dict can be read |
| LayeredConfig.DeepMerge | klafi/config/layered.py:29-37 | the loop over the higher operand's items computes the merge |
| LayeredConfig.LayeredConfig.Override | klafi/config/layered.py:89-92 | only the runtime layer changes, by a merge |
| LayeredConfig.LayeredConfig.Resolve | klafi/config/layered.py:94-98 | the loop over the layers in order computes the merge of all of them |
| LayeredConfig.LayeredConfig.Get | klafi/config/layered.py:100-107 | the loop down a path returns what is there or the default |
| BoundedFifo.TableIsWindow | klafi/hitl/approval.py:104-107 | a bounded table is the window of the last insertions of its own log, without repetition and within its capacity |
| BoundedFifo.MissesExactlyWhenEvicted | klafi/context/manager.py:124-131 | a key misses exactly when it was never inserted or `cap` insertions followed its last one |
| BoundedFifo.EvictedAtTheCapthInsertion | klafi/hitl/approval.py:105-107 | an entry is evicted by exactly the cap-th later insertion |
| BoundedFifo.FewKeysStay | klafi/server/recorder.py:76-78 | with at most `cap` different keys none is ever dropped |
| BoundedFifo.FifoMap.Put | klafi/context/manager.py:129-131 | dropping the oldest and inserting is one offer to the table, and the values follow the keys |
| Approval.AnnouncedOnceBetweenEvictions | klafi/hitl/approval.py:104-111 | however often nodes re-run, two announcements of one id are more than 1024 apart, and with at most 1024 ids each is announced exactly once |
| Approval.AnnouncesExactlyWhenForgotten | klafi/hitl/approval.py:104-111 | a request announces exactly when its id was never announced or 1024 announcements followed its last one |
| Approval.FailedPushIsNotRepeated | klafi/hitl/approval.py:104-111 | an adapter that raised is not called again for its approval while the id is remembered |
| Approval.EveryAnswerIsRecorded | klafi/hitl/approval.py:104-118 | every answered request records its normalised decision, in order, except one that announces, being for none of the last 1024 announcements, through an adapter that raises |
| Approval.DecisionsAreAnswers | klafi/hitl/approval.py:113-132 | no approval is made up: every recorded decision is what somebody answered to that request, and a refusal, or a dict that does not say `approved`, is recorded as a refusal |
| Approval.NoDecisionWithoutRequest | klafi/hitl/approval.py:104-118 | no approval is decided that was not announced before, whatever was evicted in between |
| Approval.QuietAdapterRecordsAllAnswers | klafi/hitl/approval.py:113-118 | with an adapter that never raises the decisions are exactly the answers, in order, whatever was evicted in between |
| Approval.ApprovalDesk.RequestApproval | klafi/hitl/approval.py:79-118 | one execution of the asking node, stopped by the adapter, by the interrupt or not at all, has exactly the specified effects on table and log |
| Approval.ApprovalDesk.Serve | klafi/hitl/approval.py:79-118 | over any sequence of executions the table stays within 1024 and the effects are the specified ones |
| Recorder.RunsAreTheLastCreated | klafi/server/recorder.py:58-79 | under every interleaving the stored runs are the last `capacity` created ones, in creation order; with capacity 0 there are none |
| Recorder.DroppedAtTheCapthCreation | klafi/server/recorder.py:76-78 | a run is gone exactly when `capacity` other records were created after it |
| Recorder.RowsAreNumbered | klafi/server/recorder.py:81-88 | under every interleaving the number of every row is its index |
| Recorder.RowsOnlyGrow | klafi/server/recorder.py:81-88 | while a run is stored, no interleaving removes, renumbers or renames a row of it, or changes a recorded token count |
| Recorder.ActionsWriteTheirRows | klafi/server/recorder.py:81-88 | under every interleaving an addition or an append is a new last row of its own run, a fill completes the last pending row of its model, and no other row changes |
| Recorder.RunsEndAsReported | klafi/server/recorder.py:109-127 | under every interleaving a stored run shows the last error and the last end that its own events reported since its record was created |
| Recorder.ReportedErrorsEndFailed | klafi/server/recorder.py:109-127 | a run whose error was reported before its end shows FAILED when its context never left CREATED, whatever other threads do |
| Recorder.TotalsAreEarned | klafi/server/recorder.py:163-179 | under every interleaving the token total of a run is what the two halves of events booked for it since its record was created; `Recorder.TokensAreConserved` relates that to what was reported |
| Recorder.TokensAreConserved | klafi/server/recorder.py:163-179 | under every interleaving, tokens booked since a record was created plus those between the halves of their event equal those reported since, plus those that were half-way at its creation |
| Recorder.RunTotals | klafi/server/recorder.py:41-55 | under every interleaving, the total a stored run shows and what is still half-way add up to the same |
| Recorder.SettledTotals | klafi/server/recorder.py:163-179 | with no event of its own half-way, a run shows exactly the tokens reported since its record was created, if and only if none was half-way at that moment |
| Recorder.SinceCreation | klafi/server/recorder.py:58-79 | read off the schedule: reported since, and half-way at, the action that created the stored record |
| Recorder.LateAppendIsCarried | klafi/server/recorder.py:168-179 | at capacity 1, an event whose record is dropped between its halves leaves 5 tokens in a record for which none were reported |
| Recorder.FewExecutionsShowEverything | klafi/server/recorder.py:163-179 | up to as many executions as the capacity, every settled run shows exactly the tokens reported for it |
| Recorder.FewExecutionsAreNeverDropped | klafi/server/recorder.py:76-78 | a recorder that has seen no more executions than its capacity has dropped none |
| Recorder.OneCallAddsItsTokens | klafi/server/recorder.py:167-179 | uninterrupted, one event adds exactly its tokens to its own run, in either half |
| Recorder.ExecutionRecorder.Run | klafi/server/recorder.py:58-79 | the eviction loop leaves the newest runs and finds the record, unless there is no room for it |
| Recorder.ExecutionRecorder.FillPending | klafi/server/recorder.py:168-177 | the backward search fills the last pending row of the model, and says whether there was one |
| Recorder.ExecutionRecorder.OnModelCalled | klafi/server/recorder.py:163-179 | both halves together leave the specified store, with the run's total grown by the event's tokens |
| Recorder.ExecutionRecorder.Get | klafi/server/recorder.py:41-55 | the loop over the rows computes the totals of the stored run |
| Recorder.TotalsCountRows | klafi/server/recorder.py:48-55 | those totals are the numbers of node, tool, model and guardrail rows, and the tokens of the model rows |
| Supervisor.RunIsFaithful | klafi/templates/supervisor.py:54-80 | every worker call was chosen by the router on the history and results of the calls before it, and the final state is that of the calls |
| Supervisor.HistoryIsBounded | klafi/templates/supervisor.py:56-60 | the history never grows past `max_steps`, unless it started there |
| Supervisor.KnownRouterFinishes | klafi/templates/supervisor.py:54-71 | with a router that returns only known names every run finishes within the budget, and early only because the router said so |
| Supervisor.FailsOnUnknownNames | klafi/templates/supervisor.py:67-69 | a run fails only on a router answer that is neither a worker nor FINISH |
| Supervisor.ConstructedTeams | klafi/templates/supervisor.py:44-45 | a team is refused exactly when a worker has the reserved name; otherwise a run calls known workers only, within the given budget, ends before it is used up only when the router says FINISH, and fails only on a name that is neither a worker nor FINISH |
| Supervisor.ResultsAreTheLastOutputs | klafi/templates/supervisor.py:21-29 | from an empty start the results have an entry for exactly the workers in the history, and it is that worker's last output |

## Left out

- LangGraph itself: checkpoint savers, interrupts, parallel branches and how its limits count. `Retry` keeps supersteps given by an arbitrary function of what is committed, with a bound per attempt, `StreamGate` an arbitrary item sequence, `Supervisor` its fixed loop.
- HTTP and path parsing in the limiter: whether a request is counted and which agent it names are attributes of the request; the body of the 429 answer is not built.
- Guardrail.MasksCoverIff: lists in which a mask renames the tool role behind one that refuses the text `tool` are not decided; every single mask and every list without such a refusal is.
- Approval.ApprovalDesk.Serve: executions are atomic and in sequence. The table has no lock, so threads that pass its length test together can leave more than 1024 ids; that race is not modelled.
- ContextManager.ContextManager.SummaryFor: one request is atomic. The cache has no lock either, and the same race can leave more than 32 summaries.
- Real time, threads and randomness: durations, schedules and jitter draws are arbitrary values; a timed-out sync worker that keeps running in the background is not modelled.
- Policy.WaitsNeverShrinkIff: assumes base, factor and maximum are not negative, because a negative wait is an error when sleeping. The same holds of `Policy.WaitsWithinMaxIff`.
- Engine.TotalTimeIsBounded: assumes durations, a timeout and backoff settings that are not negative, because a negative setting is no duration to wait for.
- Regex guardrails, the LLM judge, `expand_env` and score parsing: a guardrail check is an arbitrary function on text.
- `bind` on pydantic models (dump, bind, validate): that branch is not modelled. Object identity of rebuilt containers is not either; "returned unchanged" is equality of values.
- Replacements of a text guard that are not strings, and the audit log and event sent per violation.
- Hooks as functions of the signal they receive: a hook that mutates the node's state object in place is outside the model. Hook objects that raise in `getattr`, and logging, are left out.
- Streaming variants of an invocation (`stream`, `astream`): only `invoke` is modelled in `Agent`; the state set for an `__interrupt__` result is left out.
- `klafi_node` output contracts: coercion is an arbitrary function that returns or raises; choosing the key and pydantic validation are left out.
- Cost, spans and the provider call under its policy in the gateway: a provider is a function from prompts to answers. No alias is called twice in one invocation, so this loses no behaviour.
- `approval_id`: the id of a request is given; its derivation from task, action and payload is left out.
- Timings, the table of open spans, node error texts and the constant context fields of a recorded run.
- Config directories, YAML and dotted-name splitting: `Get` takes a path that is already split.
- Token counting, `manage`, `handoff_summary`, `ExecutionPolicy.merge`, the registry life cycle, skills and the event bus: finite or one-step facts.
