# Verified model of Absurd

Absurd runs durable tasks on top of PostgreSQL. This project models the parts of the repository whose
correctness is not visible from any single function, and proves what they promise.

| Modules | What they model |
|---|---|
| `CheckpointNames`, `Replay`, `CallOutcomes`, `CommittedStates`, `Transparency`, `StateSources`, `Apartness`, `SleepTimes` | Durable steps and sleeps of the TypeScript and Python SDKs: checkpoint names, and replay over any history of attempts on the checkpoint table itself |
| `TaskContext`, `CachedCalls`, `CachedReplay`, `CachedSleeps`, `CachedTransparency`, `FalsyCheckpoints` | The task context with its cache, replay through it, and the runs in which a falsy state makes a difference |
| `EffectSteps` | Durable steps of the Effect SDK, on the SQL runtime and on the in-memory test runtime |
| `LeaseWatchdog`, `Polling` | The two lease watchdogs, and waiting for a task result with backoff and heartbeats |
| `Ledgers`, `TypeScriptWorker`, `EffectWorker`, `PythonWorker` | The three worker loops as state machines |
| `TestTaskStore` | The in-memory task store of the Effect SDK, with handlers that spawn recursively |
| `Pagination`, `TaskRuns`, `EventLog` | Habitat's merged task list, the client that walks its pages, and the merged event log |
| `JsonValues`, `JsonViewer` | Habitat's JSON tokenizer and the list of foldable paths |
| `TsTypes`, `AliasRules`, `DictionaryTypes` | Lint rules that follow type aliases through possibly cyclic graphs |
| `Prelude`, `Decimal` | Small shared types; decimal numerals |

How the main models are set up:

- A task body is a deterministic function from the answers it has received to its next action. An attempt is a
  list of environment choices, one per action. A choice says what the step body returns, whether the lookup
  fails, whether the write is acknowledged, refused, or lands while reporting failure, and what the clock reads.
  Cutting an attempt off anywhere is ending its list of choices; a crash between a write and its
  acknowledgement is an unacknowledged write at the end of the list. The replay theorems range over every program
  and every list of attempts; where one needs a condition, its row says which.
- The SDKs read the table through a cache that each attempt fills anew. Attempts are first treated on the table
  itself. `TaskContext` then proves the classes of the SDKs equal to attempts through the cache, and the `Cached`
  modules show what holds of those: an attempt that never spoils its cache, among them every attempt that catches
  no failure, is an attempt on the table, and what was committed before an attempt is final in any case.
- Classes carry the state that the source updates in place. Their methods are proved equal to specification
  functions, and the theorems are about those functions.
- A worker is a state machine whose events are the stretches between two awaits; safety is proved for every
  event sequence. Each loop is also given as a class whose methods are proved to be those events.

## What the proofs show about the code

- **A TypeScript sleep overwrites a falsy checkpoint.** `sleepUntil` tests `if (!state)` rather than absence, so
  a committed `false`, `0`, `""` or `null` that it sees under its checkpoint name is replaced by the wake time.
  `CachedReplay.CachedChangesIff` shows this is the only way any committed state changes.
  `Transparency.AnswersHeldIff` tells from an attempt's answers alone whether a value was lost in it, and
  `FalsyCheckpoints.FalsyCheckpointIsLost` gives, for every name, a body whose replay then returns something
  else. It needs a step and a sleep that share a checkpoint, as a step `nap#2` beside two sleeps `nap`. The
  Python SDK tests for absence and has no such case.
- **A TypeScript sleep that sees the empty string does not wait.** The empty string is no date, so the sleep
  passes at once, while it is also falsy, so the sleep stores its wake time.
  `CachedSleeps.SleepsPassedEarlyThroughCacheIff` shows this is the only way any sleep is passed before the wake
  time that is left, and `FalsyCheckpoints.EmptyStringPassesEarly` gives a body.
- **The cache can differ from the table in one case only**: that overwrite, when its acknowledgement is lost and
  the body catches the error (`CachedReplay.CacheStaysCurrentIff`). The rest of that attempt still sees the falsy
  state. It can return something else than it would without the cache (`FalsyCheckpoints.StaleCacheDiverges`), and
  a later sleep at the same checkpoint can replace the wake time that the lost write had committed
  (`FalsyCheckpoints.StaleCacheRewrites`). Wake times that were stored before the attempt are safe
  (`CachedSleeps.DurableSleepThroughCache`).
- **Checkpoint names clash exactly when** some used name spells a later use of another used name.
- **Waiting for a result keeps the lease alive exactly for claim timeouts of two seconds and more** (among
  positive whole seconds). With one second a wait can go a full second after its last renewal. A claim timeout
  of zero gives no lease at all.
- **Without the fatal mode the two watchdogs differ** as soon as two leases are overrun: the Effect loop stops at
  its first warning, the TypeScript timers warn for each.
- **The test checkpoint runtime differs from production exactly when a run commits `undefined`**, which SQL stores
  as null (`EffectSteps.RunsAgreeIff`); a replay can then fail to decode in production only.
- **Idempotency keys of the test store are confused exactly when** `queue:name:` of one request starts that of a
  request with another queue or name, which takes a colon in one of them.
- **The sequential Python worker drops the rest of a claimed batch** when a task other than the last raises.

## Model

| member | source | states |
|---|---|---|
| `CheckpointNames.SharedName` | `sdks/typescript/src/index.ts:432` | two different (name, occurrence) pairs share a checkpoint name only if one is a first use that spells the other |
| `CheckpointNames.NamesDistinctIff` | `sdks/typescript/src/index.ts:429-434` | the checkpoint names of any call sequence are pairwise distinct if and only if no used name is another used name followed by `#` and a numeral from 2 to that name's number of uses |
| `CheckpointNames.NamesWithoutHashDistinct` | `sdks/effect/src/Absurd.ts:243-245` | call sequences whose names contain no `#` always get distinct checkpoint names |
| `CheckpointNames.NamesFollowPrefix` | `sdks/effect/src/internal/Checkpoint.ts:54-56` | attempts that make the same calls give them the same names: a name depends on the calls before it only |
| `CheckpointNames.UsesCount` | `sdks/typescript/src/index.ts:429-434` | the occurrence number of a use counts the uses of its name before it |
| `CheckpointNames.LaterUses` | `sdks/typescript/src/index.ts:429-434` | the first use of a name is the name itself, the second is the name with `#2`, and later ones append `#` and the decimal numeral of the use |
| `CommittedStates.HistoryPreserves` | `sdks/typescript/src/index.ts:350-427` | on the table itself: over any program and any history of attempts no checkpoint disappears, and every committed state stays, except a falsy one at a checkpoint where a TypeScript sleep can look |
| `CommittedStates.RunKeepsCommitted` | `sdks/python/src/absurd_sdk/__init__.py:695-722` | on the table itself: from any point of an attempt on, the body of a committed step does not run, and every step at its checkpoint answers the committed value; the one exception is a falsy value with the TypeScript SDK where a sleep of the body can look at the checkpoint: there it may answer a wake time |
| `CommittedStates.CommittedStepIsFinal` | `sdks/typescript/src/index.ts:350-395` | on the table itself: for every body, history and committed value: the body of a committed step is never among the bodies run again, and in every later attempt its step answers the committed value, with the exception of the previous row |
| `CommittedStates.PermanentValueIsFinal` | `sdks/typescript/src/index.ts:350-395` | on the table itself: without exception always the committed value: with the Python SDK, for truthy values, and where no sleep of the body can look at the checkpoint |
| `CommittedStates.DurableSleep` | `sdks/python/src/absurd_sdk/__init__.py:766-790` | on the table itself: over any history a stored wake time never changes and no attempt passes that sleep before it, although a relative sleep computes a new time in each attempt |
| `Transparency.AttemptExplained` | `sdks/typescript/src/index.ts:350-427` | on the table itself: every answer of an attempt, cut off anywhere and with any failures caught, is a caught failure or what the store holds at the checkpoint of its call; the exceptions are told exactly: falsy values that a later TypeScript sleep rewrites, where the store then holds a wake time; a result is the body's result on those answers |
| `CallOutcomes.PerformTold` | `sdks/typescript/src/index.ts:350-427` | one look at a checkpoint: a step or sleep raises an error if and only if it is that of the lookup, of the step's own function, of an unacknowledged write, of an unreadable date (Python SDK) or of rescheduling; it returns a value, wakes, suspends or runs its body if and only if the stated cause holds; and it writes exactly what it wants to commit, unless the write is refused |
| `CallOutcomes.AttemptTold` | `sdks/typescript/src/index.ts:350-427` | on the table itself, for every body, table and list of choices: each call of an attempt is what the body asks for after the answers before it, and its answer, body run and write are those of the previous row; the attempt is suspended exactly at a last call that got no answer, and completes or fails exactly as its body does |
| `CallOutcomes.HistoryTold` | `sdks/typescript/src/index.ts:302-332` | each attempt of a history starts on the table that the ones before it left |
| `Transparency.AnswersHeldIff` | `sdks/typescript/src/index.ts:414-420` | on the table itself: the final store of an attempt that completes without a caught failure holds all its answers if and only if the SDK is the Python one or no sleep passed at the checkpoint of an earlier falsy answer |
| `StateSources.StatesHaveSources` | `sdks/typescript/src/index.ts:350-427` | on the table itself: whatever an attempt leaves in the store was there before, or is the value its own step body returned, or the wake time its own sleep asked for |
| `Apartness.HistoryStaysClean` | `sdks/typescript/src/index.ts:414-427` | on the table itself: if no checkpoint is used by both a step and a sleep, sleep checkpoints hold wake times after every history |
| `SleepTimes.ApartSleepsArePassedOnTime` | `sdks/typescript/src/index.ts:414-427` | on the table itself: if no checkpoint is used by both a step and a sleep, every passed sleep leaves a wake time, and was passed at or after it |
| `Transparency.ResultIsEvaluation` | `sdks/typescript/src/index.ts:350-395` | on the table itself: after any history, the result of an attempt that completes without a caught failure is the body evaluated on its final store, and a replay on that store gives the same answers and result, runs no step body and writes nothing: for every body with the Python SDK, and with the TypeScript SDK under the condition of `AnswersHeldIff` |
| `Transparency.ReplayReproducesIff` | `sdks/python/src/absurd_sdk/__init__.py:695-722` | on the table itself: on the store after any further history, a replay reproduces such an attempt if and only if that store still holds its answers |
| `Transparency.ReplayIsTransparent` | `sdks/typescript/src/index.ts:350-427` | on the table itself: both hold on the final store and after any further history when every answer is permanent: always with the Python SDK, and with the TypeScript SDK when no sleep of the body can look at the checkpoint of a falsy answer |
| `Apartness.ApartIsSecure` | `sdks/typescript/src/index.ts:350-427` | a body whose steps and sleeps use different checkpoints makes such attempts only |
| `Apartness.ApartByName` | `sdks/typescript/src/index.ts:429-434` | steps and sleeps that use different names without `#` use different checkpoints |
| `Apartness.ApartByOrder` | `sdks/typescript/src/index.ts:429-434` | steps and sleeps that share names without `#` use different checkpoints too when the order of calls does not depend on the answers |
| `FalsyCheckpoints.FalsyCheckpointIsLost` | `sdks/typescript/src/index.ts:418-420` | for every name, a body whose first attempt commits and returns `false` and whose second attempt, on the store left behind, returns a wake time |
| `FalsyCheckpoints.EmptyStringPassesEarly` | `sdks/typescript/src/index.ts:417-424` | for every name, a body that commits the empty string and whose sleep then passes at once while it stores a wake time still to come |
| `FalsyCheckpoints.StaleCacheDiverges` | `sdks/typescript/src/index.ts:436-474` | for every name, a body and a history after which an attempt through the cache returns `false` where every attempt directly on the table returns a wake time |
| `FalsyCheckpoints.StaleCacheRewrites` | `sdks/typescript/src/index.ts:415-420` | for every name, a body and a history from an empty table in which a sleep that sees a stale falsy state replaces the wake time 5, committed earlier in the same attempt, by 7, and passes at clock zero if that state is the empty string |
| `TaskContext.Context.constructor` | `sdks/typescript/src/index.ts:302-332` | preloading leaves a cache that holds exactly the returned rows, none of them stale |
| `TaskContext.Context.GetCheckpointName` | `sdks/python/src/absurd_sdk/__init__.py:905-909` | the counter map yields the name of the next occurrence, for any earlier calls |
| `TaskContext.Context.LookupCheckpoint` | `sdks/typescript/src/index.ts:436-455` | answers what the context sees, query failure included unless the cache spares the query; caches what it found and makes nothing stale |
| `TaskContext.Context.PersistCheckpoint` | `sdks/typescript/src/index.ts:457-474` | the table gets the write if it lands, the cache once it is acknowledged; the name is stale afterwards exactly when it was cached with another value and the acknowledgement was lost, or was stale and the write was refused |
| `TaskContext.Context.BeginStep` | `sdks/typescript/src/index.ts:367-382` | the handle is done, with the state the context sees, exactly when it sees one |
| `TaskContext.Context.CompleteStep` | `sdks/typescript/src/index.ts:389-395` | a done handle changes nothing; an open one commits, and returns the value only once the write is acknowledged; a name that was not cached never goes stale |
| `TaskContext.Context.Step` | `sdks/typescript/src/index.ts:350-358` | table, cache, body run and answer of a step, errors its own function throws included, are those that `CachedCalls.CachedPerformTold` spells out, stale cache entries included |
| `TaskContext.Context.Sleep` | `sdks/typescript/src/index.ts:414-427` | table, cache and answer of a sleep are those that `CachedCalls.CachedPerformTold` spells out, stale cache entries included |
| `TaskContext.PerformAction` | `sdks/python/src/absurd_sdk/__init__.py:771-790` | one action of a body through the context is one action of the cached semantics |
| `TaskContext.ExecuteTask` | `sdks/typescript/src/index.ts:302-474` | a whole run of a body through the context is an attempt of the cached semantics, with no condition |
| `CachedReplay.CachedActRefines` | `sdks/typescript/src/index.ts:436-474` | as long as no entry is stale, an action through the cache is the action on the table itself, with a lookup that fails at most as often |
| `CachedCalls.CachedPerformTold` | `sdks/typescript/src/index.ts:436-474` | one action through the cache answers as `CallOutcomes.PerformTold` says of the state the context sees, writes to the table, enters an acknowledged write or a found state into the cache, and leaves the cache alone when the lookup fails |
| `CachedCalls.CachedAttemptTold` | `sdks/typescript/src/index.ts:302-474` | every call of an attempt through the cache is told in this way, stale cache entries included, and so is how the attempt ends |
| `CachedCalls.CachedHistoryTold` | `sdks/typescript/src/index.ts:302-332` | each cached attempt of a history starts on the table that the ones before it left, with a cache of its own |
| `CachedCalls.PreloadedTold` | `sdks/typescript/src/index.ts:302-332` | a new cache holds a checkpoint exactly if its row was returned, with the value of the table |
| `CachedReplay.CacheStaysCurrentIff` | `sdks/typescript/src/index.ts:414-420` | an action makes an entry of an agreeing cache differ from the table if and only if it is a TypeScript sleep that rewrites a falsy state and loses the acknowledgement |
| `CachedReplay.AgreesThroughoutIff` | `sdks/typescript/src/index.ts:436-474` | from an agreeing cache, the cache agrees with the table in every state of a run if and only if no action of the run is of that kind |
| `CachedReplay.UnspoiledIsDirect` | `sdks/typescript/src/index.ts:302-474` | then the whole attempt is an attempt on the table itself, with lookups that fail at most as often |
| `CachedReplay.CacheMakesNoDifference` | `sdks/python/src/absurd_sdk/__init__.py:911-946` | so is every attempt where the SDK is the Python one, or no acknowledgement is lost, or steps and sleeps use different checkpoints |
| `CachedReplay.CachedChangesIff` | `sdks/typescript/src/index.ts:414-427` | an action through the cache changes a committed state if and only if it is a TypeScript sleep at that checkpoint whose lookup works, that sees a falsy state there, whose write lands, and that asks for another time than is there already |
| `CachedReplay.CommittedStepIsFinalThroughCache` | `sdks/typescript/src/index.ts:350-395` | for every body, table, preloaded rows and history of attempts through caches that may go stale: the body of a committed step never runs again, and its step answers the committed value, except that a falsy value with the TypeScript SDK, where a sleep of the body can look at the checkpoint, may become a wake time |
| `CachedReplay.CachedHistoryPreserves` | `sdks/typescript/src/index.ts:350-474` | over any such history no checkpoint disappears, and every state that is committed before an attempt stays, with the same exception |
| `CachedSleeps.CachedRunWakesOnTime` | `sdks/typescript/src/index.ts:414-427` | within an attempt, a wake time that the table holds and the cache does not contradict stays, and its sleep is passed only when the clock reads it or later |
| `CachedSleeps.DurableSleepThroughCache` | `sdks/python/src/absurd_sdk/__init__.py:766-790` | over any history of attempts through caches that may go stale, a wake time stored before an attempt never changes and no attempt passes that sleep before it |
| `CachedSleeps.CachedPassesEarlyIff` | `sdks/typescript/src/index.ts:414-427` | a sleep through the cache passes and leaves a wake time that its clock has not reached if and only if it is a TypeScript sleep that sees the empty string, asks for a time still to come, and has its lookup answered and its write acknowledged |
| `CachedSleeps.SleepsPassedEarlyThroughCacheIff` | `sdks/typescript/src/index.ts:414-427` | for every body and history of cached attempts before and after: a passed sleep was passed before the wake time that the history ends up with if and only if the SDK is the TypeScript one and the context saw the empty string while the sleep asked for a time still to come; what a passed sleep saw or left never changes |
| `CachedSleeps.SleepsArePassedOnTimeThroughCache` | `sdks/python/src/absurd_sdk/__init__.py:771-790` | so no attempt passes a sleep before the wake time that the history ends up with: for every body with the Python SDK, and with the TypeScript SDK whenever no sleep of the attempt sees the empty string in that way |
| `CachedTransparency.CleanIsDirect` | `sdks/typescript/src/index.ts:302-474` | a cached attempt that completes without a caught failure is an attempt on the table itself, whatever the attempts before it did |
| `CachedTransparency.AnswersHeldThroughCacheIff` | `sdks/typescript/src/index.ts:414-420` | the final store of such an attempt holds all its answers if and only if the SDK is the Python one or no sleep passed at the checkpoint of an earlier falsy answer |
| `CachedTransparency.ResultIsEvaluationThroughCache` | `sdks/typescript/src/index.ts:302-395` | after any history of cached attempts its result is the body evaluated on its final store: for every body with the Python SDK, and with the TypeScript SDK under that condition |
| `CachedTransparency.ReplayReproducesThroughCacheIff` | `sdks/typescript/src/index.ts:302-395` | on the store after any further history of cached attempts, a replay through a new context gives the same answers and result, runs no step body and writes nothing, if and only if that store still holds its answers |
| `CachedTransparency.ReplayIsTransparentThroughCache` | `sdks/typescript/src/index.ts:302-427` | and so it does whenever its answers are permanent: always with the Python SDK |
| `EffectSteps.Occurrences.Next` | `sdks/effect/src/Absurd.ts:243-245` | the occurrence counter yields the name of the next occurrence |
| `EffectSteps.StepInMemory` | `sdks/effect/src/internal/Checkpoint.ts:23-67` | `makeStep` over `makeMemory` has the outcome of `MemoryStep`, encode and decode failures included |
| `EffectSteps.BeginStep` | `sdks/effect/src/Absurd.ts:242-265` | begin fails with the store, is done with the stored state, or is open at the name of this occurrence |
| `EffectSteps.Complete` | `sdks/effect/src/Absurd.ts:254-264` | writes the encoded value, with undefined turned into null, unless the write is refused |
| `EffectSteps.StepOnWorker` | `sdks/effect/src/Worker.ts:31-58` | `makeStep` over the worker's adapter has the outcome of `SqlStep`, with begin, encode, decode and complete failures |
| `EffectSteps.MemoryStepTold` | `sdks/effect/src/internal/Checkpoint.ts:23-67` | on the test runtime a step runs its body exactly when it finds no checkpoint; each value, each kind of failure and each write has its exact cause |
| `EffectSteps.SqlStepTold` | `sdks/effect/src/Absurd.ts:242-265` | on the production runtime likewise, with the failures of begin and complete, and undefined stored as null |
| `EffectSteps.AttemptTold` | `sdks/effect/src/internal/Checkpoint.ts:23-41` | on either runtime, for every program, table and list of choices: each answer of an attempt, and the rows and bodies run after it, are those of a step, in the order of the program, and the attempt completes or fails exactly as its program does |
| `EffectSteps.RerunsTold` | `sdks/effect/src/internal/Checkpoint.ts:49-67` | each rerun starts on the checkpoints that the one before it left |
| `EffectSteps.CommitDecodesBack` | `sdks/effect/src/internal/Checkpoint.ts:35-40` | with a codec that survives storage, a step without a checkpoint succeeds only by running its body, and what it returns is what its checkpoint decodes to afterwards |
| `EffectSteps.RerunsKeepCommitted` | `sdks/effect/src/internal/Checkpoint.ts:23-41` | on either runtime, in every later attempt, a committed step is decoded from its checkpoint or fails to begin, and its body never runs again |
| `EffectSteps.ReplayIsTransparent` | `sdks/effect/src/internal/Checkpoint.ts:23-41` | an attempt that completes without a caught failure is reproduced by either runtime, with no body run, from any later table that keeps its checkpoints |
| `EffectSteps.StepsAgreeIff` | `sdks/effect/src/Absurd.ts:254-264` | on working storage a step of the test runtime equals the production step if and only if it does not commit `undefined` |
| `EffectSteps.TestRuntimeAgrees` | `sdks/effect/src/internal/Checkpoint.ts:49-67` | for every program and rerun sequence whose encoders never yield undefined, both runtimes give the same answers, body runs, results and checkpoints |
| `EffectSteps.RunsAgreeIff` | `sdks/effect/src/internal/Checkpoint.ts:49-67` | on working storage a whole run of the test runtime equals the production run, from any state, if and only if it leaves no `undefined` in a new checkpoint |
| `EffectSteps.RerunsAgreeIff` | `sdks/effect/src/internal/Checkpoint.ts:49-67` | a whole sequence of reruns agrees if and only if no rerun of the test runtime leaves `undefined` in a checkpoint that was not there at first |
| `EffectSteps.UndefinedParts` | `sdks/effect/src/Absurd.ts:259` | with a codec that writes `undefined` and reads nothing else, both runtimes commit a step alike, but its replay succeeds in the test runtime and fails to decode in production |
| `LeaseWatchdog.LeaseTimers.ClearLeaseTimers` | `sdks/typescript/src/index.ts:1244-1253` | no timer stays armed |
| `LeaseWatchdog.LeaseTimers.ScheduleLeaseTimers` | `sdks/typescript/src/index.ts:1254-1277` | replaces both timers by the deadlines of a lease that starts now, or by none when the lease is not positive |
| `LeaseWatchdog.Watchdog` | `sdks/effect/src/Absurd.ts:270-295` | the race loop emits exactly the events of `LoopEvents`, for every trace of extensions |
| `LeaseWatchdog.FatalWatchdogsAgree` | `sdks/effect/src/Absurd.ts:270-295` | in fatal mode loop and timers warn and terminate at the same instants, for every trace of extensions |
| `LeaseWatchdog.LoopWarnsOnce` | `sdks/effect/src/Absurd.ts:287` | without fatal mode the loop emits the first event of the timers and then nothing |
| `LeaseWatchdog.TimersWarnPerOverrun` | `sdks/typescript/src/index.ts:1260-1264` | without fatal mode the timers warn once for every lease that is overrun |
| `LeaseWatchdog.WarnOnlyWatchdogsAgreeIff` | `sdks/effect/src/Absurd.ts:284-287` | without fatal mode the two agree if and only if at most one lease is overrun |
| `LeaseWatchdog.SecondWarningIsMissing` | `sdks/effect/src/Absurd.ts:287` | on a trace with two overrun leases, of any length, the timers warn twice and the loop once |
| `LeaseWatchdog.TerminatesIff` | `sdks/typescript/src/index.ts:1266-1276` | timers and loop alike terminate the process at an instant if and only if that is where the first lease without an extension reaches twice its term |
| `LeaseWatchdog.TimersWarnIff` | `sdks/typescript/src/index.ts:1260-1264` | without fatal mode the timers warn at an instant if and only if some lease runs past its term there |
| `LeaseWatchdog.NoLeaseNoEvents` | `sdks/effect/src/Absurd.ts:276` | a claim timeout of zero or less is watched by neither |
| `Polling.OnBeforeSleep` | `sdks/typescript/src/index.ts:577-583` | the callback keeps the list of heartbeats and the next due time in step with `Beats` |
| `Polling.AwaitTaskResultWithBackoff` | `sdks/typescript/src/index.ts:1522-1557` | the loop has the outcome, polls and sleeps of `Wait`, and sends the heartbeats of `Beats` before its sleeps |
| `Polling.WaitEndsRightly` | `sdks/python/src/absurd_sdk/__init__.py:461-483` | a wait ends for what its last poll saw: missing task, terminal state, or a live task at or past the timeout; every earlier poll saw a live task in time |
| `Polling.TerminalTold` | `sdks/typescript/src/index.ts:1504-1506` | completed, failed and cancelled end a wait; the other three states do not |
| `Polling.SleepsTold` | `sdks/typescript/src/index.ts:1541-1555` | each sleep is the delay, first 50 ms and then twice the last sleep up to one second, or what is left of the timeout if that is less |
| `Polling.FirstSleepTold` | `sdks/typescript/src/index.ts:1530` | the first sleep of a wait without a timeout is 50 ms |
| `Polling.HeartbeatIntervalTold` | `sdks/typescript/src/index.ts:567-570` | the interval is half the claim timeout in whole milliseconds, rounded down, and at least 500 |
| `Polling.BeatTold` | `sdks/typescript/src/index.ts:577-583` | the next heartbeat is sent at the first poll at or after its due time, and the one after is due an interval later |
| `Polling.BoundedPolling` | `sdks/typescript/src/index.ts:1530-1556` | with a timeout of M ms and a clock that keeps up with the sleeps, at most 6 + floor(M / 1000) polls and at most M ms of requested sleep |
| `Polling.HeartbeatSpacing` | `sdks/typescript/src/index.ts:566-584` | in an exactly timed wait its start, the heartbeats the loop sends and its end are each less than max(500, floor(claimTimeout * 500)) + 1000 ms apart |
| `Polling.BeatsApart` | `sdks/typescript/src/index.ts:577-583` | no heartbeat is sent before it is due, and two are at least the interval apart, whatever the clock does |
| `Polling.LongLeasesNeverLapse` | `sdks/typescript/src/index.ts:566-584` | with a claim timeout of two seconds or more no exactly timed wait ever lets the lease lapse |
| `Polling.ShortLeaseLapses` | `sdks/typescript/src/index.ts:567-570` | with a claim timeout of one second an exactly timed wait on a pending task lapses |
| `Polling.LeaseNeverLapsesIff` | `sdks/python/src/absurd_sdk/__init__.py:859-875` | for a claim timeout of one or more whole seconds, no exactly timed wait lets the lease lapse if and only if the timeout is at least 2 |
| `TypeScriptWorker.Worker.constructor` | `sdks/typescript/src/index.ts:1131-1136` | a new worker is in the initial state |
| `TypeScriptWorker.Worker.NotifyAvailability` | `sdks/typescript/src/index.ts:1138-1148` | clears the timer and, if a wait is pending, resolves and drops it |
| `TypeScriptWorker.Worker.WaitForAvailability` | `sdks/typescript/src/index.ts:1150-1163` | arms promise, resolver and timer together unless a promise is pending, and leaves the loop waiting |
| `TypeScriptWorker.Worker.OnTimer` | `sdks/typescript/src/index.ts:1154-1159` | the timer callback is the `TimerFires` event |
| `TypeScriptWorker.Worker.ResumeLoop` | `sdks/typescript/src/index.ts:1174-1193` | the loop from its head to its next await is the `Resume` event, and it claims what the event asks for |
| `TypeScriptWorker.Worker.StartAll` | `sdks/typescript/src/index.ts:1200-1210` | the loop over the claimed messages starts exactly one new execution for each, in order |
| `TypeScriptWorker.Worker.OnClaimed` | `sdks/typescript/src/index.ts:1195-1210` | the loop from a claim's answer on is the `ClaimAnswers` event |
| `TypeScriptWorker.Worker.OnClaimFailed` | `sdks/typescript/src/index.ts:1211-1214` | the catch block is the `ClaimFails` event |
| `TypeScriptWorker.Worker.OnSettled` | `sdks/typescript/src/index.ts:1205-1208` | the end of an execution is the `ExecutionSettles` event, which wakes a waiting loop (`SettlingWakes`) |
| `TypeScriptWorker.Worker.OnDrained` | `sdks/typescript/src/index.ts:1216` | the end of waiting for all executions is the `DrainCompletes` event |
| `TypeScriptWorker.Worker.Stop` | `sdks/typescript/src/index.ts:1166-1167` | closing only stops the loop from claiming again |
| `TypeScriptWorker.NextIsSafe` | `sdks/typescript/src/index.ts:1138-1217` | every event keeps the invariant: capacity with pending claims, one execution per claimed task, promise, resolver and timer set exactly while the loop waits |
| `TypeScriptWorker.ResumeTold` | `sdks/typescript/src/index.ts:1174-1193` | at its head a closed loop drains; a running one claims exactly the smaller of batch size and free capacity if both are positive, and otherwise waits with promise, resolver and timer armed |
| `TypeScriptWorker.ClaimTold` | `sdks/typescript/src/index.ts:1195-1214` | each message of a claim starts one execution, in order, and the loop returns to its head; an empty or failing claim makes it wait |
| `TypeScriptWorker.SettlingWakes` | `sdks/typescript/src/index.ts:1205-1208` | from any safe state, the end of an execution frees its slot and leaves no loop waiting: one that waited can resume at once, with promise, resolver and timer cleared |
| `TypeScriptWorker.SettlingWakesLoop` | `sdks/typescript/src/index.ts:1138-1163` | in every run, a loop that waits when an execution settles can take its turn without the timer |
| `TypeScriptWorker.OtherEventsTold` | `sdks/typescript/src/index.ts:1154-1170` | the timer wakes the loop and disarms the rest; closing and the end of the drain change nothing else |
| `TypeScriptWorker.EveryStateIsSafe` | `sdks/typescript/src/index.ts:1131-1217` | in every reachable state executions stay within the concurrency, claimed tasks are handed out one to one, a waiting loop has its wake-up armed, and an ended loop has settled all it claimed |
| `TypeScriptWorker.ClosedIsNotStuck` | `sdks/typescript/src/index.ts:1165-1170` | a closed worker that has not ended always has a step of its own |
| `TypeScriptWorker.ClosedMakesProgress` | `sdks/typescript/src/index.ts:1174-1216` | every step of a closed worker brings it closer to its end, and it starts no further claim |
| `TypeScriptWorker.ClosedRunsDrain` | `sdks/typescript/src/index.ts:1165-1217` | after closing only boundedly many steps follow, and when none is left the loop has ended with everything claimed settled |
| `EffectWorker.Worker.constructor` | `sdks/effect/src/Absurd.ts:371-373` | a new worker is in the initial state |
| `EffectWorker.Worker.LoopHead` | `sdks/effect/src/Absurd.ts:420-426` | the loop from its head to its next wait is the `Resume` event, and it claims what the event asks for |
| `EffectWorker.Worker.OnClaimed` | `sdks/effect/src/Absurd.ts:426-430` | the loop when its claim answers is the `ClaimAnswers` event; nothing is started yet |
| `EffectWorker.Worker.Fork` | `sdks/effect/src/Absurd.ts:431-433` | one turn of the fork loop is the `ForkNext` event: the next claimed task gets one new fiber |
| `EffectWorker.Worker.OfferAvailability` | `sdks/effect/src/Absurd.ts:416` | the finalizer of an execution is the `TokenOffered` event |
| `EffectWorker.Worker.OnFiberDone` | `sdks/effect/src/Absurd.ts:373` | a fiber that ends leaves the set: the `FiberLeaves` event |
| `EffectWorker.Worker.TakeAvailability` | `sdks/effect/src/Absurd.ts:381-385` | a wait that ends with a token is the `TokenTaken` event |
| `EffectWorker.Worker.StopWaiting` | `sdks/effect/src/Absurd.ts:381-385` | a wait that ends with the poll interval or the stop signal is the `TimerFires` or `StopSeen` event |
| `EffectWorker.Worker.OnDrained` | `sdks/effect/src/Absurd.ts:435` | an empty fiber set after the loop is the `DrainCompletes` event |
| `EffectWorker.Worker.Stop` | `sdks/effect/src/Absurd.ts:438-439` | closing only sets the stop signal |
| `EffectWorker.NextIsSafe` | `sdks/effect/src/Absurd.ts:381-436` | every event keeps: capacity, counting pending claims and tasks not yet forked; started tasks followed by those in hand are the claimed ones; each execution running or settled; leaving fibers among the running ones |
| `EffectWorker.ResumeTold` | `sdks/effect/src/Absurd.ts:420-426` | at its head a stopped loop drains; a running one claims exactly the smaller of batch size and free capacity, and without free capacity waits |
| `EffectWorker.HandingTold` | `sdks/effect/src/Absurd.ts:426-433` | an answered claim is in hand, in order, and forking takes it up task by task, each with one new fiber; an empty one makes the loop wait |
| `EffectWorker.FinishingWakes` | `sdks/effect/src/Absurd.ts:416` | a fiber that finishes while the loop waits gives it a token that sends it back to its head; one that leaves frees its slot |
| `EffectWorker.OtherEventsTold` | `sdks/effect/src/Absurd.ts:381-385` | whatever ends a wait sends the loop back to its head; closing and the end of the drain change nothing else |
| `EffectWorker.AfterExtend` | `sdks/effect/src/Absurd.ts:419-436` | a run takes its events in order |
| `EffectWorker.EveryStateIsSafe` | `sdks/effect/src/Absurd.ts:366-444` | in every reachable state fibers stay within the concurrency, every claimed task was forked once, in order, or is still in hand, and an ended loop has settled all it claimed |
| `EffectWorker.StoppedIsNotStuck` | `sdks/effect/src/Absurd.ts:381-385` | a stopped worker that has not ended has a step of its own, without waiting for its poll timer |
| `EffectWorker.StoppedMakesProgress` | `sdks/effect/src/Absurd.ts:419-436` | every step of a stopped worker brings it closer to its end, and it starts no further claim |
| `EffectWorker.StoppedRunsDrain` | `sdks/effect/src/Absurd.ts:419-443` | after stopping only boundedly many steps follow, and when none is left the loop has ended with everything claimed settled |
| `PythonWorker.Worker.constructor` | `sdks/python/src/absurd_sdk/__init__.py:1667` | a new worker is in the initial state |
| `PythonWorker.Worker.DrainDone` | `sdks/python/src/absurd_sdk/__init__.py:1669-1676` | done futures leave the set in any order until one raises; it fails exactly when one raised, and then the set still holds what it did not reach |
| `PythonWorker.Worker.LoopHead` | `sdks/python/src/absurd_sdk/__init__.py:1690-1699` | the loop from its head to its next wait is the `Resume` event, a raising future included |
| `PythonWorker.Worker.OnProgress` | `sdks/python/src/absurd_sdk/__init__.py:1678-1687` | the end of a wait is the `ProgressOrPoll` event |
| `PythonWorker.Worker.OnClaimed` | `sdks/python/src/absurd_sdk/__init__.py:1699-1701` | the loop when its claim answers is the `ClaimAnswers` event; nothing is submitted yet |
| `PythonWorker.Worker.Submit` | `sdks/python/src/absurd_sdk/__init__.py:1703-1704` | one turn of the submit loop is the `SubmitNext` event: the next claimed task gets one new future |
| `PythonWorker.Worker.OnFinished` | `sdks/python/src/absurd_sdk/__init__.py:1689` | a pool thread that finishes a task is the `TaskFinishes` event |
| `PythonWorker.Worker.OnClaimFailed` | `sdks/python/src/absurd_sdk/__init__.py:1651-1655` | an exception of the claim leaves the loop: the `ClaimFails` event |
| `PythonWorker.Worker.OnDrained` | `sdks/python/src/absurd_sdk/__init__.py:1707-1708` | leaving the pool with all threads finished is the `DrainCompletes` event |
| `PythonWorker.Worker.StopWorker` | `sdks/python/src/absurd_sdk/__init__.py:1710-1712` | stopping only clears the running flag |
| `PythonWorker.NextIsSafe` | `sdks/python/src/absurd_sdk/__init__.py:1667-1708` | every event keeps: capacity over undrained futures, pending claims and tasks not yet submitted; started tasks followed by those in hand are the claimed ones; running tasks among the loop's futures, also while an exception leaves the loop |
| `PythonWorker.DrainTold` | `sdks/python/src/absurd_sdk/__init__.py:1669-1676` | a drain ends the loop if and only if some done future raised; otherwise it drops exactly the done ones |
| `PythonWorker.ResumeTold` | `sdks/python/src/absurd_sdk/__init__.py:1690-1699` | the loop drains first; then a stopped one goes on draining, and a running one claims exactly the smaller of batch size and free capacity, and without free capacity waits |
| `PythonWorker.HandingTold` | `sdks/python/src/absurd_sdk/__init__.py:1699-1704` | an answered claim is in hand, in order, and submitting takes it up task by task, each with one new future; an empty one makes the loop wait and a failing one ends it |
| `PythonWorker.FinishingTold` | `sdks/python/src/absurd_sdk/__init__.py:1689` | a finished task is done, and raised exactly if it says so; the loop sees it at its next drain |
| `PythonWorker.OtherEventsTold` | `sdks/python/src/absurd_sdk/__init__.py:1678-1687` | the end of a wait sends the loop back to its head unless a future raised; stopping and the end of the drain change nothing else |
| `PythonWorker.AfterExtend` | `sdks/python/src/absurd_sdk/__init__.py:1689-1708` | a run takes its events in order |
| `PythonWorker.EveryStateIsSafe` | `sdks/python/src/absurd_sdk/__init__.py:1667-1708` | in every reachable state running tasks stay within the concurrency, every claimed task was submitted once, in order, or is still in hand, and the worker ends, normally or with an exception, only when all it claimed has finished |
| `PythonWorker.LeavingIsNotStuck` | `sdks/python/src/absurd_sdk/__init__.py:1706-1708` | a stopped worker, or one that an exception is leaving, always has a step of its own until it has ended |
| `PythonWorker.LeavingMakesProgress` | `sdks/python/src/absurd_sdk/__init__.py:1690-1708` | every step of such a worker brings it closer to its end, and it starts no further claim |
| `PythonWorker.LeavingRunsDrain` | `sdks/python/src/absurd_sdk/__init__.py:1689-1708` | after a stop or an exception only boundedly many steps follow, and when none is left the worker has ended with everything claimed finished |
| `PythonWorker.ExecuteBatch` | `sdks/python/src/absurd_sdk/__init__.py:1660-1665` | with a concurrency of one, tasks run in order up to and including the first that raises |
| `PythonWorker.BatchExecutedInFullIff` | `sdks/python/src/absurd_sdk/__init__.py:1663-1664` | a claimed batch is executed in full if and only if no task but the last raises |
| `PythonWorker.RunInTurnTold` | `sdks/python/src/absurd_sdk/__init__.py:1663-1664` | the tasks that run are those up to the first that raises, or all |
| `TestTaskStore.Store.constructor` | `sdks/effect/src/TestTaskStore.ts:71-73` | a new store is empty and starts at id 1 |
| `TestTaskStore.Store.Spawn` | `sdks/effect/src/TestTaskStore.ts:102-125` | tables and returned id are those of `AfterSpawn`, with the handler run in between |
| `TestTaskStore.Store.Run` | `sdks/effect/src/TestTaskStore.ts:77-99` | tables are those of `AfterRun`: the handler's own calls happen between the two status changes, which are lost if it clears the store |
| `TestTaskStore.Store.Rerun` | `sdks/effect/src/TestTaskStore.ts:131-142` | a known id runs again with its first request; an unknown one is reported and changes nothing |
| `TestTaskStore.Store.Clear` | `sdks/effect/src/TestTaskStore.ts:143-146` | both tables are emptied, the id counter is kept |
| `TestTaskStore.CallsKeep` | `sdks/effect/src/TestTaskStore.ts:68-147` | over any nested sequence of calls the key index and the entry table point at each other, no id comes back once gone, and without a clear entries and keys stay |
| `TestTaskStore.OneEntryPerKey` | `sdks/effect/src/TestTaskStore.ts:103-109` | after any history at most one live entry has a given queue, name and key |
| `TestTaskStore.SpawnIsIdempotent` | `sdks/effect/src/TestTaskStore.ts:102-125` | until a clear, whatever happens in between, a spawn with an equal key returns the same id and changes nothing |
| `TestTaskStore.NewIdsAreNew` | `sdks/effect/src/TestTaskStore.ts:110` | a spawn that enters a task uses an id that was never handed out before, clears included |
| `TestTaskStore.CallsSettle` | `sdks/effect/src/TestTaskStore.ts:77-99` | however handlers nest spawns, reruns and clears, only tasks whose handlers are under way are running, and exactly those without a handler are pending |
| `TestTaskStore.StatusesSettle` | `sdks/effect/src/TestTaskStore.ts:77-99` | after any history each task with a handler has completed or failed, and a rerun leaves the exit of that very run, whatever reruns happened inside it; which status an exit leaves is told by `RunTold` |
| `TestTaskStore.RunTold` | `sdks/effect/src/TestTaskStore.ts:77-99` | a run of a task with a handler leaves `Completed(v)` if and only if the handler returned v and `Failed(m)` if and only if it failed with m, whenever the entry is still there; without a handler nothing changes |
| `TestTaskStore.SpawnTold` | `sdks/effect/src/TestTaskStore.ts:102-125` | after any history, a spawn without a known key enters its own request under the next id and leaves the exit of that first run, or the task pending if it has no handler; without a clear the entry is there |
| `TestTaskStore.RerunTold` | `sdks/effect/src/TestTaskStore.ts:131-142` | after any history, a rerun of a known task leaves the exit of that very run, told value by value |
| `TestTaskStore.UnknownAndClear` | `sdks/effect/src/TestTaskStore.ts:131-146` | a rerun of an unknown task changes nothing; a clear empties both tables and keeps the counter |
| `TestTaskStore.CallsInOrder` | `sdks/effect/src/TestTaskStore.ts:77-99` | the calls of a handler happen in order, each on what the ones before left |
| `TestTaskStore.KeysCollideIff` | `sdks/effect/src/TestTaskStore.ts:105-107` | two queues and names have a key string in common if and only if `queue:name:` of one starts that of the other |
| `TestTaskStore.KeysToldApartIff` | `sdks/effect/src/TestTaskStore.ts:105-107` | equal key strings mean equal queues, names and keys if and only if that happens only for equal queues and names |
| `TestTaskStore.ColonFreeToldApart` | `sdks/effect/src/TestTaskStore.ts:105-107` | queues and names without a colon meet that condition |
| `TestTaskStore.KeysToldApart` | `sdks/effect/src/TestTaskStore.ts:105-107` | queues and names without a colon are told apart, whatever the keys contain |
| `TestTaskStore.SpawnReturnsOwnTask` | `sdks/effect/src/TestTaskStore.ts:103-109` | under that condition against every request made before, a deduplicated spawn returns a live task of its own queue, name and key |
| `TestTaskStore.SpawnsConfused` | `sdks/effect/src/TestTaskStore.ts:103-109` | any two queues and names that break the condition have keys with which the second spawn is answered with the id of the first task |
| `TestTaskStore.ColonsConfuseKeys` | `sdks/effect/src/TestTaskStore.ts:105-107` | with colons a spawn can be answered with the id of a different task |
| `Pagination.SortedKeeps` | `habitat/internal/server/handlers.go:433-435` | sorting permutes the runs |
| `Pagination.SortedDescends` | `habitat/internal/server/handlers.go:433-435` | sorting runs with distinct ids puts them in strictly descending order |
| `Pagination.FetchQueueTaskCandidates` | `habitat/internal/server/handlers.go:739-783` | the window holds the queue's first `limit` runs and is truncated exactly when there are more; no limit means all |
| `Pagination.MergeCandidates` | `habitat/internal/server/handlers.go:393-421` | concatenates the windows of the queues that answer, and reports whether any was truncated |
| `Pagination.SearchRuns` | `habitat/internal/server/handlers.go:423-431` | keeps the matching runs, each as often as it was there, as a subsequence of the input |
| `Pagination.SearchKeeps` | `habitat/internal/server/handlers.go:423-431` | each run is in the result as often as in the input if its text matches, and not at all otherwise, and the result is a subsequence of the input |
| `Pagination.AllRunsTold` | `habitat/internal/server/handlers.go:393-421` | the runs are those of all queues that answer, queue after queue |
| `Pagination.CutPage` | `habitat/internal/server/handlers.go:437-453` | the page is the clipped slice; the total is exact or -1; `HasMore` follows |
| `Pagination.HandleTasks` | `habitat/internal/server/handlers.go:380-468` | the response is the page of a full sort of all matching runs: items, `HasMore` exactly when a later run exists, `Total` exact or -1, and -1 exactly when an unsearched queue holds more than one run past the page; said both by sorting and slicing and by the rank of each run |
| `Pagination.ItemsTold` | `habitat/internal/server/handlers.go:442-448` | a run is on a page if and only if at least as many runs are newer as the pages before hold, and fewer than those and this page; the page is in descending order |
| `Pagination.ResponseTold` | `habitat/internal/server/handlers.go:423-461` | told of the response without sorting or slicing: its items are the matching runs with such a rank, more follow if and only if there are more, and the total is exact or withheld under its exact condition |
| `Pagination.DropTail` | `habitat/internal/server/handlers.go:778-781` | cutting one queue down to its newest `limit` runs does not change the newest `limit` of the merged list |
| `Pagination.WindowsKeepTop` | `habitat/internal/server/handlers.go:393-421` | cutting all queues down does not change the newest k of the merged list, for k up to the limit |
| `Pagination.WindowSuffices` | `habitat/internal/server/handlers.go:386-391` | either no queue was truncated and the windows hold everything, or they hold more than k runs and the right newest k |
| `Pagination.CutIsPage` | `habitat/internal/server/handlers.go:437-461` | slicing the sorted windows gives the page that slicing the full sort gives |
| `TaskRuns.FetchRunsForTask` | `habitat/ui/src/views/TaskRuns.tsx:53-88` | over unchanging data the walk returns every run once, newest first, in max(1, ceil(n / 200)) requests when n is at most 200,000, fails with the page limit when n is more, and never reports a stall |
| `TaskRuns.FetchTasks` | `habitat/ui/src/views/TaskRuns.tsx:72-79` | one request answers its slice of the sorted runs, and whether more follow |
| `EventLog.SortByTime` | `habitat/internal/server/handlers.go:1374-1384` | some permutation in non-increasing time order, ties free |
| `EventLog.HandleEvents` | `habitat/internal/server/handlers.go:1366-1388` | min(limit, total) events in non-increasing time order, taken from all queues that answer, and nothing left out is newer than anything returned |
| `EventLog.AllEventsTold` | `habitat/internal/server/handlers.go:1366-1372` | the events are those of all queues that answer, queue after queue |
| `EventLog.SelectionsCover` | `habitat/internal/server/handlers.go:1296-1306` | what the queues' queries leave out is outranked by at least `limit` of the events they select |
| `EventLog.NewestOfNewest` | `habitat/internal/server/handlers.go:1374-1388` | the newest of the queues' newest events are the newest of all, however ties were broken |
| `JsonValues.QuoteParses` | `habitat/ui/src/components/JSONViewer.tsx:215` | an escaped string literal reads back as the string, whatever follows it |
| `JsonValues.EscapeTold` | `habitat/ui/src/components/JSONViewer.tsx:215` | the two quoting characters and five control characters have the short escapes of section 25.5.2 of ECMA-262, other control characters four hexadecimal digits, all others stand for themselves |
| `JsonValues.ParseInvertsSerialize` | `habitat/ui/src/components/JSONViewer.tsx:192-290` | parsing the two-space serialization of a value gives the value back |
| `JsonValues.ArrayTold` | `habitat/ui/src/components/JSONViewer.tsx:222-247` | an array of one item stands on three lines, the item two spaces further in |
| `JsonValues.ObjectTold` | `habitat/ui/src/components/JSONViewer.tsx:249-284` | an object of one entry stands on three lines, its quoted key before a colon and a space |
| `JsonValues.JoinTold` | `habitat/ui/src/components/JSONViewer.tsx:233-242` | cut anywhere, the parts of a list stand on both sides of a separator |
| `JsonViewer.TokenizeJson` | `habitat/ui/src/components/JSONViewer.tsx:192-290` | pushes the tokens of `Tokens`, for all folded paths and toggled strings |
| `JsonViewer.TokenizeItems` | `habitat/ui/src/components/JSONViewer.tsx:233-242` | the loop over array items pushes their rows in order |
| `JsonViewer.TokenizeEntries` | `habitat/ui/src/components/JSONViewer.tsx:265-279` | the loop over object entries pushes their rows in order |
| `JsonViewer.TokensPrint` | `habitat/ui/src/components/JSONViewer.tsx:192-290` | with nothing folded or toggled the concatenated tokens are the two-space serialization of section 25.5.2 of ECMA-262, at any depth |
| `JsonViewer.ViewRoundTrips` | `habitat/ui/src/components/JSONViewer.tsx:192-290` | the text of the unfolded view parses back to the value |
| `JsonViewer.FoldableStartsAreCollected` | `habitat/ui/src/components/JSONViewer.tsx:292-317` | the collected paths are exactly the paths of the foldable tokens of the unfolded view, in order |
| `JsonViewer.ViewNests` | `habitat/ui/src/components/JSONViewer.tsx:192-290` | whatever is folded or toggled, foldable starts and ends match like brackets, arrays with arrays and objects with objects |
| `JsonViewer.TokensTyped` | `habitat/ui/src/components/JSONViewer.tsx:192-290` | in any view each token shows what its kind says, carries a path exactly if it is a key, a literal or a foldable start, and the keys are exactly the tokens before a colon |
| `JsonViewer.LeafTold` | `habitat/ui/src/components/JSONViewer.tsx:202-217` | a literal is one token of its kind at its path; a toggled string is shown raw between quotes |
| `JsonViewer.FoldedTold` | `habitat/ui/src/components/JSONViewer.tsx:220-246` | a folded list is its brackets around an ellipsis, whatever it holds |
| `JsonViewer.KeyTold` | `habitat/ui/src/components/JSONViewer.tsx:265-273` | the key of an entry carries the path of its value |
| `JsonViewer.PathsTold` | `habitat/ui/src/components/JSONViewer.tsx:237` | items are addressed by `[index]` and entries by `.key`; a level of indentation is two spaces |
| `AliasRules.CollectAliases` | `tools/oxlint/anti-slop/rules/no-object-parameters.ts:101-113` | the table maps a name to its last recorded declaration, and to nothing if it has none |
| `AliasRules.ResolvesIsSound` | `tools/oxlint/anti-slop/rules/no-object-parameters.ts:52-81` | whatever the search accepts, from any visited set, is reachable |
| `AliasRules.CutRepeats` | `tools/oxlint/anti-slop/rules/no-object-parameters.ts:78-80` | a path out of an alias can be cut to one that never expands that alias again |
| `AliasRules.ResolvesIsComplete` | `tools/oxlint/anti-slop/rules/no-unknown-returns.ts:42-76` | a path that avoids the visited aliases is found, so cutting at them loses nothing |
| `AliasRules.ResolvesIsReachability` | `tools/oxlint/anti-slop/rules/no-unknown-returns.ts:42-76` | both rules accept a type if and only if their keyword is reachable through parentheses, unions, promises (one rule) and unshadowed unapplied aliases, on cyclic graphs too |
| `AliasRules.ShapesTold` | `tools/oxlint/anti-slop/rules/no-unknown-returns.ts:42-63` | each rule accepts its own keyword and not the other, looks into parentheses and unions, and into the first argument of a promise if it is the return rule |
| `AliasRules.ReferenceTold` | `tools/oxlint/anti-slop/rules/no-object-parameters.ts:65-80` | any other named type is followed exactly if it has no arguments and its alias is recorded, not generic, not shadowed and not visited |
| `DictionaryTypes.CreateTypeEnvironment` | `tools/oxlint/anti-slop/shared/dictionary-types.ts:51-96` | first declaration per alias, all declarations per interface in order, and a built-in shadowed exactly when some statement binds its name |
| `DictionaryTypes.FirstAliasIff` | `tools/oxlint/anti-slop/shared/dictionary-types.ts:51-96` | an alias means the body of the first statement that declares it |
| `DictionaryTypes.InterfacesTold` | `tools/oxlint/anti-slop/shared/dictionary-types.ts:51-96` | the declarations of an interface are collected in program order |
| `DictionaryTypes.BindsIff` | `tools/oxlint/anti-slop/shared/dictionary-types.ts:51-96` | exactly imports and declarations of a name bind it; the built-in names are these eight |
| `DictionaryTypes.UnwrapTransparentType` | `tools/oxlint/anti-slop/shared/dictionary-types.ts:117-126` | strips all parentheses and `readonly` operators |
| `DictionaryTypes.VerdictIsSound` | `tools/oxlint/anti-slop/shared/dictionary-types.ts:190-244` | any verdict, whatever is being resolved, follows from every assignment closed under the alias bodies |
| `DictionaryTypes.VerdictIsComplete` | `tools/oxlint/anti-slop/shared/dictionary-types.ts:237-243` | a verdict established in some round of evaluation is found as long as no alias it needs is being resolved |
| `DictionaryTypes.VerdictsAreLeastSolution` | `tools/oxlint/anti-slop/shared/dictionary-types.ts:190-244` | the verdicts on the aliases solve the alias equations, are contained in every other solution, and give every type its meaning, kind included: cutting at aliases in progress never loses an answer |
| `DictionaryTypes.PlainVerdicts` | `tools/oxlint/anti-slop/shared/dictionary-types.ts:197-201` | the three unsafe keywords have their verdicts, and an object literal is empty exactly if all its members are optional properties of type `never` |
| `DictionaryTypes.ListVerdicts` | `tools/oxlint/anti-slop/shared/dictionary-types.ts:202-217` | a union is unsafe if some member is; an intersection is `any` if and only if some member is, and otherwise has a verdict if and only if it has members and each has one, which is then that of the first |
| `DictionaryTypes.ReferenceVerdict` | `tools/oxlint/anti-slop/shared/dictionary-types.ts:218-243` | a named type is its first argument under one of the four unshadowed wrappers, else empty or safe as its interface, else what its alias is unless that is being resolved |

## Left out

- Transparency.ReplayIsTransparent: stated for attempts that caught no failure, because a caught failure is not recorded in any checkpoint and a replay need not fail again, and for replays whose lookups succeed and whose clock has passed what the sleeps find.
- Transparency.AttemptExplained: which answers a table holds is told exactly for attempts on the table itself and so for cached attempts that spoil no entry; for the others `CommittedStepIsFinalThroughCache` says what was committed before them.
- StateSources.StatesHaveSources: stated for attempts on the table itself, and so for cached attempts that spoil no entry.
- CachedSleeps.SleepsArePassedOnTimeThroughCache: speaks of sleeps whose checkpoint ends up with a wake time; a sleep that keeps a step's value has no wake time to be passed before.
- SleepTimes.ApartSleepsArePassedOnTime: requires that no checkpoint is used by both a step and a sleep; the general statement is `SleepsPassedEarlyThroughCacheIff`.
- Polling.HeartbeatSpacing: stated for waits whose queries take no time and whose sleeps are exact; with slower ones the gaps grow by what they take.
- Polling.AwaitTaskResultWithBackoff: one clock reading serves the timeout and the heartbeat of a poll; the time a heartbeat itself takes is not modelled.
- Pagination.HandleTasks: page numbers whose window overflows a machine integer are a precondition, and run ids are assumed distinct.
- EventLog.HandleEvents: emission times are assumed present, and each queue's query is assumed to answer its newest events.
- EffectSteps.TestRuntimeAgrees: working storage is assumed, because the test runtime has no storage failures.
- The SQL stored procedures: the store is abstract, a write lands or does not, and a claim returns at most what was asked for.
- Other writers to a task's checkpoints while an attempt runs; the database refuses stale runs.
- `awaitEvent` and `awaitTaskResult` as steps of a body: the first is decided in the database, the second is a step around the wait in `Polling`.
- A body that catches the suspension signal of a sleep and goes on, and an invalid date passed as a wake time.
- Step values of the TypeScript and Python SDKs are JSON values that survive storage; codecs are modelled in `EffectSteps` only.
- Payloads and step checkpoints of the test store's entries; its steps are those of `EffectSteps`.
- What a handler of the test store does is a finite script given in advance, not a program that looks at the ids it gets back; handlers run nested in one another, and handlers that run concurrently are not modelled.
- LeaseWatchdog.FatalWatchdogsAgree: where an extension falls exactly on a deadline, or a timer and the end of the task coincide, the race is not determined; the model lets the extension or the end win on both sides.
- Heartbeats with a duration of their own, which give one lease another length than the claim timeout.
- LeaseWatchdog.TerminatesIff: timers take any delay; a JavaScript timer fires at once for delays above 2^31 - 1 ms, that is, the fatal one for claim timeouts above about 1,073,741 seconds.
- Process exit, logging, `onError` handlers that throw, and option normalisation.
- The asynchronous Python worker and context.
- `dictionaryValueTypes`, the `classify*` functions and aliases with type parameters, whose substitution is not capture-avoiding.
- Computing the lexically shadowed names for the alias rules, which is a parameter here, and all reporting code.
- HTTP parameter parsing, the abort on a cancelled request, and the single-queue event list of habitat.
- Lone surrogates in JSON strings, number formatting, uniqueness of foldable paths (a key may contain `.` or `[`), and values that are not JSON.
