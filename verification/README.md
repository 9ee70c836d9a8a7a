# Verified models of the gctrl control plane

gctrl runs coding agents under a small kernel: a desktop app supervises the kernel process, workers claim and dispatch tasks, a browser pool hands out sessions, an LLM relay records what agents say, a crawler and a context store feed them, and a board plans their work.  This project models the parts of that system whose correctness depends on interleavings, on whole runs, or on two pieces of code agreeing with each other, and proves properties of them in Dafny.

`dafny verify dfyconfig.toml` checks everything.

## How the models are built

- **State machines.**  Where the code is concurrent, each piece of code that runs without interruption (a JavaScript callback, a section under one lock, one store call, one database call) is one step.  An event that cannot occur in a state leaves it unchanged, so every finite list of events is a run and a theorem about all lists is a theorem about every interleaving.
- **Classes.**  Where the code updates an object in place, a class has the same fields and methods, and each method's contract equates its new state and result with a specification function.  The lemmas are about those functions and their runs.
- **Exact conditions.**  Where a promise does not hold of the code as written, a lemma gives a witness and another says exactly when the promise is kept.

| file | part of the system |
|---|---|
| `Sidecar.dfy` | the desktop app's kernel lifecycle: probes, restarts with backoff, exits |
| `Pool.dfy`, `PoolRuns.dfy`, `PoolLimits.dfy`, `PoolSequential.dfy`, `PoolSweep.dfy`, `BrowserPool.dfy` | the browser pool: its data and recycle policy, its steps at lock granularity, when its limits can be relied on, its whole calls, what a sweep leaves, its in-place object |
| `Claims.dfy` | workers competing for tasks by compare-and-set |
| `RateLimit.dfy` | the per-key token bucket with idle eviction |
| `Sse.dfy`, `Capture.dfy`, `Relay.dfy`, `Otlp.dfy` | the LLM relay: event-stream parsing, conversation turns, the streaming tee, the trace payload and its reader |
| `EventBus.dfy` | the session event bus: replay ring, resuming clients, overlapping publishers |
| `Crawl.dfy` | the site crawler and its manifest |
| `ContextStore.dfy` | the context store: table, files and front matter |
| `Manifest.dfy` | flattening of an app manifest's capability tables |
| `Board.dfy` | scheduling of board issues |
| `Common.dfy` | `Option` and `Result` |

## What the proofs found

- **Browser pool.**  With n concurrent callers `pool_max` can be exceeded by n - 1, and is kept exactly when n is at most one or nothing can be launched.  The host limit can be exceeded by one as soon as there are two callers (a freshly launched process is bound without asking its limit), or with one caller when it is zero.  The `expect` after a launch fails exactly when a sweep killed the new process before it was bound, which every configuration that launches allows; in the same way a session can be left on a removed process.
- **Rate limiter.**  The limit and the invisibility of eviction hold exactly when `rate * idle_evict >= burst`; otherwise draining twice around an eviction beats the limit.  Under the same condition the calls alone say which of them are granted.
- **Claims.**  Two writes are not what the transition table in `kernel/specs-lean4/KernelSpec/Orchestrator.lean` gives for their triggers, although `sqlite_store.rs:1037` says that only transitions verified there are passed in: the dry-run return from `Claimed` to `Unclaimed`, which has no trigger at all, and the release of a running task after a clean exit, where the table queues a retry and leaves the release to reconciliation.  A dispatch that ends in an error strands its row, and nothing else does.
- **Event stream.**  The handler subscribes before it replays, and a publish pushes onto the ring before it broadcasts, so events in between are sent twice.  Replay is exact in every run in which no push overtakes a smaller drawn id, and only in those; an overtaking push yields a false gap or a skipped event.
- **Trace payload.**  A negative token count turns into a number near 2^64.
- **Context store.**  A metadata value that contains a newline and three dashes breaks the round trip through the file.  An update keeps the row's creation time, but the returned entry and the file show the new time.
- **Manifest.**  The comment on the flattening calls inline tables part of a leaf; the code treats every table as a subtable, and the model follows the code.  Leading empty quoted keys vanish from the dotted key: a leaf under nothing but empty keys is skipped, and two capabilities can come to share or nest their keys.  A quoted key with a dot can silently replace a nested capability.
- **Board.**  Requests read and write in separate calls, so two accepted requests for different fields of one issue can lose one of the dates.  Stored dates stay in order all the same.
- **Crawler.**  The documentation speaks of a breadth-first crawl; the worklist is popped from the end, and the model does the same.  A page within depth can therefore be missed; nothing is missed when every saved page was found at its shortest distance.

## Model

| member | source | states |
|---|---|---|
| `Sidecar.AtMostOneKernel` | apps/gctrl-desktop/src/main/kernel-sidecar.ts:154-279 | for every event sequence from the initial state: at most one spawned kernel has an undelivered exit, one exists exactly in `running` and `stopping`, and in `stopping` it has been sent the kill |
| `Sidecar.NothingSpawnsAfterStop` | apps/gctrl-desktop/src/main/kernel-sidecar.ts:168-200 | after a `stop()` in any reachable state, no later event sequence spawns a kernel before an effective `start()`, stale probes and cancelled timers included |
| `Sidecar.PhaseChangesFollowEdges` | apps/gctrl-desktop/src/main/kernel-sidecar.ts:154-279 | every phase change of every run is one of the listed edges: only the newest probe decides, and only the current kernel's exit counts |
| `Sidecar.EdgesAreTaken` | apps/gctrl-desktop/src/main/kernel-sidecar.ts:154-279 | in every run each listed edge is taken: a start from `idle` or `stopped` probes, a stop leads to `stopping` or `stopped`, the newest verdict to `external` or `running`, a crash to `restartQueued`, the timer back to `probing` |
| `Sidecar.EveryChangeActs` | apps/gctrl-desktop/src/main/kernel-sidecar.ts:154-279 | what each phase change of every run does: an effective start forgets earlier crashes and issues the next epoch's probe, a verdict spawns one kernel, a stop kills the current one, a crash arms one timer with the next delay; a step without a phase change has no effect |
| `Sidecar.StopCancels` | apps/gctrl-desktop/src/main/kernel-sidecar.ts:168-174 | a stop cancels the queued restart, and no other step cancels anything |
| `Sidecar.CrashSeriesHappens` | apps/gctrl-desktop/src/main/kernel-sidecar.ts:202-279 | for every n a run has the kernel running again after n crashes, each after its own delay |
| `Sidecar.BackoffSchedule` | apps/gctrl-desktop/src/main/kernel-sidecar.ts:261-279 | the n-th restart delay armed since the last effective start is entry min(n, 4) of the table |
| `Sidecar.NoTransientPhaseIsStuck` | apps/gctrl-desktop/src/main/kernel-sidecar.ts:202-279 | when cancelled timers stay silent: `probing` has its own probe in flight, `restartQueued` has exactly one armed timer, and no other phase has one |
| `Sidecar.DuplicateExitIsNoOpIff` | apps/gctrl-desktop/src/main/kernel-sidecar.ts:39-48 | in every reachable state a second delivery of an exit changes nothing exactly in `stopped` and `idle` |
| `Sidecar.DuplicateExitCorrupts` | apps/gctrl-desktop/src/main/kernel-sidecar.ts:39-48 | what it does in each other phase of any run: a live kernel is forgotten and a second one follows, a probe loses its say, an external daemon is no longer deferred to, and, where cancelled timers stay silent, a second restart timer escapes `stop()` |
| `Sidecar.Runtime.FireExit` | apps/gctrl-desktop/src/main/spawner.ts:91-102 | of all raw `exit` and `error` events of one child exactly the first is delivered |
| `Sidecar.KernelSidecar.StartSidecar` | apps/gctrl-desktop/src/main/kernel-sidecar.ts:154-166 | the new fields and effects are those of the machine's start step |
| `Sidecar.KernelSidecar.StopSidecar` | apps/gctrl-desktop/src/main/kernel-sidecar.ts:168-200 | the new fields and effects are those of the machine's stop step |
| `Sidecar.KernelSidecar.OnVerdict` | apps/gctrl-desktop/src/main/kernel-sidecar.ts:202-238 | the continuation after the probe's await is the machine's verdict step, stale epochs and stopped phases ignored |
| `Sidecar.KernelSidecar.OnChildEvent` | apps/gctrl-desktop/src/main/kernel-sidecar.ts:240-279 | a raw child event behind the guard is the machine's exit step, or nothing when already delivered |
| `Sidecar.KernelSidecar.OnTimer` | apps/gctrl-desktop/src/main/kernel-sidecar.ts:269-278 | a timer callback is the machine's timer step and re-probes only in `restartQueued` |
| `Pool.FindWarmest` | kernel/crates/gctrl-browser/src/pool.rs:358-368 | no result exactly when no process is usable; otherwise a usable one with the most sessions, the last among equals |
| `Pool.PlansSound` | kernel/crates/gctrl-browser/src/recycle.rs:63-110 | a plan is produced exactly for a process in the documented condition: kill for empty and draining, aged or idle; drain for aged, active and in use |
| `Pool.ExpireExact` | kernel/crates/gctrl-browser/src/pool.rs:269-296 | expiry keeps exactly the session records that have not expired, keeps the lists in step with the records and changes no process's id, mode or age |
| `Pool.DropKeepsCoherent` | kernel/crates/gctrl-browser/src/pool.rs:188-204 | removing a session keeps every process's session list equal to the records that name it |
| `Pool.ApplyExact` | kernel/crates/gctrl-browser/src/pool.rs:319-346 | a drain leaves exactly the named process draining and changes no other; a kill removes exactly the named one |
| `Pool.ExpiryTouches` | kernel/crates/gctrl-browser/src/pool.rs:274-295 | a process is touched by expiry exactly when one of its sessions expired |
| `PoolSweep.SweepExact` | kernel/crates/gctrl-browser/src/pool.rs:269-346 | what a sweep does with every process: removed exactly when empty and draining, too old or idle too long, draining exactly when in use and too old, otherwise in the same mode; its sessions are the unexpired ones |
| `PoolSweep.ActiveIsFresh` | kernel/crates/gctrl-browser/src/recycle.rs:63-110 | after a sweep every active process is younger than the maximum age, and an empty one was used within the idle time |
| `PoolSweep.DrainHappens` | kernel/crates/gctrl-browser/src/pool.rs:318-324 | a run of real calls whose sweep leaves a process draining, after which it takes no further session |
| `BrowserPool.Decide` | kernel/crates/gctrl-browser/src/recycle.rs:63-110 | the loop over snapshots yields exactly the plans of the specification, in pool order |
| `BrowserPool.BrowserPool.Acquire` | kernel/crates/gctrl-browser/src/pool.rs:101-186 | the in-place acquire, all error cases included, has the result and the new state of the specification |
| `BrowserPool.BrowserPool.Release` | kernel/crates/gctrl-browser/src/pool.rs:188-204 | removes exactly the named session everywhere, or reports it missing and changes nothing |
| `BrowserPool.BrowserPool.Attach` | kernel/crates/gctrl-browser/src/pool.rs:230-256 | attaching succeeds exactly for an unexpired session with the right token whose process is present; the missing-process error needs an orphaned record |
| `BrowserPool.BrowserPool.Sweep` | kernel/crates/gctrl-browser/src/pool.rs:269-346 | the new state is that of the specification, and the report counts the expired sessions and the processes that left |
| `PoolRuns.SessionListsMatchRecords` | kernel/crates/gctrl-browser/src/pool.rs:101-346 | in every state reached by steps interleaved at lock granularity each process lists exactly its session records, in order and without repeats |
| `PoolRuns.CapacityUnderConcurrency` | kernel/crates/gctrl-browser/src/pool.rs:120-186 | with n callers, processes plus launches in flight never exceed `pool_max + n - 1` and no process hosts more than its limit plus one |
| `PoolLimits.OvershootIsReached` | kernel/crates/gctrl-browser/src/pool.rs:120-144 | the bound on processes is attained for every limit and every number of callers: the pool reaches exactly `pool_max + n - 1` processes |
| `PoolLimits.PoolMaxIff` | kernel/crates/gctrl-browser/src/pool.rs:120-144 | with n callers `pool_max` is kept in all runs exactly when n is at most one or `pool_max` is zero |
| `PoolLimits.HostOvershootIsReached` | kernel/crates/gctrl-browser/src/pool.rs:120-186 | with two callers, or with one and a zero limit, a process comes to host exactly one session over its limit |
| `PoolLimits.HostLimitIff` | kernel/crates/gctrl-browser/src/pool.rs:120-186 | with n callers the host limit is kept in all runs exactly when there is no caller, nothing can be launched, or there is one caller and the limit is at least one |
| `PoolRuns.NoOrphansWithoutOverlap` | kernel/crates/gctrl-browser/src/pool.rs:269-346 | if no acquire falls between a sweep's snapshot and its last plan, no session record points at a removed process |
| `PoolRuns.KillOrphansIff` | kernel/crates/gctrl-browser/src/pool.rs:318-346 | a kill orphans records exactly when its target has sessions at that moment |
| `PoolRuns.OrphanFreeIff` | kernel/crates/gctrl-browser/src/pool.rs:318-346 | over any run some state has a record that names a removed process exactly when some step kills a process in use |
| `PoolLimits.NeverOrphansIff` | kernel/crates/gctrl-browser/src/pool.rs:269-346 | records never name a removed process, in all runs or in all runs whose clock never goes back, exactly when nothing can be launched; otherwise a session bound between a snapshot and its kill is orphaned |
| `PoolLimits.NeverAbortsIff` | kernel/crates/gctrl-browser/src/pool.rs:143-161 | the lookup after the push is safe, in all runs or in all runs whose clock never goes back, exactly when nothing can be launched; otherwise a caller held up long enough loses its process to a sweep and panics |
| `PoolRuns.AbortsIff` | kernel/crates/gctrl-browser/src/pool.rs:143-161 | a run panics exactly when it binds for a caller whose pushed process a sweep had killed before |
| `PoolRuns.LeavesIffKilled` | kernel/crates/gctrl-browser/src/pool.rs:318-346 | in every step a present process leaves the pool exactly by a kill of that process |
| `PoolRuns.BindAbortsIffKilled` | kernel/crates/gctrl-browser/src/pool.rs:143-186 | a caller held up between push and bind fails its lookup exactly when a step in between killed its process; otherwise it adds exactly its session |
| `PoolSequential.CallIsARun` | kernel/crates/gctrl-browser/src/pool.rs:101-346 | every uninterrupted call is a run of the interleaved machine from rest to rest |
| `PoolSequential.SequentialLimits` | kernel/crates/gctrl-browser/src/pool.rs:120-186 | sequential calls keep `pool_max`, keep the host limit when it is at least one, and never strand a record |
| `PoolSequential.AcquireOutcome` | kernel/crates/gctrl-browser/src/pool.rs:101-186 | the exact condition of each acquire error; a failed acquire changes nothing, a good one adds exactly its session with its TTL, on a fullest usable process when there is one |
| `PoolSequential.AcquireBinds` | kernel/crates/gctrl-browser/src/pool.rs:143-186 | after a good acquire the session record holds the call's process, token, time and expiry, and its process lists it last with its use time set |
| `PoolSequential.ReleaseUndoesAcquire` | kernel/crates/gctrl-browser/src/pool.rs:120-204 | releasing a session just acquired gives back the pool, except the time its process was last used and a process launched for it |
| `PoolSequential.LateSweepRemoves` | kernel/crates/gctrl-browser/src/pool.rs:303-346 | a sweep at or past the deadline removes a draining process |
| `PoolSequential.DrainedIsRetired` | kernel/crates/gctrl-browser/src/pool.rs:109-113 | in every sequential run with a monotone clock a process drained at t gets no new session, is never active again, and is gone after any sweep at t plus 3600 s or later |
| `Claims.NoDoubleDispatch` | kernel/crates/gctrl-orch/src/worker.rs:68-176 | for any interleaving of any workers: at most one worker holds a task, no task's agent is spawned twice, and no strict transition fails |
| `Claims.ClaimTraceIsLegal` | kernel/crates/gctrl-orch/src/worker.rs:68-164 | every claim write is one of the emitted edges and leaves from the row's value at that moment; the rows are what the trace replays to |
| `Claims.AsDocumentedIff` | kernel/crates/gctrl-orch/src/worker.rs:81-163 | in every run a step's write is what the documented table gives for the step's own trigger exactly when it is neither a dry-run return nor the release after a clean exit |
| `Claims.ReleaseFromRunning` | kernel/specs-lean4/KernelSpec/Orchestrator.lean:55-70 | in the table a running task is released by reconciliation only, a normal exit queues a retry, and nothing leads from claimed to unclaimed |
| `Claims.DryRunReturnHappens` | kernel/crates/gctrl-orch/src/worker.rs:100-115 | a dry run of any task by any worker writes claimed to unclaimed |
| `Claims.CleanReleaseHappens` | kernel/crates/gctrl-orch/src/worker.rs:142-149 | a dispatch of any task whose agent exits cleanly writes running to released |
| `Claims.OnlyDryRunHasNoTrigger` | kernel/crates/gctrl-orch/src/worker.rs:68-164 | of all writes in any run exactly the dry-run returns have no trigger at all in the documented table |
| `Claims.SettledForever` | kernel/crates/gctrl-orch/src/worker.rs:68-164 | a claimed task nobody holds keeps its claim and its spawn count in every later run |
| `Claims.AbandonedTaskIsStranded` | kernel/crates/gctrl-orch/src/worker.rs:84-91 | a worker that leaves a dispatch by an error strands its row: it stays `Claimed` or `Running` for ever |
| `Claims.StrandedIffAbandoned` | kernel/crates/gctrl-orch/src/worker.rs:68-164 | a run ends with a row claimed or running that nobody holds exactly when a holder of the row abandoned its dispatch; without abandoned dispatches every such row is being worked on |
| `Claims.Store.TryTransitionClaim` | kernel/crates/gctrl-storage/src/sqlite_store.rs:1039-1052 | compare-and-set: writes exactly when the row holds `from`, and says whether it did |
| `Claims.SettlesAsExited` | kernel/crates/gctrl-orch/src/worker.rs:139-162 | settling writes `Released` after a clean exit and `RetryQueued` after any other, under the trigger of that exit |
| `Claims.LaunchesAsSpawned` | kernel/crates/gctrl-orch/src/worker.rs:68-135 | from an unclaimed row the claim, its return by a dry run and the launch write what they should; only a started agent's row can be marked as running and only a failed launch be given up |
| `Claims.ReportsItsSteps` | kernel/crates/gctrl-orch/src/worker.rs:68-164 | spawn and exit go as the environment decides; the outcome is a release exactly after a clean exit was settled, a retry after any other or a failed launch, an error exactly after an early return, and the row's final claim agrees |
| `Claims.Worker.DispatchOne` | kernel/crates/gctrl-orch/src/worker.rs:68-164 | an uninterrupted dispatch that wins its row takes exactly the listed steps of the machine, with spawn and exit as the environment decides; its outcome and the row's claim follow from the exit that was settled or the step that ended it; a lost race changes nothing |
| `Claims.Worker.RunOnce` | kernel/crates/gctrl-orch/src/worker.rs:42-57 | a pass is a run of the machine and ends with exactly the rows and outcomes of dispatching in order up to the first error |
| `Claims.DrainEachTask` | kernel/crates/gctrl-orch/src/worker.rs:42-57 | in a pass without an error each task's outcome and final claim depend on its own row alone, and unlisted rows are untouched |
| `RateLimit.WindowBound` | kernel/crates/gctrl-mac-comm/src/rate_limit.rs:54-76 | over every run with nondecreasing times, evictions included, the grants of a key in any closed window are at most burst plus rate times its length |
| `RateLimit.WindowBoundIff` | kernel/crates/gctrl-mac-comm/src/rate_limit.rs:54-76 | that bound holds for all runs exactly when a bucket idle for the eviction time is full (rate * idle >= burst) |
| `RateLimit.EvictionUnobservable` | kernel/crates/gctrl-mac-comm/src/rate_limit.rs:57-68 | under that condition every answer equals that of one never-evicted bucket fed only the key's own calls |
| `RateLimit.EvictionUnobservableIff` | kernel/crates/gctrl-mac-comm/src/rate_limit.rs:57-68 | eviction is unobservable in all runs exactly under that condition |
| `RateLimit.EarlyEvictionBreaksTheLimit` | kernel/crates/gctrl-mac-comm/src/rate_limit.rs:57-68 | otherwise draining, waiting and draining again gets 2 * burst grants and beats the limit |
| `RateLimit.SpacedCallsAreGranted` | kernel/crates/gctrl-mac-comm/src/rate_limit.rs:54-76 | in every configuration, early eviction and any other callers included, calls of a key spaced by at least one token's time are never refused, exactly when the burst is at least one |
| `RateLimit.GrantedIff` | kernel/crates/gctrl-mac-comm/src/rate_limit.rs:54-76 | over every run with nondecreasing times a call is granted exactly when, for itself and each earlier call of its key, one more than the grants since then is at most burst plus rate times the time since then; for all runs this holds exactly when rate * idle >= burst |
| `RateLimit.ReferenceGrantsWhatFits` | kernel/crates/gctrl-mac-comm/src/rate_limit.rs:65-75 | the same exact condition for a single bucket that is never evicted |
| `RateLimit.ReferenceWindowBound` | kernel/crates/gctrl-mac-comm/src/rate_limit.rs:65-75 | the window bound for a single bucket from any admissible state |
| `RateLimit.RateLimiter.TryAcquireAt` | kernel/crates/gctrl-mac-comm/src/rate_limit.rs:54-76 | the in-place call has the answer and map of the specification: the key's bucket is renewed, every other bucket touched within the eviction time stays as it was, and no other is left |
| `Sse.ParseSseToResponse` | kernel/crates/gctrl-proxy/src/capture.rs:209-280 | no response exactly when no line carries a decodable chunk; otherwise one reply per content-bearing index in index order, with its deltas concatenated, first role, last usage and first model |
| `Sse.FrameRoundTrip` | kernel/crates/gctrl-proxy/src/capture.rs:209-232 | framing payloads as `data:` events with a final `[DONE]` and parsing them gives back exactly their chunks |
| `Sse.InertLine` | kernel/crates/gctrl-proxy/src/capture.rs:218-232 | a line without a decodable chunk can be inserted anywhere without changing what is parsed |
| `Sse.BodyCarries` | kernel/crates/gctrl-proxy/src/capture.rs:209-232 | a body of payload lines and any other lines in any order, with or without carriage returns and a last newline, decodes to exactly the payloads' chunks |
| `Sse.AssembledReplies` | kernel/crates/gctrl-proxy/src/capture.rs:239-280 | the response has one reply per index that received content, in increasing index order, each with its first role or `assistant` and all its content |
| `Sse.FirstRoleIff` | kernel/crates/gctrl-proxy/src/capture.rs:241-245 | a choice's role is that of its first delta that names one, and none exactly when no delta does |
| `Sse.FirstModelIff` | kernel/crates/gctrl-proxy/src/capture.rs:231-235 | the response's model is that of the first chunk that has one |
| `Sse.LastUsageIff` | kernel/crates/gctrl-proxy/src/capture.rs:236-238 | the response's usage is that of the last chunk that has one |
| `Sse.PiecesLaws` | kernel/crates/gctrl-proxy/src/capture.rs:239-254 | the content of a choice is collected from exactly its own deltas with content, in stream order |
| `Sse.PaddedLine` | kernel/crates/gctrl-proxy/src/capture.rs:218-229 | between any amount of white space a `data:` line carries nothing, the end marker, or a payload to decode |
| `Capture.ExtractTurns` | kernel/crates/gctrl-proxy/src/capture.rs:115-159 | one turn per message with its role, rendered content, ids and position; no token count but the prompt total on the last; then one turn exactly when the first choice has a message, with its role and content, the next position and the completion total |
| `Capture.StreamingAgrees` | kernel/crates/gctrl-proxy/src/capture.rs:209-280 | a stream that delivers a reply in any cut, padding and interleaving gives the turns of the same reply sent whole |
| `Capture.AnyCutSameTurns` | kernel/crates/gctrl-proxy/src/capture.rs:209-280 | every cut of a content into one or more deltas after a role chunk, with usage last, gives the turns of the whole response |
| `Capture.AnyBodySameTurns` | kernel/crates/gctrl-proxy/src/capture.rs:209-280 | the same from the body text: payload lines that stream a reply in any cut, with any other lines between them |
| `Capture.StreamedReplyIsRecorded` | kernel/crates/gctrl-proxy/src/capture.rs:115-280 | from the body text of a streamed reply: the turns of the request, the prompt total on the last, then one turn with the streamed role, all pieces in one and the completion total |
| `Capture.ChoicesAreIndependent` | kernel/crates/gctrl-proxy/src/capture.rs:233-262 | however choices interleave, a choice's reply depends only on its own deltas in order |
| `Capture.FirstReplyOf` | kernel/crates/gctrl-proxy/src/capture.rs:255-280 | the first reply is that of the lowest index that received content |
| `Relay.Tee` | kernel/crates/gctrl-proxy/src/relay.rs:145-186 | the forwarded bytes are a prefix of the buffered ones and exactly the chunks accepted before the first error; the capture input is all good bytes; there is no capture exactly when the first upstream error comes before any failed send, and then the error is offered to the client |
| `Relay.LateErrorsAreInvisible` | kernel/crates/gctrl-proxy/src/relay.rs:154-163 | once the client has left, cutting a chunk and an upstream error in the middle of it leave the same stored turns |
| `Relay.StreamedReplyIsStored` | kernel/crates/gctrl-proxy/src/relay.rs:145-262 | when the tee captures a body that streams a reply, what is stored is the request's messages and that reply with their token totals, however the bytes came in chunks |
| `Relay.NothingStoredIff` | kernel/crates/gctrl-proxy/src/relay.rs:164-262 | nothing is stored exactly without a capture, a readable request or a session, when nothing decodes, or when neither request nor reply says anything |
| `Otlp.PayloadReads` | kernel/crates/gctrl-proxy/src/capture.rs:459-509 | the reader accepts every payload the builder makes, as one span in one scope of one resource |
| `Otlp.PayloadRoundTrip` | kernel/crates/gctrl-otel/src/span_processor.rs:108-227 | build, read and process give exactly one Generation span with the same session, ids, service, model, counts, status and start, and the floored duration or 0 |
| `Otlp.TokensSurviveIff` | kernel/crates/gctrl-otel/src/span_processor.rs:134-143 | a 32-bit token count comes back unchanged exactly when it is not negative; a negative one becomes a huge one |
| `Otlp.ReadBackFinds` | kernel/crates/gctrl-otel/src/span_processor.rs:97-99 | which attribute each key finds, whichever optional attributes are present |
| `Otlp.ProcessExportRequest` | kernel/crates/gctrl-otel/src/span_processor.rs:108-227 | the nested loops yield exactly the spans of all scopes of all resources, in order |
| `Otlp.TokensOfSpan` | kernel/crates/gctrl-otel/src/span_processor.rs:135-143 | the first `ai.tokens` attribute decides a count, else the first `gen_ai.usage` one: its integer cast to unsigned, 0 when it is no integer or there is none |
| `Otlp.CostOfSpan` | kernel/crates/gctrl-otel/src/span_processor.rs:145-147 | the cost is the double of the first `ai.cost.usd` attribute, 0 otherwise |
| `Otlp.ModelOfSpan` | kernel/crates/gctrl-otel/src/span_processor.rs:130-133 | the model is the string of the first `ai.model.id` attribute, else of the first `gen_ai.request.model` one |
| `Otlp.KindOfSpan` | kernel/crates/gctrl-otel/src/span_processor.rs:150-178 | a span with a model is a generation, one without an event exactly when it took less than a millisecond; the duration is floored and never negative |
| `Otlp.CarriedBySpan` | kernel/crates/gctrl-otel/src/span_processor.rs:155-227 | ids, names, place and start are carried over; status code 1 is ok, 2 an error with its message, anything else unset |
| `Otlp.ResourceSays` | kernel/crates/gctrl-otel/src/span_processor.rs:112-126 | session and agent are the strings of the resource's first attributes of their keys, else `unknown` |
| `Otlp.OneScope` | kernel/crates/gctrl-otel/src/span_processor.rs:126-227 | the spans of one scope give one record each, in order, under their resource's names |
| `Otlp.InOrder` | kernel/crates/gctrl-otel/src/span_processor.rs:111-227 | the records of consecutive scopes and resources follow one another |
| `EventBus.PushKeepsWindow` | kernel/crates/gctrl-otel/src/event_bus.rs:139-146 | pushing the next entry turns the last min(n, max(1, capacity)) entries of the log into those of the longer log |
| `EventBus.SerialReplayIsExact` | kernel/crates/gctrl-otel/src/event_bus.rs:159-179 | for serial publishes the ring answers Gap exactly when a newer event was dropped, otherwise exactly the rest of the log |
| `EventBus.DroppedIff` | kernel/crates/gctrl-otel/src/event_bus.rs:159-179 | something newer than an id has been dropped exactly when the id is below the oldest kept one minus one |
| `EventBus.NoLossNoDuplicateBeforeGap` | kernel/crates/gctrl-otel/src/event_bus.rs:159-179 | a client that resumes from its last id has, until it is told of a gap, received every event up to that id once and in order |
| `EventBus.ResumeCatchesUp` | kernel/crates/gctrl-otel/src/event_bus.rs:159-179 | in every run a resume tells of a gap exactly when an unseen event is no longer kept, and otherwise brings the client to the end of the log |
| `EventBus.HandlerRepeatsIff` | kernel/crates/gctrl-otel/src/receiver.rs:793-846 | the stream handler loses nothing it still has, and what a client has received in all repeats events exactly when some were pushed before the replay but broadcast after the subscription |
| `EventBus.EveryDrawnIdInOnePlace` | kernel/crates/gctrl-otel/src/event_bus.rs:135-149 | for any interleaving of publishers every drawn id is in exactly one of in flight, ring and aged out, and the ring repeats none |
| `EventBus.ReplayExactIffNoOvertaking` | kernel/crates/gctrl-otel/src/event_bus.rs:135-179 | over any interleaving of publishers every answer of the whole run is exact (a gap exactly when something newer aged out, otherwise the following ids with none skipped) exactly when no push overtakes a smaller drawn id |
| `EventBus.OverlapWithoutOvertakingIsSerial` | kernel/crates/gctrl-otel/src/event_bus.rs:135-179 | without overtaking the ring and its answers are those of serial publishes of the pushed events, however the draws interleave |
| `EventBus.OverlappingPublishesMislead` | kernel/crates/gctrl-otel/src/event_bus.rs:135-149 | a concrete overtaking: a ring that reports a gap though nothing aged out, and later hides event 1 from a client that has seen 2 |
| `EventBus.Bus.Publish` | kernel/crates/gctrl-otel/src/event_bus.rs:135-149 | serial publishes get consecutive ids and keep the ring the tail of the log |
| `EventBus.Bus.ReplayAfter` | kernel/crates/gctrl-otel/src/event_bus.rs:159-179 | the loop answers exactly what the unbounded log owes the client |
| `Crawl.CrawlSite` | kernel/crates/gctrl-net/src/crawl.rs:68-122 | ends on every site, with what the worklist function computes; the start is visited unless no page is allowed; every visited URL is skipped or asked for once, and saved exactly when it can be fetched; crawled plus skipped is the number visited; every saved page is within depth and reachable by that many links; the manifest is exactly the saved pages; unless the page limit stopped it, every link of a page above the depth limit was visited |
| `Crawl.CrawlIsComplete` | kernel/crates/gctrl-net/src/crawl.rs:68-122 | a crawl that the page limit did not stop and that found every saved page at its shortest distance visited every URL linked within depth |
| `Crawl.PageIsMissed` | kernel/crates/gctrl-net/src/crawl.rs:73 | a site of four pages on which the crawl misses a page two links from the start, though depth two is allowed and the page limit was not reached |
| `Crawl.PushLinks` | kernel/crates/gctrl-net/src/crawl.rs:107-111 | every unvisited link is queued one level deeper and nothing else is added |
| `Crawl.ShouldSkipIff` | kernel/crates/gctrl-net/src/crawl.rs:205-207 | a URL is left out exactly when one of the patterns stands somewhere in it |
| `Crawl.FetchIff` | kernel/crates/gctrl-net/src/crawl.rs:133-168 | a page comes back exactly when the site has one with enough words, with its title, content and links |
| `Crawl.SiteStore.SavePage` | kernel/crates/gctrl-net/src/storage.rs:59-108 | the page's entry replaces any earlier one for its URL and goes last, URLs stay unique and the total is the sum |
| `Crawl.WithoutUrlExact` | kernel/crates/gctrl-net/src/storage.rs:82-108 | the entries kept are exactly those with another URL |
| `ContextStore.ReadBackIff` | kernel/crates/gctrl-context/src/fs.rs:49-130 | reading back gives the content without leading newlines exactly when no metadata value contains a newline followed by three dashes |
| `ContextStore.FenceInFields` | kernel/crates/gctrl-context/src/fs.rs:49-77 | the written header contains a fence exactly when some metadata value does |
| `ContextStore.StoreRefinesMap` | kernel/crates/gctrl-context/src/store.rs:71-239 | over any run of upserts and removes, kind changes included: a path is present exactly when its last operation wrote it, reads as that content exactly when that write's metadata was clean, and keeps its first id until removal |
| `ContextStore.RowSays` | kernel/crates/gctrl-context/src/store.rs:71-136 | over any run a row has the id and creation time of the path's first write since its last removal and everything else from its latest write, and the file is the latest write's |
| `ContextStore.RowComesFrom` | kernel/crates/gctrl-context/src/store.rs:71-239 | every row comes about that way |
| `ContextStore.AbsentIff` | kernel/crates/gctrl-context/src/store.rs:71-239 | a path has no row exactly when every write of it is followed by its removal |
| `ContextStore.FileLayout` | kernel/crates/gctrl-context/src/fs.rs:60-72 | the layout of a file: seven named lines between two fences, an empty line, the content |
| `ContextStore.TrimExact` | kernel/crates/gctrl-context/src/fs.rs:119-130 | reading drops all leading newlines and nothing else |
| `ContextStore.ContextManager.Upsert` | kernel/crates/gctrl-context/src/store.rs:71-136 | the path now has this content and keeps its id; other rows are untouched; the row keeps its creation time although the returned entry shows the new one |
| `ContextStore.ContextManager.Get` | kernel/crates/gctrl-context/src/store.rs:138-146 | an id finds the one path that has it, or nothing |
| `ContextStore.ContextManager.ReadContent` | kernel/crates/gctrl-context/src/store.rs:158-162 | reading by id gives the content of the path with that id, under the same exact condition |
| `ContextStore.ContextManager.ReadContentByPath` | kernel/crates/gctrl-context/src/store.rs:164-168 | not found exactly for absent paths; otherwise the last content, trimmed, exactly when its metadata was clean |
| `ContextStore.ContextManager.RemoveByPath` | kernel/crates/gctrl-context/src/store.rs:232-240 | removes exactly that path, or reports it missing |
| `ContextStore.ContextManager.Remove` | kernel/crates/gctrl-context/src/store.rs:222-230 | removes exactly the path with that id and leaves every other path as it was |
| `Manifest.FlattenExact` | kernel/crates/gctrl-core/src/app_manifest.rs:306-360 | for every tree with unique keys, flattening fails exactly on a table that mixes tables and other values or a capability whose body does not decode; otherwise its keys are exactly the capabilities' dotted paths without leading empty keys, each with the body of such a capability |
| `Manifest.SkippedIff` | kernel/crates/gctrl-core/src/app_manifest.rs:320-334 | a leaf is no capability, and so skipped, exactly when every key on its path is empty |
| `Manifest.EmptyKeyDrops` | kernel/crates/gctrl-core/src/app_manifest.rs:320-345 | a capability under an empty quoted key is dropped without an error, whatever its body |
| `Manifest.EveryBodyKeptIff` | kernel/crates/gctrl-core/src/app_manifest.rs:306-360 | every capability keeps its own body exactly when capabilities with the same key have the same body |
| `Manifest.SameKeyIff` | kernel/crates/gctrl-core/src/app_manifest.rs:340-345 | with dot-free keys two capabilities share a key exactly when their paths differ in leading empty keys only |
| `Manifest.DotFreeKeysKeepEveryBody` | kernel/crates/gctrl-core/src/app_manifest.rs:306-360 | with dot-free keys every capability keeps its own body exactly when those that differ in leading empty keys only have the same body; without an empty key at the top that always holds |
| `Manifest.QuotedKeyReplaces` | kernel/crates/gctrl-core/src/app_manifest.rs:306-360 | a quoted key with a dot silently replaces the nested capability of the same dotted path |
| `Manifest.NoDottedAncestors` | kernel/crates/gctrl-core/src/app_manifest.rs:306-360 | with dot-free keys one resulting key is a dotted ancestor of another exactly when their paths without leading empty keys are nested; without an empty key at the top that never happens |
| `Manifest.EmptyKeyNests` | kernel/crates/gctrl-core/src/app_manifest.rs:340-345 | an empty key at the top can put one resulting key above another |
| `Manifest.SkeletonFromKeys` | kernel/crates/gctrl-core/src/app_manifest.rs:306-360 | with dot-free keys a list of keys leads to a table, after any leading empty ones, exactly when some resulting key's segments begin with it |
| `Manifest.SplitDotted` | kernel/crates/gctrl-core/src/app_manifest.rs:340-350 | a dot-free path can be read back from its dotted key |
| `Manifest.FlattenCapabilityTable` | kernel/crates/gctrl-core/src/app_manifest.rs:306-360 | the recursive loop over the entries computes the specified flattening |
| `Manifest.TakeCapabilitySection` | kernel/crates/gctrl-core/src/app_manifest.rs:288-304 | an absent section is empty, anything but a table is an error, a table is flattened; the section is removed from the root table and all others stay |
| `Board.NeverDueBeforeStart` | apps/gctrl-board/src/worker.ts:442-498 | in every interleaving of requests split at their read and their batch write, stored dates are well-formed and an issue with both never starts after it is due, in calendar order |
| `Board.DatesAreLastEvent` | apps/gctrl-board/src/worker.ts:481-495 | in every interleaving an issue's dates are those of its last `scheduled` event, or unset when it has none |
| `Board.StringOrderIsCalendarOrder` | apps/gctrl-board/src/worker.ts:442-476 | on accepted dates the string comparison is the order by year, month and day, and equal days are equal strings |
| `Board.CheckIff` | apps/gctrl-board/src/worker.ts:453-464 | which fields are refused and for what: no field at all, then a bad start, then a bad due date; null and missing are never bad |
| `Board.PlanIff` | apps/gctrl-board/src/worker.ts:472-478 | a missing field keeps its date, null clears it, a text sets it; the result is refused exactly when both dates are set and due comes before start in calendar order |
| `Board.CommitIsAtomicIff` | apps/gctrl-board/src/worker.ts:472-495 | a request that writes does what reading and writing at once would have done exactly when the fields it left out are still as it read them |
| `Board.UndisturbedIsAtomic` | apps/gctrl-board/src/worker.ts:466-495 | a request during which nobody else writes the issue takes effect as one atomic step at its commit |
| `Board.OverlapLosesADate` | apps/gctrl-board/src/worker.ts:466-495 | two accepted overlapping requests for different fields: the later commit puts back the field it did not mention and the other date is lost |
| `Board.Database.ScheduleIssue` | apps/gctrl-board/src/worker.ts:442-498 | each refusal and its order; on success a missing field keeps its date, null clears it and a text sets it, the row gets those dates and one event with them is added |

## Left out

- Input and output: files, sockets, databases, JSON and TOML text.  A failure that the code turns into an error it returns is a parameter; other failures are not modelled.
- Electron, axum, reqwest, WebSocket and React wiring: plumbing over libraries.
- `SqliteStore`, DuckDB and D1: an atomic compare-and-set, a unique path, and an atomic batch are what the models assume of them.
- f64 rounding in the rate limiter: tokens and times are reals, and calls come with nondecreasing times.
- Overflow of 64-bit event ids, wall-clock skew and leap seconds.
- Lossy UTF-8 decoding of the captured bytes and JSON decoding of a stream payload: function parameters, so the theorems hold for any decoding.  Fields repeated in one JSON object are not modelled.
- Sidecar.Runtime.FireExit: does not model whether the operating system process is really gone; a kernel counts as alive until its exit or error has been delivered.
- The probe, spawn and kill calls of the sidecar are taken not to throw; a probe that rejects counts as "no daemon", as in the code.
- PoolRuns.CapacityUnderConcurrency: does not count processes that were killed but have not exited; launches fail or succeed as the environment decides.
- Frame channels, endpoint strings and session metadata of the pool; configuration limits are naturals and time is in integer nanoseconds.
- Claims.Worker.DispatchOne: the contract is for a dispatch nobody interrupts; interleaved workers are covered by the machine it is a run of.  Store errors in the middle of a dispatch are the machine's abandon step.
- Agent timeouts, environment allow-lists, prompt building and the truncation of comments.
- EventBus.HandlerRepeatsIff: serial publishes and one client without a session filter whose live channel does not lag; a lagging channel ends the stream.
- Relay.Tee: the client is a number of chunks it accepts before its channel closes; back-pressure and time are not modelled.
- Capture.ExtractTurns: turn ordinals are unbounded, where the code casts to 32 bits.
- Request parsing, headers, prompt fingerprints and the persistence of turns.
- Otlp.PayloadRoundTrip: token counts are within 32 bits and times within 64 bits unsigned, as their types say; cost and other attributes are read but never built.
- The copy of all attributes that a span record keeps beside the fields read from them.
- Crawl.CrawlSite: does not claim that every page within depth is found, because the worklist is popped from the end; `CrawlIsComplete` and `PageIsMissed` say when it is and that it need not be.
- URL normalization, HTML extraction and file names of pages: a site is any function from URLs to pages and links; whether two URLs map to one file is not modelled.
- ContextStore.StoreRefinesMap: a file is kept as the write that produced it, under its kind and path; path tricks such as `..`, and files written from outside, are not modelled.
- Listing, statistics and compaction of the context store.
- Manifest.FlattenExact: keys are unique within a table, as TOML requires; the order in which a table lists its keys, and the body decoder, are parameters.
- Manifest validation against the capability registry, names, runtimes and schedules: each check is one branch.
- Board.NeverDueBeforeStart: issues start without dates, which is how the migration and the create handler make them; no handler deletes an issue.
- A `null` request body and fields other than the two dates, timestamps and event ids, and the Gantt range query.
