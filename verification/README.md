# Verified models of the message host

Dafny models of the protocols and algorithms inside the message host, and proofs of what they promise. Every module
follows one part of the program; where the program updates fields, maps or buffers in place, the model is a class or a
method with a loop, proved equal to a function, and the theorems are about that function over whole runs.

| module | part of the program |
|---|---|
| `Delivery` | outbound delivery: drains of many callers that interleave at every awaited send |
| `ContainerRunner` | wakes, spawns, kills and exits of containers, and restarts of an agent group |
| `HostSweep` | stuck detection, retry with backoff, the response guarantee and the order of a sweep tick |
| `StateTables`, `StateStore`, `StateLocks`, `StateQueues` | the SQLite-backed state adapter and what it refines |
| `Router` | fan-out of a message to its agents; sessions as subscription state |
| `Words`, `Crc32`, `Png` | CRC-32 (RFC 2083, section 3.4) and the icon encoder |
| `StatusBlocks` | the streaming parser of setup status blocks and their printer |
| `WrapLine` | greedy line wrapping with colour sequences |
| `Migrations` | version order and the selection of migrations |
| `EnvMerge`, `EnvFile` | the `.env` merge of the v1 migration; reading and setting one key |
| `Uninstall` | the removal plan, its execution with failures, and its split in two |
| `Options`, `Arithmetic`, `Texts` | an option type; integer helpers; JavaScript string operations |

`dafny verify dfyconfig.toml` checks everything.

## How the models are built

* **Concurrency.** A step is a stretch of code without an `await`. Runs are arbitrary sequences of steps of any number of
  callers, so every interleaving is covered. `Delivery` assumes that the two marking statements do not throw;
  `ContainerRunner` assumes one exit event per process, and `SecondExitDoublesIff` says when a second one would matter.
  An exit handler that throws ends the host (`src/log.ts:57-60`), so no step follows it.
* **The world.** Clock readings, send results, gate and pattern answers, spawn outcomes, file contents and thrown errors
  are parameters of the steps, so a theorem holds for all of them.
* **Ghost history.** `Delivery.log` and `HostSweep.acts` record what happened; the program has no such variable.
* **Text.** Strings are sequences of Unicode characters. Stored JSON is kept as text.

## Where the code falls short of what one would expect

Each of these is a lemma with a concrete case and, where a condition exists, an equivalence.

* The limit of three delivery attempts is counted per message id, not per session: it holds in every run exactly when no
  id occurs in two sessions (`Delivery.BoundIffIdsUnique`).
* An empty thread id is stored as it is but looked up as "no thread": each mention makes another session and no follow-up
  engages (`Router.EmptyThreadForgets`, `Router.ResolveUniqueIff`).
* Under `accumulate` a plain message opens the session of a `mention-sticky` wiring, so the next one engages without any
  mention (`Router.AccumulateEngagesIff`).
* A lapsed lease can still be extended until a cleanup or another holder removes it (`StateStore.ExtendSeesCleanupIff`); a
  deadline that is exactly 0 counts as no deadline in TypeScript but not in SQL (`StateStore.SetNewSeesCleanupIff`); a
  cleanup can free a list index when deadlines decrease (`StateStore.UnorderedListSeesCleanup`, `StateStore.ListSeesCleanupIff`).
* Line wrapping drops a word that takes no columns at the start of a row, for instance a colour sequence on its own
  (`WrapLine.KeepsWordsIff`).
* A tick that wakes a container may ask to kill it again: the fallback hook runs after the wake and looks only at a message's age,
  so even a message scheduled for tomorrow counts (`HostSweep.WakingTickKillsIff`, `HostSweep.WokenThenKilled`,
  `HostSweep.ScheduledMessageBreaches`).
* A turn that throws after its message was stored, whether to wake the agent or as silent context, leaves the message
  uncounted, so it may be stored and also recorded as dropped (`Router.StoredYetDroppedIff`).
* A process that is listed but cannot be marked as running gets no exit handlers: the wake reports a failure, and from then
  on every wake of the session reports a running container, even after the process is gone, and never starts another
  (`ContainerRunner.FailedSpawnWakeable`, `ContainerRunner.LostForGood`).
* Setting a `.env` key that a line cannot define is accepted and then reads as absent (`EnvFile.ReadsBackIff`).
* A second `.env` in the data group would be deleted without a backup (`Uninstall.EnvOnlyBackedUpIff`).

## Model

| member | source | states |
|---|---|---|
| `Delivery.DeliveryHost.DeliverSessionMessages` | src/delivery.ts:154-193 | a call rejected while the session is being drained, or with nothing undelivered, changes nothing; any other parks on the first send |
| `Delivery.DeliveryHost.Filter` | src/delivery.ts:182-188 | the queue is the due rows the `delivered` table does not list, in order |
| `Delivery.DeliveryHost.SendSettled` | src/delivery.ts:193-230 | success marks and forgets the counter, failure counts, the third failure gives up; the drain moves on or ends and frees the session |
| `Delivery.UndeliveredSplit` | src/delivery.ts:182-188 | row by row, in order: a due row joins the queue exactly when it is not settled |
| `Delivery.BeginIs` | src/delivery.ts:154-193 | a call starts a drain exactly when the session is not being drained and some due row is not settled; otherwise it changes nothing |
| `Delivery.SettleIs` | src/delivery.ts:193-230 | success marks and resets the counter, two failures count, the third marks and resets; no other message is touched |
| `Delivery.DrainGoesOn` | src/delivery.ts:193-230 | after any outcome the drain goes on with the next message; it ends and frees the session only after the last |
| `Delivery.DrainSendsAll` | src/delivery.ts:193-230 | in every interleaving a drain sends its messages in order, one outcome each, and is there until the last is settled, and no longer |
| `Delivery.DrainedFully` | src/delivery.ts:154-235 | when a call's drain is gone, it has logged exactly one outcome for every message that was due and not settled, in order |
| `Delivery.SafeDelivery` | src/delivery.ts:154-235 | in every interleaving: one drain per session, at most one successful send of a message, delivered exactly when that send happened, rows from earlier processes never sent again |
| `Delivery.SettledForever` | src/delivery.ts:185-187 | a settled message keeps its verdict and is never attempted again |
| `Delivery.AttemptsBounded` | src/delivery.ts:208-220 | with ids unique across sessions: at most three attempts including one in progress, the third settles, given up means three failures and no success |
| `Delivery.SharedIdBreaksBound` | src/delivery.ts:209-219 | two sessions sharing an id: a run with a fourth attempt |
| `Delivery.BoundIffIdsUnique` | src/delivery.ts:193-230 | the bound of three holds in all runs if and only if no id occurs in two sessions |
| `ContainerRunner.Runner.WakeContainer` | src/container-runner.ts:91-112 | answers true for a listed container, joins a pending wake, else starts one spawn |
| `ContainerRunner.Runner.SpawnReady` | src/container-runner.ts:163-213 | the heartbeat is cleared, the process starts and is listed, then marked, then watched; if marking throws it stays listed and unwatched |
| `ContainerRunner.Runner.SpawnThrew` | src/container-runner.ts:101-106 | a setup that throws before its process starts leaves the two maps as they are until the promise settles |
| `ContainerRunner.Runner.PromiseSettled` | src/container-runner.ts:101-110 | the promise gets its result and its entry is dropped |
| `ContainerRunner.Runner.KillContainer` | src/container-runner.ts:216-230 | without an entry nothing happens; otherwise the process of the entry is told to stop, and a callback is added behind the exit handler |
| `ContainerRunner.Runner.Closed` | src/container-runner.ts:195-205 | all close listeners run in the order they were added, the exit handler only if it was attached |
| `ContainerRunner.Runner.Errored` | src/container-runner.ts:207-212 | the error handler drops the entry and no close callback runs |
| `ContainerRunner.Runner.RestartGroup` | src/container-restart.ts:22-73 | every listed session of the group is killed in turn up to the first whose database throws; the count, if none throws, is their number |
| `ContainerRunner.RunningIs` | src/container-restart.ts:23-25 | the targets are exactly the group's sessions that are listed as running |
| `ContainerRunner.RestartMarksExactly` | src/container-restart.ts:27-67 | every target is told to stop once, in order; exactly those with a wake message or due work get the wake on exit, once each; nothing else changes |
| `ContainerRunner.RunningDistinct` | src/container-restart.ts:23-25 | no session is a target twice |
| `ContainerRunner.GroupRestarts` | src/container-restart.ts:22-73 | for a group of distinct sessions in any reachable state: the targets are its listed sessions, each once, all are restarted as above, and the count is the number of listed sessions |
| `ContainerRunner.RestartIsKills` | src/container-restart.ts:27-67 | the restart is a run of kills, so the invariants of runs hold across it |
| `ContainerRunner.CloseIs` | src/container-runner.ts:195-221 | however many callbacks were added, the dead entry goes first and at most one wake follows; without an exit handler the entry stays and no wake starts anything |
| `ContainerRunner.OneContainerPerSession` | src/container-runner.ts:61-112 | in every reachable state a session has at most one container live or being set up |
| `ContainerRunner.RunningIff` | src/container-runner.ts:75-77 | over every run, `isContainerRunning` is true exactly while a container of the session is live, or once one was listed without being marked |
| `ContainerRunner.LostForGood` | src/container-runner.ts:171-172 | after a process was listed without being marked, every wake of its session answers true and no other container ever comes up |
| `ContainerRunner.WakesJoin` | src/container-runner.ts:96-100 | during a setup every wake of the session gets its promise and starts nothing |
| `ContainerRunner.WakeOutcome` | src/container-runner.ts:101-106 | all holders of a promise get true exactly when the setup came to its end, with the process listed, marked and watched |
| `ContainerRunner.FailedSpawnWakeable` | src/container-runner.ts:103-172 | after a failed spawn the next wake starts a new attempt, except exactly when its process was already listed: then it answers true and starts nothing |
| `ContainerRunner.RestartRespawns` | src/container-restart.ts:57-66 | whatever happens between the kill and the exit, the callback finds the dead entry gone and starts a fresh spawn, exactly if the killed process is watched |
| `ContainerRunner.SecondExitDuplicates` | src/container-runner.ts:195-212 | a reachable state in which a second exit event of a dead process leads to two live containers |
| `ContainerRunner.SecondExitDoublesIff` | src/container-runner.ts:195-212 | a second exit event can lead to two live containers of its session exactly when the session has a live container by then |
| `ContainerRunner.HeartbeatIsOwn` | src/container-runner.ts:163-167 | the heartbeat of a live container, if any, is newer than its launch |
| `HostSweep.DecideStuckAction` | src/host-sweep.ts:83-119 | ceiling exactly when the heartbeat is too old, else the first stuck claim with its age and tolerance, healthy exactly when neither |
| `HostSweep.CeilingIs` | src/host-sweep.ts:92-106 | the ceiling in numbers: over half an hour and over the timeout a Bash command declared |
| `HostSweep.StuckClaimIs` | src/host-sweep.ts:108-117 | a stuck claim in numbers: over a minute and over that timeout, with no heartbeat since |
| `HostSweep.KillsMonotone` | src/host-sweep.ts:100-116 | a kill stays one later, with a shorter declared timeout and with an older nonzero heartbeat |
| `HostSweep.FirstOldHeartbeatCanKill` | src/host-sweep.ts:92-106 | going from no heartbeat to an old one can cause a kill |
| `HostSweep.BackoffExact` | src/host-sweep.ts:385-386 | the delay is 5 * 2^tries whole seconds |
| `HostSweep.SessionSweep.ResetStuckProcessingRows` | src/host-sweep.ts:359-414 | the loop over claims and the deletion of claims is `Reset` |
| `HostSweep.SessionSweep.SyncProcessingAcks` | src/db/session-db.ts:168-191 | finished acks settle rows that are not settled yet |
| `HostSweep.SyncRow` | src/db/session-db.ts:168-191 | a message is settled by its first finished ack, as failed exactly for a crashed script; nothing settled before is touched |
| `HostSweep.SessionSweep.SweepSession` | src/host-sweep.ts:190-263 | the steps of a tick in their order, with what others do at every await, are `Tick` |
| `HostSweep.SessionSweep.SweepFallbackSession` | src/modules/fallback/sweep.ts:51-99 | overdue messages are failed or handed to the backup, before or after the hook's own await, and `killContainer` is called exactly under `HookKills` |
| `HostSweep.ResetMovesOnce` | src/host-sweep.ts:366-413 | a reset moves exactly the claimed, pending messages that are not deferred, once even if claimed twice: to failed after five tries, before that by one try and a deferral of exactly 5 * 2^tries seconds from its write; the claims go if it can write |
| `HostSweep.ClaimsCat` | src/host-sweep.ts:366-413 | claims are taken from the acks one by one, in order |
| `HostSweep.DropsCat` | src/host-sweep.ts:397-413 | dropping the claims keeps every other ack, in order |
| `HostSweep.ResetLeavesNoClaim` | src/host-sweep.ts:397-413 | after a reset that could write, only the ceiling can kill |
| `HostSweep.TickOrder` | src/host-sweep.ts:217-263 | the limits never kill in a tick that wakes; their kill is followed by its cleanup; a cleanup happens exactly then or when the container was seen dead before the fallback hook, and is one reset at the end; without one the hook and the others have the last word |
| `HostSweep.SlaKillIff` | src/host-sweep.ts:253-346 | the limits kill exactly a container that ran before a tick which wakes nothing and that is over a limit, by the claims left after the hook |
| `HostSweep.WokenIff` | src/host-sweep.ts:217-228 | a tick wakes exactly when nothing runs and some pending trigger message, after the sync, is neither deferred nor scheduled past the current second |
| `HostSweep.OverdueIs` | src/modules/fallback/sweep.ts:25-67 | the response guarantee in numbers: ten minutes, or a minute more than a declared Bash timeout |
| `HostSweep.HookKillIff` | src/modules/fallback/sweep.ts:56-98 | the hook asks for a kill exactly when some message is overdue and the fallback state lets it act |
| `HostSweep.HookLeaves` | src/modules/fallback/controller.ts:207-285 | the overdue messages fail, or those already taken become pending for the backup and one message tells it so; nothing else changes |
| `HostSweep.HookOrder` | src/modules/fallback/controller.ts:207-228 | which of this happens before the hook's own await and which after |
| `HostSweep.IdleTick` | src/host-sweep.ts:205-263 | a tick that neither wakes nor finds anything overdue nor cleans up leaves the sync and what others did |
| `HostSweep.WakingTickKillsIff` | src/modules/fallback/sweep.ts:56-98 | a tick that wakes asks for a kill exactly when, at the fallback hook, some open trigger message is older than max(10 min, declared Bash time + 60 s) and the fallback state allows the hook to act |
| `HostSweep.WokenThenKilled` | src/modules/fallback/controller.ts:207-228 | an overdue due message: the tick wakes a container, kills it and fails the message |
| `HostSweep.HookKillUncleaned` | src/host-sweep.ts:230-263 | after a successful wake such a kill gets no cleanup in that tick |
| `HostSweep.ScheduledMessageBreaches` | src/modules/fallback/sweep.ts:37-44 | a message scheduled for any later time breaches the guarantee by its age alone |
| `HostSweep.SuccessfulWakeResetsNothing` | src/host-sweep.ts:217-263 | a wake that succeeds costs no try; with nothing overdue the tick leaves the sync and what others did |
| `HostSweep.DueAgainIff` | src/db/session-db.ts:136-156 | what a reset deferred is due again exactly from the second its delay ends in, and may be reset again exactly from its last millisecond |
| `HostSweep.TickAddsOneTry` | src/host-sweep.ts:248-263 | a tick adds at most one try to a message that is not deleted during it, whatever else others do to it |
| `HostSweep.FreshContainerSpared` | src/host-sweep.ts:92-115 | with the container runner's invariant: the limits never kill for a predecessor's heartbeat, nor within a minute of launch for the container's own claims |
| `HostSweep.RetryBudget` | src/host-sweep.ts:359-395 | over any run of ticks, others writing at every await: at most five resets, tries count them, delays total 5 * (2^resets - 1) <= 155 s, given up at most once, only after all five, and never pending again |
| `HostSweep.GivenUpLate` | src/host-sweep.ts:133-179 | ticks an interval apart give nothing up within 300 s of its first reset, whatever is rescheduled meanwhile |
| `HostSweep.DeferralHolds` | src/host-sweep.ts:372-375 | a deferred message gains no try from ticks before it elapses, unless someone reschedules or deletes it |
| `StateTables.SqliteStateAdapter.CleanupNow` | src/state-sqlite.ts:211-216 | removes exactly the rows whose deadline is before now |
| `StateTables.CleanupIs` | src/state-sqlite.ts:211-216 | a cleanup keeps exactly the values and locks without a deadline before now, and every subscription |
| `StateTables.CleanRowsCat` | src/state-sqlite.ts:215 | and of a list exactly such rows, one by one, in order |
| `StateTables.CleanOneRow` | src/state-sqlite.ts:215 | a list row goes exactly when its deadline is before now |
| `StateTables.GetLeaves` | src/state-sqlite.ts:54-66 | a read is a cleanup, and one that finds nothing leaves no row behind |
| `StateTables.SqliteStateAdapter.GetValue` | src/state-sqlite.ts:54-66 | cleanup, then the value or nothing, with a late expiry removed |
| `StateTables.SqliteStateAdapter.SetValue` | src/state-sqlite.ts:68-73 | the row is replaced; a zero lifetime means none |
| `StateTables.SqliteStateAdapter.SetValueIfNotExists` | src/state-sqlite.ts:75-88 | inserts when the row is absent or expired |
| `StateTables.SqliteStateAdapter.DeleteValue` | src/state-sqlite.ts:90-92 | removes the row |
| `StateTables.SqliteStateAdapter.Subscribe` | src/state-sqlite.ts:96-98 | adds the namespaced thread and nothing else |
| `StateTables.SqliteStateAdapter.Unsubscribe` | src/state-sqlite.ts:100-102 | removes the namespaced thread and nothing else |
| `StateTables.SqliteStateAdapter.IsSubscribed` | src/state-sqlite.ts:104-109 | true exactly when the namespaced thread is subscribed |
| `StateTables.SqliteStateAdapter.AcquireLock` | src/state-sqlite.ts:113-126 | the table transition and the lock object handed out |
| `StateTables.SqliteStateAdapter.ReleaseLock` | src/state-sqlite.ts:128-132 | removes the row under the same token only |
| `StateTables.SqliteStateAdapter.ExtendLock` | src/state-sqlite.ts:134-144 | row and lock object move together or not at all |
| `StateTables.SqliteStateAdapter.ForceReleaseLock` | src/state-sqlite.ts:146-148 | removes the row whoever holds it |
| `StateTables.SqliteStateAdapter.AppendToList` | src/state-sqlite.ts:152-168 | next index, insert, then trim by index |
| `StateTables.SqliteStateAdapter.Enqueue` | src/state-sqlite.ts:182-189 | appends under the queue key; after whatever others do in between, returns the depth found then |
| `StateTables.SqliteStateAdapter.DequeueEntry` | src/state-sqlite.ts:191-199 | takes the row with the least index |
| `StateTables.SqliteStateAdapter.QueueDepth` | src/state-sqlite.ts:201-207 | counts the rows of the key |
| `StateTables.KInjective` | src/state-sqlite.ts:41-43 | within one instance different keys stay different |
| `StateTables.CollideIff` | src/state-sqlite.ts:41-43 | two instances can share a row exactly when one prefix begins with the other |
| `StateTables.NamedInstancesDisjoint` | src/state-sqlite.ts:24-43 | instances with different colon-free names never share a row |
| `StateTables.DefaultCollision` | src/state-sqlite.ts:33-43 | the default instance meets a named one exactly in keys that begin with its name and a colon |
| `StateStore.CallAgrees` | src/state-sqlite.ts:54-216 | one call on the tables answers as the store that forgets nothing early, and keeps the agreement |
| `StateStore.TablesRefineStore` | src/state-sqlite.ts:54-216 | over every proper run, with cleanups anywhere, the tables answer as that store |
| `StateStore.CleanupInvisible` | src/state-sqlite.ts:211-216 | two runs with the same calls and different cleanups get the same answers |
| `StateStore.ValueLives` | src/state-sqlite.ts:68-73 | a value set with a lifetime is read up to and including its last millisecond, without one forever |
| `StateStore.NewValueLives` | src/state-sqlite.ts:75-88 | `setIfNotExists` inserts exactly over nothing unexpired, with the same lifetime |
| `StateStore.AppendedLives` | src/state-sqlite.ts:152-180 | an appended entry is listed before its last millisecond, without a lifetime forever |
| `StateStore.AppendAgrees` | src/state-sqlite.ts:152-168 | appending and trimming by index keeps exactly the newest entries, with reused indices too |
| `StateStore.CleanKeepsSuffix` | src/state-sqlite.ts:170-178 | with ordered deadlines a cleanup removes a lapsed prefix of a list |
| `StateStore.ExtendSeesCleanupIff` | src/state-sqlite.ts:134-144 | an extension sees a cleanup exactly when the lease had lapsed |
| `StateStore.SetNewSeesCleanupIff` | src/state-sqlite.ts:75-88 | `setIfNotExists` sees a cleanup exactly when the stored deadline is a past 0 |
| `StateStore.UnorderedListSeesCleanup` | src/state-sqlite.ts:152-178 | decreasing deadlines: a run in which a cleanup changes what a bounded list keeps |
| `StateStore.ListSeesCleanupIff` | src/state-sqlite.ts:152-178 | a cleanup before an append with some bound changes a later `getList` exactly when the last row has lapsed and an earlier one is still shown |
| `StateStore.RunSeesCleanupIff` | src/state-sqlite.ts:152-178 | the same after any run from an empty database |
| `StateLocks.AcquireExact` | src/state-sqlite.ts:113-126 | granted exactly when no unexpired row stands; a refusal changes nothing |
| `StateLocks.StaleCallsLeaveNoTrace` | src/state-sqlite.ts:128-144 | over any run, the releases and extensions a stale token still tries change nothing |
| `StateLocks.LeaseExcludes` | src/state-sqlite.ts:113-148 | while a lease runs nobody else is granted the lock, its extensions succeed, and it is still held at the end |
| `StateLocks.LostForGood` | src/state-sqlite.ts:113-148 | a token that lost the lock never holds it again |
| `StateLocks.ExtendProvesHeld` | src/state-sqlite.ts:134-144 | a successful extension proves nobody was granted the lock since |
| `StateQueues.QueueIsFifo` | src/state-sqlite.ts:182-207 | over every run a queue answers first in, first out, over its newest entries |
| `StateQueues.QueueFromEmpty` | src/state-sqlite.ts:182-207 | from empty tables, and the depth never exceeds the bound |
| `StateQueues.EnqueueDepth` | src/state-sqlite.ts:182-189 | the depth `enqueue` returns is the queue's length after whatever was called since its entry joined |
| `Router.RouterHost.ResolveSession` | src/session-manager.ts:82-123 | finds by the mode's key or inserts one row; created exactly when inserted |
| `Router.RouterHost.DeliverToAgent` | src/router.ts:458-574 | the session exists before the command filter; nothing is stored when it filters or throws earlier; once stored, the message stays although the turn may still throw |
| `Router.RouterHost.FanOutMessage` | src/router.ts:309-390 | the loop over wirings with its counters and its subscribe flag is `FanOut` |
| `Router.RouterHost.RouteInbound` | src/router.ts:197-402 | an unwired chat stores nothing and records a drop exactly for a mention nobody denied; a wired one records a drop exactly when no agent took the message |
| `Router.Find` | src/db/sessions.ts:38-55 | a row is found exactly when one with the key exists |
| `Router.FindByAgent` | src/db/sessions.ts:58-69 | a row is found exactly when the agent has one that is not a system session |
| `Router.FanOutIsTurns` | src/router.ts:313-390 | a message is its wirings' turns, so interleaved messages are interleaved turns |
| `Router.DecideIs` | src/router.ts:333-372 | woken exactly when engaged and past both gates; kept silently exactly when not engaged under `accumulate` |
| `Router.EngagesIs` | src/router.ts:425-456 | the engage modes that need no history |
| `Router.SessionKeyIs` | src/router.ts:325-331 | the session of a turn, from the settings: the wiring's threads override, else the channel's, bounded by the platform; per thread in groups or under `per-thread` |
| `Router.WithoutThreadsOneSession` | src/channels/channel-defaults.ts:100-109 | a wiring without threads has one session, whatever threads its messages come in and whatever happens between |
| `Router.ThreadsApart` | src/channels/channel-defaults.ts:100-109 | a group wiring with threads has a session of its own for each thread |
| `Router.StickyFollowsThread` | src/router.ts:445-452 | after a mention, a plain message engages exactly in the same thread, or in any if the wiring has no threads |
| `Router.TurnIs` | src/router.ts:313-390 | what one wiring adds: its session, at most one stored row, one count, nothing of the latter if it throws |
| `Router.SubscribedIs` | src/router.ts:338-362 | when a turn subscribes, from the settings |
| `Router.TaskSessionIs` | src/session-manager.ts:127-150 | a task's session is found again later, is no other series', and counts as a system session |
| `Router.SystemIs` | src/db/sessions.ts:58-69 | a system session has no chat and a thread name that begins with `system:` |
| `Router.SessionIsHistory` | src/router.ts:313-372 | a session for (agent, chat, thread) exists exactly when an earlier turn was let in under that key |
| `Router.StickyIffEarlier` | src/router.ts:445-452 | an unmentioned message engages a sticky wiring exactly when an earlier message of its key was let in |
| `Router.DropEngagesIffMentioned` | src/router.ts:313-372 | under `drop`: exactly when an earlier mention of the key passed both gates |
| `Router.AccumulateEngagesIff` | src/router.ts:363-372 | under `accumulate`: exactly when an earlier message of the key was not a refused mention |
| `Router.AccumulateOpensUnmentioned` | src/router.ts:363-372 | two plain messages: stored, then engaged |
| `Router.RefusedLeavesNothing` | src/router.ts:333-372 | an engaging message that a gate refuses changes nothing, whatever the policy |
| `Router.RefusedSenderTriggersNothing` | src/router.ts:313-390 | over a whole message, a sender refused by every wiring triggers no agent and subscribes nothing |
| `Router.ResolveUniqueIff` | src/session-manager.ts:82-123 | a second session for a key arises exactly for an unnamed chat with such a row, or an empty thread id with such a row and no threadless one |
| `Router.TaskUnique` | src/session-manager.ts:127-150 | one session per task series |
| `Router.OneSessionPerKey` | src/session-manager.ts:82-150 | over every run without empty thread ids, one session per key |
| `Router.EmptyThreadForgets` | src/db/sessions.ts:38-55 | with an empty thread id each mention adds a session and no follow-up engages |
| `Router.SharedTakesNewest` | src/db/sessions.ts:58-69 | an agent-shared wiring gets the agent's newest session that is not a system one, or a new one exactly when there is none |
| `Router.SubscribesOnce` | src/router.ts:338-362 | the message's thread is subscribed once if some engaging wiring may subscribe, and not at all otherwise |
| `Router.StoredWhereItBelongs` | src/router.ts:479-541 | after any run, a message that is taken is stored once, in a session of its own agent, chat and thread, and triggers exactly when it engaged and passed both gates |
| `Router.CountersCountTakers` | src/router.ts:337-402 | the counters that decide whether a drop is recorded count exactly the wirings that took the message without throwing |
| `Router.StoredYetDroppedIff` | src/router.ts:379-402 | a message is stored and yet recorded as dropped exactly when no wiring took it and some turn, waking or accumulating, threw after storing it |
| `Router.TurnsIndependent` | src/router.ts:379-389 | one agent's turn, thrown or not, never changes how another agent's is decided |
| `Crc32.BuildTable` | setup/lib/teams-manifest.ts:117-127 | each of the 256 entries is eight bit steps of its index |
| `Crc32.TableStep` | setup/lib/teams-manifest.ts:131-133 | one table lookup is eight bit steps on the whole 32-bit state |
| `Crc32.RunIsSerial` | setup/lib/teams-manifest.ts:129-135 | the byte-wise form is the bit-serial register of RFC 2083, section 3.4 |
| `Crc32.Crc32` | setup/lib/teams-manifest.ts:129-135 | the loop computes that checksum for every buffer |
| `Crc32.PolynomialIs` | setup/lib/teams-manifest.ts:122 | the polynomial is that of RFC 2083, section 3.4, its terms reflected |
| `Crc32.ChecksumOfEnd` | setup/lib/teams-manifest.ts:129-135 | the checksum of the chunk type IEND is AE426082 |
| `Crc32.BitStepInjective` | setup/lib/teams-manifest.ts:120-123 | a bit step never merges two states |
| `Crc32.SerialAffine` | setup/lib/teams-manifest.ts:129-135 | the difference of two checksums is the checksum of the difference, from a zero register |
| `Crc32.BurstDetected` | setup/lib/teams-manifest.ts:129-135 | buffers of one length that differ only inside 32 consecutive bits have different checksums |
| `Crc32.FourByteWindowDetected` | setup/lib/teams-manifest.ts:129-135 | the same for a window of four bytes |
| `Png.BigEndianRoundTrip` | setup/lib/teams-manifest.ts:138-142 | four bytes, most significant first, give the number back |
| `Png.Chunk` | setup/lib/teams-manifest.ts:137-144 | length, type, data and checksum; an over-long chunk is an error |
| `Png.ReadFramed` | setup/lib/teams-manifest.ts:137-144 | a chunk reads back from the front of any concatenation (RFC 2083, section 3.2) |
| `Png.DamagedChunkRefused` | setup/lib/teams-manifest.ts:137-144 | a chunk damaged inside four bytes is refused |
| `Png.FilterRows` | setup/lib/teams-manifest.ts:161-169 | the nested loops write each row behind a filter byte 0 |
| `Png.UnfilterRows` | setup/lib/teams-manifest.ts:161-169 | stripping the filter bytes gives every pixel back, for all sizes (RFC 2083, section 6.2) |
| `Png.PixelsFill` | setup/lib/teams-manifest.ts:161-169 | a pixel buffer that is too short is filled up with zeros, one too long cut off |
| `Png.UnfilterOnly` | setup/lib/teams-manifest.ts:161-169 | and the other way: the rows encode whatever stripping accepts back to the very same bytes |
| `Png.EncodePng` | setup/lib/teams-manifest.ts:150-178 | the file is signature, header, data and end chunk |
| `Png.FixedBytes` | setup/lib/teams-manifest.ts:150-178 | the bytes every file has: signature, head of a 13-byte IHDR chunk, sizes, sample format, and the IEND chunk |
| `Png.DecodeEncoded` | setup/lib/teams-manifest.ts:150-178 | a decoder recovers width, height and every pixel |
| `StatusBlocks.StatusStream.Write` | setup/lib/runner.ts:66-75 | the buffering loop does what feeding one character at a time does |
| `StatusBlocks.StatusStream.ProcessLine` | setup/lib/runner.ts:77-97 | one line starts a block, ends it, sets a field or is ignored |
| `StatusBlocks.HeadOpens` | setup/lib/runner.ts:78-82 | a head line opens a block whatever was open, which is lost, and whatever follows its marker |
| `StatusBlocks.EndCloses` | setup/lib/runner.ts:83-90 | an end line emits the open block, if any, whatever follows its marker |
| `StatusBlocks.OtherLineIgnored` | setup/lib/runner.ts:91-93 | other lines are ignored outside a block, and inside one without a colon |
| `StatusBlocks.FieldLineSets` | setup/lib/runner.ts:94-96 | a line sets what stands before its first colon to what stands after, trimmed, over an earlier value |
| `StatusBlocks.ChunksDoNotMatter` | setup/lib/runner.ts:66-75 | any cutting of a text into writes gives the same blocks, open block and rest |
| `StatusBlocks.EmitStatus` | setup/status.ts:6-16 | the printed lines of a block |
| `StatusBlocks.PrintedIs` | setup/status.ts:10-15 | the markers in full |
| `StatusBlocks.HeadReadsBack` | setup/lib/runner.ts:78-82 | a head line is read as its step exactly when the step is one word |
| `StatusBlocks.EntrySurvivesIff` | setup/lib/runner.ts:91-96 | a printed field is read back exactly when its key and value are valid |
| `StatusBlocks.OutputReadsBack` | setup/lib/runner.ts:66-97 | blocks printed with noise lines in between are parsed back in order, with nothing left over |
| `StatusBlocks.FieldsExact` | setup/status.ts:11-13 | with distinct names a block holds exactly the printed fields |
| `WrapLine.VisibleSplits` | setup/lib/theme.ts:133-137 | no colour sequence crosses a space, so visible lengths add up |
| `WrapLine.PlainVisible` | setup/lib/theme.ts:133-137 | text without an escape character is as long as it looks |
| `WrapLine.ColourVisible` | setup/lib/theme.ts:133-137 | a colour sequence takes no columns; what only looks like one does |
| `WrapLine.Wrap` | setup/lib/theme.ts:161-183 | the loop makes the rows of `Groups` |
| `WrapLine.GreedySplits` | setup/lib/theme.ts:167-180 | greedy rows hold the words in order and each fits or is one word |
| `WrapLine.GreedyFewest` | setup/lib/theme.ts:167-180 | no split into fitting rows has fewer rows |
| `WrapLine.KeepsWordsIff` | setup/lib/theme.ts:167-181 | the loop keeps all words exactly when every row begins with a visible word, or the last word is a colour sequence alone |
| `WrapLine.WrapIsBest` | setup/lib/theme.ts:161-183 | for visible words: all words in order, every printed row fits or is one word, fewest rows |
| `WrapLine.WrappedText` | setup/lib/theme.ts:161-183 | a line that fits is unchanged; a longer one of visible words comes out as the rows of `WrapIsBest` with line breaks between, and is the line again when those become spaces |
| `WrapLine.LenIsVisible` | setup/lib/theme.ts:135-137 | the columns counted word by word are the visible length of the joined row |
| `Migrations.CompareSemver` | scripts/run-migrations.ts:6-14 | the loop computes the comparison of the padded numbers |
| `Migrations.CompareIsLex` | scripts/run-migrations.ts:6-14 | its sign is the lexicographic order, its zero the equality of all numbers, missing ones being 0 |
| `Migrations.InRangeIs` | scripts/run-migrations.ts:62-66 | selected exactly when newer than the old version and no newer than the new one |
| `Migrations.VersionNameIs` | scripts/run-migrations.ts:59 | a version name is three runs of digits with dots between |
| `Migrations.DigitsIs` | scripts/run-migrations.ts:59 | where a run of digits is one or more of the ten |
| `Migrations.FoundCat` | scripts/run-migrations.ts:57-60 | the directory is gone through entry by entry, in order |
| `Migrations.FoundOne` | scripts/run-migrations.ts:58-60 | an entry counts exactly if it is a directory with a version name |
| `Migrations.LeTotal` | scripts/run-migrations.ts:6-14 | reflexive and total; both ways exactly when equal |
| `Migrations.LeTransitive` | scripts/run-migrations.ts:6-14 | transitive |
| `Migrations.SortUnique` | scripts/run-migrations.ts:67 | a stable sort has one result |
| `Migrations.SortIsStable` | scripts/run-migrations.ts:67 | insertion sort is one |
| `Migrations.TwoUpgradesAreOne` | scripts/run-migrations.ts:58-67 | upgrading a to b and b to c selects, in order, exactly the migrations of a to c |
| `Migrations.RunMigrations` | scripts/run-migrations.ts:71-99 | one result per selected migration, in order, under its name, with what became of it; a failure stops none of the later ones |
| `EnvMerge.ParseEnv` | setup/migrate-v2/env.ts:12-24 | the loop builds the insertion-ordered map of the last line of each key |
| `EnvMerge.ParsedGood` | setup/migrate-v2/env.ts:12-24 | keys are distinct and every kept line parses to its own entry again |
| `EnvMerge.EntryIs` | setup/migrate-v2/env.ts:14-21 | which lines count, and their key |
| `EnvMerge.NoEntryWithoutEquals` | setup/migrate-v2/env.ts:17-18 | a line without `=` is no entry |
| `EnvMerge.PutIs` | setup/migrate-v2/env.ts:21 | a known key keeps its place and takes the new line, a new one goes to the end |
| `EnvMerge.LastLineWins` | setup/migrate-v2/env.ts:12-24 | of several lines for one key the last one counts |
| `EnvMerge.Collect` | setup/migrate-v2/env.ts:51-58 | the loop copies exactly the entries whose keys v2 lacks |
| `EnvMerge.MergedText` | setup/migrate-v2/env.ts:60-64 | the text written |
| `EnvMerge.MergedIs` | setup/migrate-v2/env.ts:60-64 | the old text, ended by a line break; the heading unless the text has it; the new lines |
| `EnvMerge.Migrate` | setup/migrate-v2/env.ts:33-69 | writes nothing without a v1 file or without missing keys; counts add up |
| `EnvMerge.MergeParsesBack` | setup/migrate-v2/env.ts:51-66 | the merged file parses to v2's entries unchanged, then exactly v1's for the keys v2 lacked |
| `EnvMerge.SecondRunWritesNothing` | setup/migrate-v2/env.ts:1-9 | a second run finds nothing missing |
| `EnvFile.ReadEnvKey` | setup/environment.ts:18-36 | the scan finds the first line that defines the key |
| `EnvFile.UpsertEnvKey` | setup/environment.ts:42-59 | the edited lines, joined |
| `EnvFile.DefinitionIs` | setup/environment.ts:26-33 | the key is what stands before the first `=`, unless that is nothing or begins a comment |
| `EnvFile.DefinitionTrims` | setup/environment.ts:27-30 | white space around a line does not matter, and without `=` it defines nothing |
| `EnvFile.FirstDefinitionAnswers` | setup/environment.ts:26-34 | the first line that defines the key answers, trimmed, or nothing if it is empty |
| `EnvFile.ReplacedLines` | setup/environment.ts:51-58 | the first line of the key is replaced where it stands, no other line is touched |
| `EnvFile.AddedLines` | setup/environment.ts:54-58 | without one, the new line follows the last line that is not blank |
| `EnvFile.ReadAfterWrite` | setup/environment.ts:18-59 | a read after a write returns the value's first line, trimmed |
| `EnvFile.ReadsBackIff` | setup/environment.ts:18-59 | for all files, a value reads back exactly under the keys a line can define |
| `EnvFile.UpsertFrame` | setup/environment.ts:42-59 | no key changes that the new text's own lines do not define |
| `EnvFile.OtherKeysKept` | setup/environment.ts:42-59 | setting a valid key to one line leaves every other key alone |
| `Uninstall.BuildRemovalPlan` | setup/uninstall/plan.ts:54-130 | the pushes of all branches and loops, with the runtime items sorted, are `Plan` |
| `Uninstall.ServiceContents` | setup/uninstall/plan.ts:57-100 | exactly what the service group does, in terms of what was found |
| `Uninstall.ServiceCount` | setup/uninstall/plan.ts:57-100 | each of it once |
| `Uninstall.UnitNames` | setup/uninstall/plan.ts:59-81 | the units are unloaded by the names the scan looks for |
| `Uninstall.PlanBegins` | setup/uninstall/plan.ts:57-104 | the service group first and only if approved, then each chosen vault agent in order; with nothing chosen the plan is empty |
| `Uninstall.PlanData` | setup/uninstall/plan.ts:106-113 | the backup of the first .env, then every other item in order |
| `Uninstall.SortedIs` | setup/uninstall/plan.ts:119-126 | the sort keeps the order and moves node_modules to the end |
| `Uninstall.RemovesExactlyApproved` | setup/uninstall/plan.ts:102-127 | every path of an approved group is removed exactly as often as it is listed, and no other |
| `Uninstall.PlanStaged` | setup/uninstall/plan.ts:4-13 | no action comes before one of an earlier stage: stopping the host, its containers, image and command, the vault, the backup, paths, runtime paths |
| `Uninstall.UnitsUnloaded` | setup/uninstall/plan.ts:57-81 | exactly the unit files found are unloaded, each as what it is |
| `Uninstall.ModulesLastOfAll` | setup/uninstall/plan.ts:119-127 | the very last action removes node_modules when it is approved |
| `Uninstall.NamedIs` | setup/uninstall/plan.ts:108-124 | a path is node_modules, or .env, exactly when its last name is, whatever slash ends it |
| `Uninstall.EnvOnlyBackedUpIff` | setup/uninstall/plan.ts:106-113 | .env is never deleted bare exactly when the group has at most one |
| `Uninstall.BackupKeeps` | setup/uninstall/remove.ts:45-60 | the backup action keeps the text and an existing backup, wherever it fails |
| `Uninstall.BackedUpIs` | setup/uninstall/remove.ts:45-60 | what the backup action leaves, by where it fails |
| `Uninstall.PerformedIs` | setup/uninstall/remove.ts:23-195 | what one action does to a file: nothing when it throws first, an item goes with all under it, a completed backup moves .env aside |
| `Uninstall.RemovedStaysRemoved` | setup/uninstall/remove.ts:23-40 | a failing action stops none of the later ones: what a later one removes is gone |
| `Uninstall.OthersStay` | setup/uninstall/remove.ts:62-195 | a file that no action removes or backs up stays as it is |
| `Uninstall.EnvSurvives` | setup/uninstall/remove.ts:23-40 | whatever actions fail, the text of .env stays in it or in a copy beside it, for actions that leave those names alone |
| `Uninstall.ExistingCat` | setup/uninstall/scan.ts:262-278 | the scan lists a group entry by entry, in order |
| `Uninstall.ExistingOne` | setup/uninstall/scan.ts:262-278 | an entry is listed exactly when it is there, under its own path |
| `Uninstall.ScanIsScanned` | setup/uninstall/scan.ts:90-233 | what the scan lists, its service files by their names included, has the form the next two rows ask for |
| `Uninstall.PlanSpares` | setup/uninstall/plan.ts:54-130 | every action of a plan made from a scanned inventory leaves .env and its copies alone, or is their backup |
| `Uninstall.UninstallKeepsEnv` | setup/uninstall/flow.ts:218-233 | head and then tail of any plan from a scanned inventory, whatever fails: the text of .env is still there or in a copy |
| `Uninstall.BesideSpares` | setup/uninstall/scan.ts:108-124 | removing an entry of the project directory covers another exactly when it is the same entry |
| `Uninstall.HeadThenTail` | setup/uninstall/flow.ts:218-233 | the filtered head followed by the filtered tail is the plan in its order |

## Left out

- Fallback notices, typing indicators, question cards and permission checks inside `deliverMessage`: one send that succeeds or fails.
- A marking statement that throws after a successful send; it would count as a failed attempt. Crashes of the host likewise.
- Container arguments, mounts, provider choice and Docker itself: a setup that succeeds or throws.
- A database call that throws in the middle of a tick.
- The rest of the fallback module: notices, briefings, the switch of the install and the restart of other groups, the return probe. `HostSweep` takes what the hook finds of its state as given, and a write inside the hook that throws midway is not modelled.
- Recurrence and the closing of spent task sessions; sessions are never closed in `Router`.
- `writeOutboundDirect` and the numbering of rows.
- SQL text, journal modes and visibility across mounts: tables are maps and sequences.
- Random ids: a session's id is its place in the table, a lock's token is a parameter never drawn twice.
- JSON encoding of stored values, and more than one clock reading inside a call other than `get`.
- Message interceptors, sender resolution, channel-request escalation after the drop is recorded, and replies redirected by the CLI.
- The prototype chain of JavaScript objects, except that a field named `__proto__` is not set.
- UTF-16: lengths count characters, so a character outside the basic plane counts once.
- Version parts that are infinite; `Number` itself is a parameter.
- `wrapForGutter` and `fitToWidth`, which add only an easy member each; the terminal width is a parameter.
- The fragment reconciliation of `src/claude-md-compose.ts`, the flag parser of `setup/lib/setup-config-parse.ts` and skill links: independent of everything above.
- What each removal action runs besides removing files, and a partial removal of a directory tree.
- StateStore.TablesRefineStore: states the refinement for runs whose list deadlines never decrease, whose leases are not extended after they lapse and whose deadlines are never the number 0; `ListSeesCleanupIff`, `ExtendSeesCleanupIff` and `SetNewSeesCleanupIff` say exactly when each condition matters.
- StateTables.SqliteStateAdapter.GetValue: the stored text is returned as it is; parsing it is not modelled.
- Crc32.BuildTable: the index becomes a 32-bit word by a conversion, where the source keeps one number type.
