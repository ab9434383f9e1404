# Profile-loading recovery task, modelled in Dafny

This project models mcMMO's `PlayerProfileLoadingTask`. The task is a
repeating background job that re-attempts loading a player's profile from
the database when the load at login did not produce a usable profile.
Each invocation of `run()` does the following:

- takes the task's lock;
- returns at once if the task is already cancelled;
- stops if the player has logged out;
- shows a "recovery in progress" notice on every attempt but the first;
- fetches the profile.

A loaded profile is handed to a one-shot `ApplySuccessfulProfile` task on
the main thread. A failed fetch increments `attempt`. After `MAX_TRIES = 5`
failures the task gives up with a severe log, an admin broadcast and a
failure message to the player. The apply task then does four things:

- tracks a new `McMMOPlayer`;
- sets up the scoreboard;
- shows a success notice if `attempt > 0`;
- optionally enables the stats board.

The model is functional:

- `Events` defines the observable effects (`Logout`, `StartMsg`, `Fetch`,
  `ScheduleApply(attempt)`, `GiveUp`, `CancelSchedule`) and counts them.
- `RetryLoader` defines the task's fields (`attempt`, `cancelled`, and
  `lockHeld` for the lock), the constant `MAX_TRIES`, and `Step`. `Step` is
  one invocation of `run()` as a pure function from fields and inputs
  (player online? fetch loaded?) to new fields and emitted events.
- `Applier` models `ApplySuccessfulProfile.run()` as a pure function of the
  online flag, the `attempt` value it reads and the show-stats
  configuration flag.
- `Trace` folds `Step` over arbitrary finite input sequences. It proves
  the properties of a whole recovery: the budget, the latch, the
  exactly-once hand-off and the lock leak.
- `Scenarios` runs a few concrete recoveries from a fresh task.

Two points about the code shape the model:

- Every exit of `run()` releases the lock except the early return for an
  already-cancelled task at lines 36-37 (see Findings).
- `ApplySuccessfulProfile` reads the outer task's `attempt` field when it
  runs (line 101), not a copy taken at hand-off.
  `Trace.ApplySeesHandoffAttempt` proves that the two agree: after the
  hand-off no invocation changes `attempt` again.

## Model

All source cells refer to `src/main/java/com/gmail/nossr50/runnables/player/PlayerProfileLoadingTask.java`.

| member | source | states |
|---|---|---|
| RetryLoader.Step | src/main/java/com/gmail/nossr50/runnables/player/PlayerProfileLoadingTask.java:33-78 | an already-cancelled task keeps its counter and latch; a logged-out player sets the latch without changing the counter; a loaded fetch sets the latch and keeps the counter; a failed fetch adds exactly one to the counter and sets the latch exactly when the counter reaches `MAX_TRIES`; the lock stays held exactly on the already-cancelled exit; reachable states stay reachable |
| RetryLoader.StepCounts | src/main/java/com/gmail/nossr50/runnables/player/PlayerProfileLoadingTask.java:36-76 | one invocation emits: a logout log exactly when live and the player is offline; one fetch exactly when live and online; the progress notice exactly when it fetches with `attempt > 0`; one hand-off exactly when the fetch loaded; one give-up exactly when a failed fetch reaches `MAX_TRIES`; one schedule cancellation exactly when it sets the latch |
| RetryLoader.StepOrder | src/main/java/com/gmail/nossr50/runnables/player/PlayerProfileLoadingTask.java:36-62 | a cancelled task emits nothing; whenever the progress notice is emitted it is the first event and the fetch is the second; a loaded fetch emits a hand-off carrying the current `attempt`, and every hand-off carries exactly that value |
| RetryLoader.StepBudget | src/main/java/com/gmail/nossr50/runnables/player/PlayerProfileLoadingTask.java:54-76 | from a reachable state, the invocation's fetches plus the remaining budget never exceed the budget before it |
| RetryLoader.AlreadyCancelledLeaksLock | src/main/java/com/gmail/nossr50/runnables/player/PlayerProfileLoadingTask.java:34-38 | an invocation on any cancelled task whose lock was free ends with the lock held, emits nothing and keeps the counter; an invocation on a live task always ends with the lock free |
| RetryLoader.StepCorrected | src/main/java/com/gmail/nossr50/runnables/player/PlayerProfileLoadingTask.java:34-77 | with the missing unlock added, every exit leaves the lock free, and the events, counter and latch are those of the task as written |
| Applier.Apply | src/main/java/com/gmail/nossr50/runnables/player/PlayerProfileLoadingTask.java:90-109 | an offline player yields exactly the one abort log and is not tracked; otherwise the player is tracked exactly once, first, and the result holds one event per effect, so the success notice and the stats board each occur at most once; the success notice appears iff online and `attempt > 0`; the stats board appears iff online and the config flag is set; the notice precedes the board |
| Trace.Run | src/main/java/com/gmail/nossr50/runnables/player/PlayerProfileLoadingTask.java:33-78 | over any sequence of invocations the counter never decreases; once cancelled, the task emits nothing more and keeps its counter and latch; reachable states stay reachable |
| Trace.RunFromInitValid | src/main/java/com/gmail/nossr50/runnables/player/PlayerProfileLoadingTask.java:20-24 | from a freshly constructed task the counter never exceeds `MAX_TRIES`, reaching it only once cancelled, and a held lock implies cancelled |
| Trace.FetchBudget | src/main/java/com/gmail/nossr50/runnables/player/PlayerProfileLoadingTask.java:54-76 | over any run from a reachable state, the fetches plus the budget left afterwards never exceed the budget before |
| Trace.AtMostMaxTriesFetches | src/main/java/com/gmail/nossr50/runnables/player/PlayerProfileLoadingTask.java:54-76 | a task performs at most `MAX_TRIES` storage calls over any sequence of invocations |
| Trace.EndsOnce | src/main/java/com/gmail/nossr50/runnables/player/PlayerProfileLoadingTask.java:41-76 | over any run, logouts plus hand-offs plus give-ups equal schedule cancellations; there is one cancellation if the run sets the latch and none otherwise |
| Trace.HandoffAtMostOnce | src/main/java/com/gmail/nossr50/runnables/player/PlayerProfileLoadingTask.java:56-76 | over any run there is at most one hand-off and at most one give-up |
| Trace.HandoffFreezesAttempt | src/main/java/com/gmail/nossr50/runnables/player/PlayerProfileLoadingTask.java:56-62 | after a run that contains `ScheduleApply(a)`, the task is cancelled and its counter is `a` |
| Trace.ApplySeesHandoffAttempt | src/main/java/com/gmail/nossr50/runnables/player/PlayerProfileLoadingTask.java:101-103 | whatever invocations follow a hand-off of `a`, the counter the apply task reads is still `a` and no further events occur |
| Trace.RunFromInitConsistent | src/main/java/com/gmail/nossr50/runnables/player/PlayerProfileLoadingTask.java:50-76 | from a fresh task: fetches = counter + hand-offs; one progress notice per fetch after the first; at most one of hand-off and give-up, either of which leaves the task cancelled; a give-up comes only after `MAX_TRIES` fetches |
| Trace.GiveUpAfterFullBudget | src/main/java/com/gmail/nossr50/runnables/player/PlayerProfileLoadingTask.java:65-76 | a run from a fresh task that gives up has performed exactly `MAX_TRIES` fetches and no hand-off, and its counter is `MAX_TRIES` |
| Trace.SuccessNoticeFollowsRetries | src/main/java/com/gmail/nossr50/runnables/player/PlayerProfileLoadingTask.java:101-103 | after a hand-off of `a` from a fresh task, the player has seen exactly `a` progress notices, so the success notice appears iff at least one progress notice did |
| Trace.LockHeldIffRanAfterCancel | src/main/java/com/gmail/nossr50/runnables/player/PlayerProfileLoadingTask.java:34-38 | starting with the lock free, a run ends with it held iff some invocation of the run entered an already-cancelled task |
| Trace.LeakedLockStaysHeld | src/main/java/com/gmail/nossr50/runnables/player/PlayerProfileLoadingTask.java:34-37 | once the lock has leaked, no later invocation releases it |
| Trace.RunCorrected | src/main/java/com/gmail/nossr50/runnables/player/PlayerProfileLoadingTask.java:34-77 | with the corrected early return, any non-empty run ends with the lock free |
| Trace.CorrectedRunAgrees | src/main/java/com/gmail/nossr50/runnables/player/PlayerProfileLoadingTask.java:34-77 | the corrected run emits the same events and reaches the same counter and latch as the task as written, so every trace property carries over, and the lock is never left held |
| Scenarios.FirstTrySuccess | src/main/java/com/gmail/nossr50/runnables/player/PlayerProfileLoadingTask.java:50-62 | a first fetch that loads shows no progress notice, hands off with counter 0, and the apply shows no success notice |
| Scenarios.SuccessOnFourthTry | src/main/java/com/gmail/nossr50/runnables/player/PlayerProfileLoadingTask.java:50-68 | three failures then a load give three progress notices, a hand-off with counter 3 and a success notice |
| Scenarios.FiveFailures | src/main/java/com/gmail/nossr50/runnables/player/PlayerProfileLoadingTask.java:34-76 | five failures give one give-up and leave the task cancelled at 5; a sixth invocation emits nothing but leaves the lock held |
| Scenarios.DisconnectAfterTwoFailures | src/main/java/com/gmail/nossr50/runnables/player/PlayerProfileLoadingTask.java:41-47 | a logout after two failed fetches stops the task at counter 2 with only the logout log |
| Scenarios.LeftBeforeApply | src/main/java/com/gmail/nossr50/runnables/player/PlayerProfileLoadingTask.java:91-94 | an apply for a player who has left only logs the abort |

## Left out

- Bukkit scheduling is left out because it is host plumbing. This covers `runTask`, `runTaskLater`, the repeating schedule and `cancel()` on `BukkitRunnable`. A submitted apply task is the `ScheduleApply` event, and `cancel()` is the `CancelSchedule` event. When an invocation happens is the choice of the input sequence.
- Threads and the `ReentrantLock`'s blocking and reentrancy are left out; the lock is a boolean `lockHeld`. Acquiring it always succeeds in the model. In the running server, a leaked lock would block any later invocation made on another thread.
- Exceptions are not modelled. `run()` has no `try/finally` between `lock.lock()` (line 34) and its unlocks. An unchecked exception from `loadPlayerProfile`, `runTask`, `cancel()` or `sendMessage` would therefore also leave the lock held, with `cancelled` still false. The model covers only normal returns.
- `loadPlayerProfile` is an input, `Input.loaded`, because it is database I/O. Its recovery-mode argument plays no part here.
- `Player.isOnline()` is the input `Input.online` to each invocation, and the `online` parameter of `Apply`.
- `UserManager.track`, `McMMOPlayer.actualizeRespawnATS`, `ScoreboardManager.setupPlayer`, `ScoreboardManager.enablePlayerStatsScoreboard` and `McScoreboardKeepTask` are external collaborators with no visible logic. The first three are the single `Track` event. The last two are the single `StatsBoard` event, and the keep task's one-second delay is not modelled.
- Locale strings, the `split("\n")` of the failure message, and the texts of the logs and of the admin broadcast are left out. Only whether an effect happens is modelled. The severe log, the admin broadcast and the failure message always occur together, so they are the one `GiveUp` event.
- `attempt` is a Java `int` but is modelled as a `nat` without 32-bit wrap-around. `Trace.RunFromInitValid` proves that it never exceeds 5 from a fresh task, so the wrap-around cannot occur.

## Findings

| source | as written | input that shows it | evidently intended | confidence | as-written member | corrected member |
|---|---|---|---|---|---|---|
| src/main/java/com/gmail/nossr50/runnables/player/PlayerProfileLoadingTask.java:34-38 | `run()` returns while still holding the lock when `cancelled` is already true; every other normal return calls `lock.unlock()` | any invocation that enters a task whose `cancelled` is true, e.g. an overlapping run that was waiting on the lock while the previous run cancelled the task; the model ends with `lockHeld` true (`Trace.LockHeldIffRanAfterCancel`, `Scenarios.FiveFailures`) and no later invocation releases it (`Trace.LeakedLockStaysHeld`) | release the lock before the early return, like every other exit | medium, not executed | RetryLoader.AlreadyCancelledLeaksLock | RetryLoader.StepCorrected |
