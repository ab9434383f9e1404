/**
 * The one-shot apply task that the retry cycle submits to the main thread
 * after a successful fetch.
 */
module Applier {

  /** One observable effect of the apply task. */
  datatype ApplyEvent =
    | Aborted     // info log: player logged out before the apply ran
    | Track       // session created, registered, respawn stamp set, scoreboard set up
    | SuccessMsg  // "recovery succeeded" message to the player
    | StatsBoard  // stats scoreboard enabled and its keep-alive task scheduled

  /**
   * The apply task, given whether the player is still online, the retry
   * counter it reads, and the show-stats-after-login configuration flag.
   */
  function Apply(online: bool, attempt: nat, showStats: bool): (r: seq<ApplyEvent>)
    // A departed player gets no session: only the abort is logged, once.
    ensures !online ==> r == [Aborted]
    // Otherwise the session is tracked exactly once, before anything else.
    ensures online ==> |r| > 0 && r[0] == Track && Track !in r[1..] && Aborted !in r
    ensures SuccessMsg in r <==> online && attempt > 0
    ensures StatsBoard in r <==> online && showStats
    // Each effect happens at most once: the session, the optional success
    // notice and the optional stats board, and nothing else.
    ensures online ==> |r| == 1 + (if attempt > 0 then 1 else 0) + (if showStats then 1 else 0)
    // The success notice, when shown, precedes the stats board.
    ensures forall j, k :: 0 <= j < |r| && 0 <= k < |r| && r[j] == SuccessMsg && r[k] == StatsBoard ==> j < k
  {
    if !online then [Aborted]
    else
      [Track]
      + (if attempt > 0 then [SuccessMsg] else [])
      + (if showStats then [StatsBoard] else [])
  }
}
