/**
 * Finite sequences of invocations of the retry cycle. The host scheduler
 * only decides when an invocation happens; what it does is fixed by the
 * state and the inputs, so a run is the fold of `Step` over the inputs.
 */
module Trace {
  import opened Events
  import opened RetryLoader
  import opened Applier

  /**
   * The fold of an invocation function over the inputs `ins`, in order.
   * `Run` below is this fold for `Step`; the generic form exists only so
   * that `RunAppend` is cheap to prove without unfolding `Step`.
   */
  function Iterate(step: (State, Input) -> Outcome, s: State, ins: seq<Input>): Outcome
    decreases |ins|
  {
    if |ins| == 0 then Outcome(s, [])
    else
      var p := Iterate(step, s, ins[..|ins| - 1]);
      var o := step(p.state, ins[|ins| - 1]);
      Outcome(o.state, p.events + o.events)
  }

  /** Dropping the last input of `a + b` drops the last input of `b`. */
  lemma LastOfAppend<T>(a: seq<T>, b: seq<T>)
    requires |b| > 0
    ensures (a + b)[..|a + b| - 1] == a + b[..|b| - 1]
    ensures (a + b)[|a + b| - 1] == b[|b| - 1]
  {
  }

  /** Running `a` then `b` is running `a + b`, whatever the invocation does. */
  lemma {:induction false} IterateAppend(step: (State, Input) -> Outcome, s: State, a: seq<Input>, b: seq<Input>)
    ensures Iterate(step, s, a + b).state == Iterate(step, Iterate(step, s, a).state, b).state
    ensures Iterate(step, s, a + b).events == Iterate(step, s, a).events + Iterate(step, Iterate(step, s, a).state, b).events
    decreases |b|
  {
    if |b| == 0 {
      assert a + b == a;
    } else {
      LastOfAppend(a, b);
      IterateAppend(step, s, a, b[..|b| - 1]);
    }
  }

  /** The task after the invocations `ins`, in order, starting from `s`. */
  function Run(s: State, ins: seq<Input>): (r: Outcome)
    ensures s.attempt <= r.state.attempt
    ensures s.cancelled ==> r.state.cancelled
    ensures s.cancelled ==> r.events == [] && r.state.attempt == s.attempt
    ensures Valid(s) ==> Valid(r.state)
    decreases |ins|
  {
    if |ins| == 0 then Outcome(s, [])
    else
      var p := Run(s, ins[..|ins| - 1]);
      StepOrder(p.state, ins[|ins| - 1]);
      var o := Step(p.state, ins[|ins| - 1]);
      Outcome(o.state, p.events + o.events)
  }

  /** Run is the fold of Step. */
  lemma {:induction false} RunIsIterate(s: State, ins: seq<Input>)
    ensures Run(s, ins) == Iterate(Step, s, ins)
    decreases |ins|
  {
    if |ins| > 0 {
      RunIsIterate(s, ins[..|ins| - 1]);
    }
  }

  /** Running `a` then `b` is running `a + b`. */
  lemma RunAppend(s: State, a: seq<Input>, b: seq<Input>)
    ensures Run(s, a + b).state == Run(Run(s, a).state, b).state
    ensures Run(s, a + b).events == Run(s, a).events + Run(Run(s, a).state, b).events
  {
    RunIsIterate(s, a + b);
    RunIsIterate(s, a);
    RunIsIterate(Run(s, a).state, b);
    IterateAppend(Step, s, a, b);
  }

  /** Every run from a fresh task stays within the reachable states. */
  lemma RunFromInitValid(ins: seq<Input>)
    ensures Valid(Run(Init, ins).state)
    ensures Run(Init, ins).state.attempt <= MAX_TRIES
  {
    assert Valid(Init);
  }

  /**
   * Fetches spend the budget: the fetches of a run plus what is left
   * afterwards never exceed what was available before.
   */
  lemma {:induction false} FetchBudget(s: State, ins: seq<Input>)
    requires Valid(s)
    ensures Count(Run(s, ins).events, FetchKind) + Budget(Run(s, ins).state) <= Budget(s)
    decreases |ins|
  {
    if |ins| > 0 {
      var p := Run(s, ins[..|ins| - 1]);
      var o := Step(p.state, ins[|ins| - 1]);
      FetchBudget(s, ins[..|ins| - 1]);
      StepBudget(p.state, ins[|ins| - 1]);
      CountAppend(p.events, o.events, FetchKind);
    }
  }

  /** A task performs at most MAX_TRIES storage calls over its whole life. */
  lemma AtMostMaxTriesFetches(ins: seq<Input>)
    ensures Count(Run(Init, ins).events, FetchKind) <= MAX_TRIES
  {
    FetchBudget(Init, ins);
  }

  /**
   * The task ends once: exactly one of logout, hand-off and give-up happens,
   * together with one cancellation of the schedule, precisely when the run
   * sets the latch.
   */
  lemma {:induction false} EndsOnce(s: State, ins: seq<Input>)
    ensures
      var r := Run(s, ins);
      && Count(r.events, LogoutKind) + Count(r.events, HandoffKind) + Count(r.events, GiveUpKind)
         == Count(r.events, CancelKind)
      && Count(r.events, CancelKind) == (if !s.cancelled && r.state.cancelled then 1 else 0)
    decreases |ins|
  {
    if |ins| > 0 {
      var p := Run(s, ins[..|ins| - 1]);
      var o := Step(p.state, ins[|ins| - 1]);
      EndsOnce(s, ins[..|ins| - 1]);
      StepCounts(p.state, ins[|ins| - 1]);
      forall k: Kind ensures Count(p.events + o.events, k) == Count(p.events, k) + Count(o.events, k) {
        CountAppend(p.events, o.events, k);
      }
    }
  }

  /** Hence a run hands the profile off at most once. */
  lemma HandoffAtMostOnce(s: State, ins: seq<Input>)
    ensures Count(Run(s, ins).events, HandoffKind) <= 1
    ensures Count(Run(s, ins).events, GiveUpKind) <= 1
  {
    EndsOnce(s, ins);
  }

  /**
   * After a hand-off the task is finished and its counter frozen at the
   * value the hand-off carried.
   */
  lemma {:induction false} HandoffFreezesAttempt(s: State, ins: seq<Input>, a: nat)
    requires ScheduleApply(a) in Run(s, ins).events
    ensures Run(s, ins).state.cancelled
    ensures Run(s, ins).state.attempt == a
    decreases |ins|
  {
    var p := Run(s, ins[..|ins| - 1]);
    var o := Step(p.state, ins[|ins| - 1]);
    assert ScheduleApply(a) in p.events + o.events;
    if ScheduleApply(a) in p.events {
      HandoffFreezesAttempt(s, ins[..|ins| - 1], a);
    } else {
      assert ScheduleApply(a) in o.events;
      StepOrder(p.state, ins[|ins| - 1]);
      StepCounts(p.state, ins[|ins| - 1]);
      CountZero(o.events, HandoffKind);
    }
  }

  /**
   * The apply task reads the task's counter when it runs, not when it is
   * submitted; whatever invocations happen in between, it sees the value
   * the hand-off carried.
   */
  lemma ApplySeesHandoffAttempt(s: State, pre: seq<Input>, post: seq<Input>, a: nat)
    requires ScheduleApply(a) in Run(s, pre).events
    ensures Run(s, pre + post).state.attempt == a
    ensures Run(s, pre + post).events == Run(s, pre).events
  {
    HandoffFreezesAttempt(s, pre, a);
    RunAppend(s, pre, post);
  }

  /** What a run from a fresh task has done, in terms of its counters. */
  predicate Consistent(r: Outcome)
  {
    var fetches := Count(r.events, FetchKind);
    var handoffs := Count(r.events, HandoffKind);
    var giveUps := Count(r.events, GiveUpKind);
    // every fetch either failed and was counted, or was handed off
    && fetches == r.state.attempt + handoffs
    // one progress notice per fetch after the first
    && Count(r.events, StartKind) + (if fetches > 0 then 1 else 0) == fetches
    && handoffs + giveUps <= 1
    && (handoffs + giveUps == 1 ==> r.state.cancelled)
    // the task gives up only after the whole budget has been spent
    && (giveUps == 1 ==> fetches == MAX_TRIES)
  }

  lemma {:induction false} RunFromInitConsistent(ins: seq<Input>)
    ensures Consistent(Run(Init, ins))
    decreases |ins|
  {
    if |ins| > 0 {
      var p := Run(Init, ins[..|ins| - 1]);
      var o := Step(p.state, ins[|ins| - 1]);
      RunFromInitConsistent(ins[..|ins| - 1]);
      StepCounts(p.state, ins[|ins| - 1]);
      forall k: Kind ensures Count(p.events + o.events, k) == Count(p.events, k) + Count(o.events, k) {
        CountAppend(p.events, o.events, k);
      }
    }
  }

  /** Giving up happens only after MAX_TRIES fetches, all of them failed. */
  lemma GiveUpAfterFullBudget(ins: seq<Input>)
    requires GiveUp in Run(Init, ins).events
    ensures Count(Run(Init, ins).events, FetchKind) == MAX_TRIES
    ensures Count(Run(Init, ins).events, HandoffKind) == 0
    ensures Run(Init, ins).state.attempt == MAX_TRIES
  {
    RunFromInitConsistent(ins);
    CountZero(Run(Init, ins).events, GiveUpKind);
  }

  /**
   * The counter the apply task reads is the number of progress notices the
   * player saw, so the success notice appears exactly when at least one
   * progress notice did.
   */
  lemma SuccessNoticeFollowsRetries(ins: seq<Input>, a: nat, showStats: bool)
    requires ScheduleApply(a) in Run(Init, ins).events
    ensures Count(Run(Init, ins).events, StartKind) == a
    ensures SuccessMsg in Apply(true, a, showStats) <==> Count(Run(Init, ins).events, StartKind) > 0
  {
    RunFromInitConsistent(ins);
    HandoffFreezesAttempt(Init, ins, a);
    CountZero(Run(Init, ins).events, HandoffKind);
    HandoffAtMostOnce(Init, ins);
  }

  /** After a run the lock is held exactly when its last invocation found the task cancelled. */
  lemma RunLock(s: State, ins: seq<Input>)
    ensures Run(s, ins).state.lockHeld ==
      (if |ins| == 0 then s.lockHeld else Run(s, ins[..|ins| - 1]).state.cancelled)
  {
    if |ins| > 0 {
      var p := Run(s, ins[..|ins| - 1]);
      assert Run(s, ins).state == Step(p.state, ins[|ins| - 1]).state;
    }
  }

  /**
   * The lock ends up held exactly when some invocation entered a task that
   * was already cancelled: the leak of the early return.
   */
  lemma LockHeldIffRanAfterCancel(s: State, ins: seq<Input>)
    requires !s.lockHeld
    ensures Run(s, ins).state.lockHeld <==>
      exists k :: 0 <= k < |ins| && Run(s, ins[..k]).state.cancelled
  {
    RunLock(s, ins);
    if |ins| > 0 {
      var n := |ins| - 1;
      forall k | 0 <= k < |ins| && Run(s, ins[..k]).state.cancelled
        ensures Run(s, ins[..n]).state.cancelled
      {
        PrefixLatch(s, ins, k, n);
      }
      if Run(s, ins[..n]).state.cancelled {
        assert 0 <= n < |ins| && Run(s, ins[..n]).state.cancelled;
      }
    }
  }

  /** Cancellation seen after a prefix is still seen after any longer prefix. */
  lemma PrefixLatch(s: State, ins: seq<Input>, j: nat, n: nat)
    requires j <= n <= |ins|
    requires Run(s, ins[..j]).state.cancelled
    ensures Run(s, ins[..n]).state.cancelled
  {
    assert ins[..j] + ins[j..n] == ins[..n];
    RunAppend(s, ins[..j], ins[j..n]);
  }

  /** Once leaked, the lock is never released by any later invocation. */
  lemma LeakedLockStaysHeld(s: State, pre: seq<Input>, post: seq<Input>)
    requires Valid(s)
    requires Run(s, pre).state.lockHeld
    ensures Run(s, pre + post).state.lockHeld
  {
    RunAppend(s, pre, post);
    var m := Run(s, pre).state;
    assert m.cancelled;
    RunLock(m, post);
  }

  /** The task with the early return corrected to release the lock. */
  function RunCorrected(s: State, ins: seq<Input>): (r: Outcome)
    ensures |ins| > 0 ==> !r.state.lockHeld
    decreases |ins|
  {
    if |ins| == 0 then Outcome(s, [])
    else
      var p := RunCorrected(s, ins[..|ins| - 1]);
      var o := StepCorrected(p.state, ins[|ins| - 1]);
      Outcome(o.state, p.events + o.events)
  }

  /**
   * The correction changes nothing but the lock: the corrected task emits
   * the same effects and keeps the same counter and latch, so every
   * property above holds of it, and it never leaves the lock held.
   */
  lemma {:induction false} CorrectedRunAgrees(s: State, ins: seq<Input>)
    ensures RunCorrected(s, ins).events == Run(s, ins).events
    ensures RunCorrected(s, ins).state.attempt == Run(s, ins).state.attempt
    ensures RunCorrected(s, ins).state.cancelled == Run(s, ins).state.cancelled
    ensures !s.lockHeld ==> !RunCorrected(s, ins).state.lockHeld
    decreases |ins|
  {
    if |ins| > 0 {
      var p := RunCorrected(s, ins[..|ins| - 1]);
      var q := Run(s, ins[..|ins| - 1]);
      CorrectedRunAgrees(s, ins[..|ins| - 1]);
      var i := ins[|ins| - 1];
      assert Step(p.state, i) == Step(q.state.(lockHeld := p.state.lockHeld), i);
      assert Step(p.state, i).events == Step(q.state, i).events;
    }
  }
}
