/**
 * Concrete recoveries: particular input sequences run from a fresh task,
 * with the effects they produce.
 */
module Scenarios {
  import opened Events
  import opened RetryLoader
  import opened Applier
  import opened Trace

  const Loaded := Input(true, true)
  const Failed := Input(true, false)
  const Offline := Input(false, false)

  /** First fetch loads: no progress notice, one hand-off with counter 0, no success notice. */
  lemma FirstTrySuccess(showStats: bool)
    ensures Run(Init, [Loaded]).events == [Fetch, ScheduleApply(0), CancelSchedule]
    ensures Run(Init, [Loaded]).state == State(0, true, false)
    ensures SuccessMsg !in Apply(true, 0, showStats)
  {
    assert [Loaded][..0] == [];
  }

  /**
   * Three failures then a load: a progress notice before each of the last
   * three fetches, a hand-off with counter 3, and a success notice.
   */
  lemma SuccessOnFourthTry(showStats: bool)
    ensures Run(Init, [Failed, Failed, Failed, Loaded]).events ==
      [Fetch, StartMsg, Fetch, StartMsg, Fetch, StartMsg, Fetch, ScheduleApply(3), CancelSchedule]
    ensures SuccessMsg in Apply(true, 3, showStats)
  {
    var ins := [Failed, Failed, Failed, Loaded];
    assert ins[..3] == [Failed, Failed, Failed];
    assert ins[..3][..2] == [Failed, Failed];
    assert ins[..3][..2][..1] == [Failed];
    assert ins[..3][..2][..1][..0] == [];
    assert Run(Init, [Failed]).state == State(1, false, false);
    assert Run(Init, [Failed, Failed]).state == State(2, false, false);
    assert Run(Init, [Failed, Failed, Failed]).state == State(3, false, false);
  }

  /**
   * Five failures: one give-up after the fifth fetch; a sixth invocation
   * does nothing but leaves the lock held.
   */
  lemma FiveFailures()
    ensures Run(Init, [Failed, Failed, Failed, Failed, Failed]).state == State(5, true, false)
    ensures Count(Run(Init, [Failed, Failed, Failed, Failed, Failed]).events, GiveUpKind) == 1
    ensures Run(Init, [Failed, Failed, Failed, Failed, Failed, Failed]).events ==
      Run(Init, [Failed, Failed, Failed, Failed, Failed]).events
    ensures Run(Init, [Failed, Failed, Failed, Failed, Failed, Failed]).state == State(5, true, true)
  {
    var five := [Failed, Failed, Failed, Failed, Failed];
    var six := five + [Failed];
    assert [Failed, Failed, Failed, Failed, Failed, Failed] == six;
    assert six[..5] == five;
    assert five[..4] == [Failed, Failed, Failed, Failed];
    assert five[..4][..3] == [Failed, Failed, Failed];
    assert five[..4][..3][..2] == [Failed, Failed];
    assert five[..4][..3][..2][..1] == [Failed];
    assert five[..4][..3][..2][..1][..0] == [];
    assert Run(Init, [Failed]).state == State(1, false, false);
    assert Run(Init, [Failed, Failed]).state == State(2, false, false);
    assert Run(Init, [Failed, Failed, Failed]).state == State(3, false, false);
    assert Run(Init, [Failed, Failed, Failed, Failed]).state == State(4, false, false);
    assert Run(Init, five).state == State(5, true, false);
    var last := Step(State(4, false, false), Failed).events;
    assert last == [StartMsg, Fetch, GiveUp, CancelSchedule];
    assert Run(Init, five).events == Run(Init, five[..4]).events + last;
    assert GiveUp in Run(Init, five).events;
    CountZero(Run(Init, five).events, GiveUpKind);
    HandoffAtMostOnce(Init, five);
  }

  /** A disconnect after two failed fetches stops the task at counter 2 with only the logout log. */
  lemma DisconnectAfterTwoFailures()
    ensures Run(Init, [Failed, Failed, Offline]).state == State(2, true, false)
    ensures Run(Init, [Failed, Failed, Offline]).events ==
      [Fetch, StartMsg, Fetch, Logout, CancelSchedule]
  {
    var ins := [Failed, Failed, Offline];
    assert ins[..2] == [Failed, Failed];
    assert ins[..2][..1] == [Failed];
    assert ins[..2][..1][..0] == [];
    assert Run(Init, [Failed]).state == State(1, false, false);
    assert Run(Init, [Failed, Failed]).state == State(2, false, false);
  }

  /** A player who leaves before the apply task runs gets no session. */
  lemma LeftBeforeApply(attempt: nat, showStats: bool)
    ensures Apply(false, attempt, showStats) == [Aborted]
  {
  }
}
