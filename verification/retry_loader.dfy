/**
 * The retry cycle of the profile-loading recovery task, one invocation at a
 * time. The task is a repeating background job; each invocation is a pure
 * step from the task's fields and what the world looks like at that moment
 * (is the player online, did this fetch load the profile) to the new fields
 * and the effects emitted.
 */
module RetryLoader {
  import opened Events

  /** The retry budget: the task gives up once this many fetches have failed. */
  const MAX_TRIES: nat := 5

  /** The task's mutable fields; `lockHeld` stands for its exclusive lock. */
  datatype State = State(attempt: nat, cancelled: bool, lockHeld: bool)

  /** What one invocation observes: player liveness and the fetch result. */
  datatype Input = Input(online: bool, loaded: bool)

  /** The fields after one or more invocations, and the effects emitted. */
  datatype Outcome = Outcome(state: State, events: seq<Event>)

  /** A freshly constructed task. */
  const Init := State(0, false, false)

  /** The states a task can reach from `Init` (proved in Trace.RunFromInitValid). */
  predicate Valid(s: State)
  {
    && s.attempt <= MAX_TRIES
    && (s.attempt == MAX_TRIES ==> s.cancelled)
    && (s.lockHeld ==> s.cancelled)
  }

  /** How many more fetches the task may still perform. */
  function Budget(s: State): nat
  {
    if s.cancelled || s.attempt >= MAX_TRIES then 0 else MAX_TRIES - s.attempt
  }

  /**
   * How the cycle body leaves the task once the lock has been taken:
   * new counter, new latch, effects, and whether this exit path unlocks.
   */
  datatype Exit = Exit(attempt: nat, cancelled: bool, events: seq<Event>, unlocks: bool)

  /** The progress notice shown before a retry, never before the first fetch. */
  function Notice(s: State): seq<Event>
  {
    if s.attempt > 0 then [StartMsg] else []
  }

  /** The effects from the storage call on, for a live task and an online player. */
  function AfterFetch(s: State, loaded: bool): seq<Event>
  {
    if loaded then [Fetch, ScheduleApply(s.attempt), CancelSchedule]
    else if s.attempt + 1 >= MAX_TRIES then [Fetch, GiveUp, CancelSchedule]
    else [Fetch]
  }

  /** The body of the cycle after the lock is acquired, branch by branch. */
  function Body(s: State, i: Input): Exit
  {
    if s.cancelled then
      Exit(s.attempt, true, [], false)
    else if !i.online then
      Exit(s.attempt, true, [Logout, CancelSchedule], true)
    else if i.loaded then
      Exit(s.attempt, true, Notice(s) + AfterFetch(s, true), true)
    else if s.attempt + 1 >= MAX_TRIES then
      Exit(s.attempt + 1, true, Notice(s) + AfterFetch(s, false), true)
    else
      Exit(s.attempt + 1, false, Notice(s) + AfterFetch(s, false), true)
  }

  /** True when the invocation gets as far as the storage call. */
  predicate Fetches(s: State, i: Input)
  {
    !s.cancelled && i.online
  }

  /** How many events of each kind a live, online invocation emits. */
  lemma LiveCounts(s: State, loaded: bool, k: Kind)
    ensures Count(Notice(s) + AfterFetch(s, loaded), k) ==
      (if s.attempt > 0 then Tally(StartMsg, k) else 0)
      + Tally(Fetch, k)
      + (if loaded then Tally(ScheduleApply(s.attempt), k) + Tally(CancelSchedule, k)
         else if s.attempt + 1 >= MAX_TRIES then Tally(GiveUp, k) + Tally(CancelSchedule, k)
         else 0)
  {
    CountAppend(Notice(s), AfterFetch(s, loaded), k);
    CountOne(StartMsg, k);
    CountOne(Fetch, k);
    if loaded {
      CountTriple(Fetch, ScheduleApply(s.attempt), CancelSchedule, k);
    } else {
      CountTriple(Fetch, GiveUp, CancelSchedule, k);
    }
  }

  /**
   * One invocation of the task as written: acquire the lock, run the body.
   * What it does to the fields is stated here; what it emits, in
   * StepCounts and StepOrder.
   */
  function Step(s: State, i: Input): (r: Outcome)
    // An already-cancelled task is inert: no field changes.
    ensures s.cancelled ==> r.state.attempt == s.attempt && r.state.cancelled
    // A logged-out player ends the task and leaves the counter alone.
    ensures !s.cancelled && !i.online ==> r.state.attempt == s.attempt && r.state.cancelled
    // A loaded profile ends the task and leaves the counter alone.
    ensures Fetches(s, i) && i.loaded ==> r.state.attempt == s.attempt && r.state.cancelled
    // A failed fetch costs exactly one attempt, and ends the task exactly
    // when it exhausts the budget.
    ensures Fetches(s, i) && !i.loaded ==> r.state.attempt == s.attempt + 1
    ensures Fetches(s, i) && !i.loaded ==> (r.state.cancelled <==> s.attempt + 1 >= MAX_TRIES)
    // Every exit unlocks except the already-cancelled early return.
    ensures r.state.lockHeld <==> s.cancelled
    ensures Valid(s) ==> Valid(r.state)
  {
    var x := Body(s.(lockHeld := true), i);
    Outcome(State(x.attempt, x.cancelled, !x.unlocks), x.events)
  }

  /** How many events of each kind the body emits, branch by branch. */
  lemma BodyCounts(s: State, i: Input)
    ensures Count(Body(s, i).events, LogoutKind) == (if !s.cancelled && !i.online then 1 else 0)
    ensures Count(Body(s, i).events, FetchKind) == (if Fetches(s, i) then 1 else 0)
    ensures Count(Body(s, i).events, StartKind) == (if Fetches(s, i) && s.attempt > 0 then 1 else 0)
    ensures Count(Body(s, i).events, HandoffKind) == (if Fetches(s, i) && i.loaded then 1 else 0)
    ensures Count(Body(s, i).events, GiveUpKind) ==
      (if Fetches(s, i) && !i.loaded && s.attempt + 1 >= MAX_TRIES then 1 else 0)
    ensures Count(Body(s, i).events, CancelKind) == (if !s.cancelled && Body(s, i).cancelled then 1 else 0)
  {
    if !s.cancelled && !i.online {
      forall k: Kind ensures Count([Logout, CancelSchedule], k) == Tally(Logout, k) + Tally(CancelSchedule, k) {
        CountPair(Logout, CancelSchedule, k);
      }
    } else if Fetches(s, i) {
      forall k: Kind {
        LiveCounts(s, i.loaded, k);
      }
    }
  }

  /**
   * How many events of each kind one invocation emits: one fetch exactly
   * when the task is live and the player online, one hand-off exactly when
   * that fetch loaded, one give-up exactly when it failed for the last
   * time, one cancellation exactly when the latch is set.
   */
  lemma StepCounts(s: State, i: Input)
    ensures Count(Step(s, i).events, LogoutKind) == (if !s.cancelled && !i.online then 1 else 0)
    ensures Count(Step(s, i).events, FetchKind) == (if Fetches(s, i) then 1 else 0)
    ensures Count(Step(s, i).events, StartKind) == (if Fetches(s, i) && s.attempt > 0 then 1 else 0)
    ensures Count(Step(s, i).events, HandoffKind) == (if Fetches(s, i) && i.loaded then 1 else 0)
    ensures Count(Step(s, i).events, GiveUpKind) ==
      (if Fetches(s, i) && !i.loaded && s.attempt + 1 >= MAX_TRIES then 1 else 0)
    ensures Count(Step(s, i).events, CancelKind) ==
      (if !s.cancelled && Step(s, i).state.cancelled then 1 else 0)
  {
    var s' := s.(lockHeld := true);
    BodyCounts(s', i);
    assert Step(s, i).events == Body(s', i).events;
    assert Step(s, i).state.cancelled == Body(s', i).cancelled;
  }

  /** A storage call spends one unit of the remaining budget. */
  lemma StepBudget(s: State, i: Input)
    requires Valid(s)
    ensures Count(Step(s, i).events, FetchKind) + Budget(Step(s, i).state) <= Budget(s)
  {
    StepCounts(s, i);
  }

  /**
   * The shape of what one invocation emits: nothing once cancelled; the
   * progress notice, when shown, immediately before the storage call; and
   * a hand-off carrying the counter as it stood when the fetch loaded.
   */
  lemma StepOrder(s: State, i: Input)
    ensures s.cancelled ==> Step(s, i).events == []
    ensures StartMsg in Step(s, i).events ==>
      |Step(s, i).events| > 1 && Step(s, i).events[0] == StartMsg && Step(s, i).events[1] == Fetch
    ensures Fetches(s, i) && i.loaded ==> ScheduleApply(s.attempt) in Step(s, i).events
    ensures forall a :: ScheduleApply(a) in Step(s, i).events ==> a == s.attempt
  {
    var evs := Step(s, i).events;
    if Fetches(s, i) {
      var tail := AfterFetch(s, i.loaded);
      assert evs == Notice(s) + tail;
      assert tail[0] == Fetch;
      if s.attempt > 0 {
        assert evs == [StartMsg] + tail;
      } else {
        assert evs == tail;
        StepCounts(s, i);
        CountZero(evs, StartKind);
      }
      forall a | ScheduleApply(a) in evs ensures a == s.attempt {
        if s.attempt > 0 {
          assert evs == [StartMsg] + tail;
        }
      }
    } else {
      assert evs == [] || evs == [Logout, CancelSchedule];
    }
  }

  /**
   * The early return for an already-cancelled task leaves the lock held,
   * even when it was free on entry, and does nothing else; every exit of a
   * live task releases it.
   */
  lemma AlreadyCancelledLeaksLock(s: State, i: Input)
    requires s.cancelled && !s.lockHeld
    ensures Step(s, i).state.lockHeld
    ensures Step(s, i).events == [] && Step(s, i).state.attempt == s.attempt
    ensures forall t: State :: !t.cancelled ==> !Step(t, i).state.lockHeld
  {
  }

  /** The invocation with the missing unlock added to the early return. */
  function StepCorrected(s: State, i: Input): (r: Outcome)
    ensures !r.state.lockHeld
    ensures r.events == Step(s, i).events
    ensures r.state.attempt == Step(s, i).state.attempt
    ensures r.state.cancelled == Step(s, i).state.cancelled
  {
    var x := Body(s.(lockHeld := true), i);
    Outcome(State(x.attempt, x.cancelled, false), x.events)
  }
}
