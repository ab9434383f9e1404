/** Observable effects of the profile-loading recovery task, and counting them. */
module Events {

  /** One observable effect of an invocation of the retry cycle, in emission order. */
  datatype Event =
    | Logout                      // info log: player logged out, recovery aborted
    | StartMsg                    // "recovery in progress" message to the player
    | Fetch                       // one synchronous call into the storage layer
    | ScheduleApply(attempt: nat) // apply task submitted to the main thread
    | GiveUp                      // severe log, admin broadcast and failure message
    | CancelSchedule              // the repeating task cancels its own schedule

  /** The constructor of an event, forgetting its payload. */
  datatype Kind = LogoutKind | StartKind | FetchKind | HandoffKind | GiveUpKind | CancelKind

  function KindOf(e: Event): Kind
  {
    match e
    case Logout => LogoutKind
    case StartMsg => StartKind
    case Fetch => FetchKind
    case ScheduleApply(_) => HandoffKind
    case GiveUp => GiveUpKind
    case CancelSchedule => CancelKind
  }

  /** One if `e` is of kind `k`, zero otherwise. */
  function Tally(e: Event, k: Kind): nat
  {
    if KindOf(e) == k then 1 else 0
  }

  /** The number of events of kind `k` in `evs`. */
  function Count(evs: seq<Event>, k: Kind): (n: nat)
    ensures n <= |evs|
  {
    if |evs| == 0 then 0
    else Tally(evs[0], k) + Count(evs[1..], k)
  }

  /** An event log has no event of kind `k` exactly when its count is zero. */
  lemma {:induction false} CountZero(evs: seq<Event>, k: Kind)
    ensures Count(evs, k) == 0 <==> forall e :: e in evs ==> KindOf(e) != k
    decreases |evs|
  {
    if |evs| > 0 {
      CountZero(evs[1..], k);
      assert forall e :: e in evs <==> e == evs[0] || e in evs[1..];
    }
  }

  /** The count of a one-event log. */
  lemma CountOne(a: Event, k: Kind)
    ensures Count([a], k) == Tally(a, k)
  {
    assert [a][1..] == [];
  }

  /** The count of a two-event log, event by event. */
  lemma CountPair(a: Event, b: Event, k: Kind)
    ensures Count([a, b], k) == Tally(a, k) + Tally(b, k)
  {
    assert [a, b][1..] == [b];
    CountOne(b, k);
  }

  /** The count of a three-event log, event by event. */
  lemma CountTriple(a: Event, b: Event, c: Event, k: Kind)
    ensures Count([a, b, c], k) == Tally(a, k) + Tally(b, k) + Tally(c, k)
  {
    assert [a, b, c][1..] == [b, c];
    CountPair(b, c, k);
  }

  /** Counting distributes over concatenation of event logs. */
  lemma {:induction false} CountAppend(a: seq<Event>, b: seq<Event>, k: Kind)
    ensures Count(a + b, k) == Count(a, k) + Count(b, k)
    decreases |a|
  {
    if |a| == 0 {
      assert a + b == b;
    } else {
      assert (a + b)[0] == a[0];
      assert (a + b)[1..] == a[1..] + b;
      CountAppend(a[1..], b, k);
    }
  }
}
