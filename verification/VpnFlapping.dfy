/** The flap counters the repository maintains agree with flapping as defined on the whole log. */
module VpnFlapping {
  import opened Wrappers
  import opened Vpn
  import opened VpnObserved
  import opened VpnRepository
  import opened VpnRuns

  /** Whether the log, as it stood at the latest observation, was flapping then. */
  ghost function FlapFlag(events: seq<TunnelEvent>, threshold: int, windowSeconds: int): bool {
    if events == [] then false
    else
      match events[|events| - 1]
      case Seen(at, _) => IsFlapping(After(events, threshold, windowSeconds).log, threshold, windowSeconds, at)
      case Pruned(_) => FlapFlag(events[..|events| - 1], threshold, windowSeconds)
  }

  /** How often the flag went from down to up between consecutive observations. */
  ghost function RisingEdges(events: seq<TunnelEvent>, threshold: int, windowSeconds: int): nat {
    if events == [] then 0
    else
      var front := events[..|events| - 1];
      RisingEdges(front, threshold, windowSeconds)
      + if events[|events| - 1].Seen? && Observations(front) != []
           && FlapFlag(events, threshold, windowSeconds) && !FlapFlag(front, threshold, windowSeconds) then 1 else 0
  }

  lemma {:induction false} RecentCountIsWindowCount(log: seq<TunnelTransition>, lo: int, hi: int)
    requires forall j :: 0 <= j < |log| ==> log[j].changedAt <= hi
    ensures |Between(log, lo, hi)| == RecentCount(log, lo)
  {
    if log != [] {
      var front := log[..|log| - 1];
      RecentCountIsWindowCount(front, lo, hi);
      BetweenAppend(front, log[|log| - 1], lo, hi);
      assert log == front + [log[|log| - 1]];
    }
  }

  lemma {:induction false} LaterWindowCountsLess(log: seq<TunnelTransition>, since: int, later: int)
    requires since <= later
    ensures RecentCount(log, later) <= RecentCount(log, since)
  {
    if log != [] {
      LaterWindowCountsLess(log[..|log| - 1], since, later);
    }
  }

  lemma {:induction false} PruningCountsLess(log: seq<TunnelTransition>, cutoff: int, since: int)
    ensures RecentCount(Retained(log, cutoff), since) <= RecentCount(log, since)
  {
    if log != [] {
      var front, last := log[..|log| - 1], log[|log| - 1];
      PruningCountsLess(front, cutoff, since);
      var kept := Retained(front, cutoff);
      assert (kept + [last])[..|kept|] == kept;
    }
  }

  /** The row's flag is the pure definition on the whole log, its count is the number of
      rising edges, and between observations the window can only lose transitions. */
  ghost predicate FlapStateHolds(events: seq<TunnelEvent>, threshold: int, windowSeconds: int) {
    var view := After(events, threshold, windowSeconds);
    match view.row
    case None => RisingEdges(events, threshold, windowSeconds) == 0
    case Some(row) =>
      && row.isFlapping == FlapFlag(events, threshold, windowSeconds)
      && row.flapCount == RisingEdges(events, threshold, windowSeconds)
      && (RecentCount(view.log, WindowStart(row.lastSeenAt, windowSeconds)) >= threshold ==> row.isFlapping)
  }

  lemma LogEndsByLastObservation(events: seq<TunnelEvent>, threshold: int, windowSeconds: int,
                                 log: seq<TunnelTransition>, at: int)
    requires Increasing(Observations(events)) && Observations(events) != []
    requires log == After(events, threshold, windowSeconds).log
    requires at == Observations(events)[|Observations(events)| - 1].at
    ensures forall j :: 0 <= j < |log| ==> log[j].changedAt <= at
  {
    var obs := Observations(events);
    var k := HistoryMeaning(events, threshold, windowSeconds);
    var all := TransitionsOf(obs);
    TransitionsAreChained(obs);
    ChainTimesIncrease(all, obs[0].status);
    forall j | 0 <= j < |log| ensures log[j].changedAt <= at {
      assert log[j] == all[k + j];
      assert k + j < |all| - 1 ==> all[k + j].changedAt < all[|all| - 1].changedAt;
    }
  }

  lemma PureFlagIsCount(events: seq<TunnelEvent>, threshold: int, windowSeconds: int)
    requires events != [] && events[|events| - 1].Seen? && Increasing(Observations(events)) && windowSeconds >= 1
    ensures FlapFlag(events, threshold, windowSeconds)
        <==> RecentCount(After(events, threshold, windowSeconds).log,
                         WindowStart(events[|events| - 1].at, windowSeconds)) >= threshold
  {
    var at, log := events[|events| - 1].at, After(events, threshold, windowSeconds).log;
    LogEndsByLastObservation(events, threshold, windowSeconds, log, at);
    RecentCountIsWindowCount(log, WindowStart(at, windowSeconds), at);
  }

  lemma {:induction false} FlapCountersAreExact(events: seq<TunnelEvent>, threshold: int, windowSeconds: int)
    requires Increasing(Observations(events)) && windowSeconds >= 1
    ensures FlapStateHolds(events, threshold, windowSeconds)
  {
    if events != [] {
      var front, last := events[..|events| - 1], events[|events| - 1];
      IncreasingFront(events);
      FlapCountersAreExact(front, threshold, windowSeconds);
      match last {
        case Seen(at, status) => SeenKeepsFlapState(events, threshold, windowSeconds);
        case Pruned(cutoff) =>
          var before := After(front, threshold, windowSeconds);
          if before.row.Some? {
            PruningCountsLess(before.log, cutoff, WindowStart(before.row.value.lastSeenAt, windowSeconds));
          }
      }
    }
  }

  lemma SeenKeepsFlapState(events: seq<TunnelEvent>, threshold: int, windowSeconds: int)
    requires events != [] && events[|events| - 1].Seen? && Increasing(Observations(events)) && windowSeconds >= 1
    requires Increasing(Observations(events[..|events| - 1]))
    requires FlapStateHolds(events[..|events| - 1], threshold, windowSeconds)
    ensures FlapStateHolds(events, threshold, windowSeconds)
  {
    var front, at, status := events[..|events| - 1], events[|events| - 1].at, events[|events| - 1].status;
    var before, after := After(front, threshold, windowSeconds), After(events, threshold, windowSeconds);
    var since := WindowStart(at, windowSeconds);
    ObserveOnce(before, status, at, threshold, windowSeconds);
    PureFlagIsCount(events, threshold, windowSeconds);
    var k := HistoryMeaning(front, threshold, windowSeconds);
    var logged := ObserveTunnel(before.row, RecentCount(before.log, since), status, at, threshold).logged;
    if logged.Some? {
      assert after.log[..|before.log|] == before.log;
      assert RecentCount(after.log, since) == RecentCount(before.log, since) + 1;
    } else if before.row.Some? {
      var obs := Observations(front);
      assert Observations(events)[|obs| - 1].at < Observations(events)[|obs|].at;
      LaterWindowCountsLess(before.log, WindowStart(before.row.value.lastSeenAt, windowSeconds), since);
      assert FlapFlag(events, threshold, windowSeconds) ==> before.row.value.isFlapping;
    }
  }

  /** For a positive threshold no tunnel starts out flapping, so every flapping episode
      begins with a counted edge. */
  lemma FirstSightingIsNotFlapping(at: int, status: TunnelState, threshold: int, windowSeconds: int)
    requires threshold >= 1
    ensures !FlapFlag([Seen(at, status)], threshold, windowSeconds)
  {
    var events := [Seen(at, status)];
    assert events[..|events| - 1] == [];
    assert After(events, threshold, windowSeconds) == ObserveSnapshot(UNSEEN, [status], at, threshold, windowSeconds);
    ObserveOnce(UNSEEN, status, at, threshold, windowSeconds);
    assert Between([], at - Max(1, windowSeconds) * MICROS_PER_SECOND, at) == [];
  }

  // ---------------------------------------------------------------- the window must be positive

  /** Two changes within a millisecond. */
  function QuickChanges(n: nat): seq<TunnelEvent>
    requires n <= 3
  {
    [Seen(0, Up), Seen(1, Down), Seen(2, Up)][..n]
  }

  lemma QuickStep(n: nat, threshold: int, windowSeconds: int)
    requires n < 3
    ensures After(QuickChanges(n + 1), threshold, windowSeconds)
         == Step(After(QuickChanges(n), threshold, windowSeconds), QuickChanges(3)[n], threshold, windowSeconds)
  {
    assert QuickChanges(n + 1)[..n] == QuickChanges(n);
  }

  lemma FirstQuickChange(windowSeconds: int)
    requires windowSeconds <= 0
    ensures
      var view := After(QuickChanges(2), 2, windowSeconds);
      view.row.Some? && view.row.value.currentStatus == Down && view.log == [TunnelTransition(Up, Down, 1, Some(0))]
  {
    QuickStep(0, 2, windowSeconds);
    QuickStep(1, 2, windowSeconds);
    ObserveOnce(UNSEEN, Up, 0, 2, windowSeconds);
    ObserveOnce(After(QuickChanges(1), 2, windowSeconds), Down, 1, 2, windowSeconds);
  }

  lemma BothAreRecent(first: TunnelTransition, second: TunnelTransition, lo: int, hi: int)
    requires lo <= first.changedAt <= hi && lo <= second.changedAt <= hi
    ensures Between([first, second], lo, hi) == [first, second]
  {
    assert [first, second][1..] == [second] && [second][1..] == [];
    assert Between([], lo, hi) == [];
    assert Between([second], lo, hi) == [second];
  }

  /** With a window that is not positive the second of two quick changes does not see the first. */
  lemma QuickChangesAreMissed(windowSeconds: int)
    requires windowSeconds <= 0
    ensures !FlapStateHolds(QuickChanges(3), 2, windowSeconds)
  {
    var view := After(QuickChanges(2), 2, windowSeconds);
    var first := TunnelTransition(Up, Down, 1, Some(0));
    FirstQuickChange(windowSeconds);
    QuickStep(2, 2, windowSeconds);
    ObserveOnce(view, Up, 2, 2, windowSeconds);
    assert view.log[..0] == [];
    assert RecentCount(view.log, WindowStart(2, windowSeconds)) == 0;
    var after := After(QuickChanges(3), 2, windowSeconds);
    var second := after.log[1];
    assert after.log == [first, second] && second.changedAt == 2;
    BothAreRecent(first, second, 2 - MICROS_PER_SECOND, 2);
  }

  lemma QuickObservations()
    ensures Increasing(Observations(QuickChanges(3)))
  {
    assert Observations(QuickChanges(0)) == [];
  }

  ghost predicate FlapStateAlwaysHolds(windowSeconds: int) {
    forall events, threshold :: Increasing(Observations(events)) ==> FlapStateHolds(events, threshold, windowSeconds)
  }

  /** The counters are exact for every history exactly when the window is at least a second long: the
      pure definition takes a shorter one as one second, the repository takes it as it is. */
  lemma FlapCountersAreExactExactlyWhen(windowSeconds: int)
    ensures windowSeconds >= 1 <==> FlapStateAlwaysHolds(windowSeconds)
  {
    if windowSeconds >= 1 {
      forall events, threshold | Increasing(Observations(events))
        ensures FlapStateHolds(events, threshold, windowSeconds)
      {
        FlapCountersAreExact(events, threshold, windowSeconds);
      }
    } else {
      QuickChangesAreMissed(windowSeconds);
      QuickObservations();
    }
  }
}
