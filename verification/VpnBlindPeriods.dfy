/** Periods that the timeline accepts and gets wrong (backend/app/monitoring/service.py): a pruned change
    lies within them, or the first sighting does. */
module VpnBlindPeriods {
  import opened Wrappers
  import opened Vpn
  import opened VpnObserved
  import opened VpnRepository
  import opened VpnRuns
  import opened VpnTimeline
  import opened VpnEndToEnd

  const S := MICROS_PER_SECOND

  /** Down from the tenth to the twentieth second, the first change pruned. */
  function OutagePruned(n: nat): seq<TunnelEvent>
    requires n <= 4
  {
    [Seen(0, Up), Seen(10 * S, Down), Seen(20 * S, Up), Pruned(15 * S)][..n]
  }

  lemma NextEvent(n: nat, threshold: int, window: int)
    requires n < 4
    ensures
      var e := OutagePruned(4)[n];
      && After(OutagePruned(n + 1), threshold, window)
          == Step(After(OutagePruned(n), threshold, window), e, threshold, window)
      && Observations(OutagePruned(n + 1))
         == if e.Seen? then Observations(OutagePruned(n)) + [Observation(e.at, e.status)]
             else Observations(OutagePruned(n))
  {
    assert OutagePruned(n + 1)[..n] == OutagePruned(n);
  }

  const WENT_DOWN := TunnelTransition(Up, Down, 10 * S, Some(10))
  const CAME_UP := TunnelTransition(Down, Up, 20 * S, Some(10))

  lemma OutageBegins(threshold: int, window: int)
    ensures
      var view := After(OutagePruned(2), threshold, window);
      view.log == [WENT_DOWN] && view.row.Some?
      && view.row.value.currentStatus == Down && view.row.value.stateChangedAt == 10 * S
  {
    assert OutagePruned(0) == [];
    NextEvent(0, threshold, window);
    NextEvent(1, threshold, window);
    ObserveOnce(UNSEEN, Up, 0, threshold, window);
    ObserveOnce(After(OutagePruned(1), threshold, window), Down, 10 * S, threshold, window);
  }

  lemma OutageIsLogged(threshold: int, window: int)
    ensures After(OutagePruned(3), threshold, window).log == [WENT_DOWN, CAME_UP]
    ensures After(OutagePruned(3), threshold, window).row.Some?
  {
    OutageBegins(threshold, window);
    NextEvent(2, threshold, window);
    ObserveOnce(After(OutagePruned(2), threshold, window), Up, 20 * S, threshold, window);
  }

  lemma OutageIsPruned(threshold: int, window: int)
    ensures After(OutagePruned(4), threshold, window).log == [CAME_UP]
    ensures After(OutagePruned(4), threshold, window).row.Some?
  {
    OutageIsLogged(threshold, window);
    NextEvent(3, threshold, window);
    assert [WENT_DOWN, CAME_UP][..1] == [WENT_DOWN] && [WENT_DOWN][..0] == [];
    assert Retained([WENT_DOWN], 15 * S) == [];
  }

  const OBSERVED := [Observation(0, Up), Observation(10 * S, Down), Observation(20 * S, Up)]

  lemma {:induction false} OutageObserved(n: nat)
    requires n <= 3
    ensures Observations(OutagePruned(n)) == OBSERVED[..n]
  {
    if n == 0 {
      assert OutagePruned(0) == [];
    } else {
      OutageObserved(n - 1);
      NextEvent(n - 1, 1, 1);
      assert OBSERVED[..n] == OBSERVED[..n - 1] + [OBSERVED[n - 1]];
    }
  }

  lemma ObservedStatus(t: int)
    requires 0 <= t
    ensures StatusAt(OBSERVED, t) == if 10 * S <= t < 20 * S then Down else Up
  {
    assert OBSERVED[..2][..1] == OBSERVED[..1];
    assert StatusAt(OBSERVED[..1], t) == Up;
    assert StatusAt(OBSERVED[..2], t) == if 10 * S <= t then Down else Up;
  }

  lemma OutageStatuses()
    ensures StatusThroughout(OBSERVED, 5 * S, 10 * S, Up) && StatusThroughout(OBSERVED, 10 * S, 20 * S, Down)
    ensures StatusThroughout(OBSERVED, 20 * S, 30 * S + 1, Up)
  {
    forall t | 0 <= t ensures StatusAt(OBSERVED, t) == if 10 * S <= t < 20 * S then Down else Up {
      ObservedStatus(t);
    }
  }

  /** From the fifth to the thirtieth second the tunnel was DOWN for ten seconds and the timeline reports
      fifteen, although the period starts after the first sighting and holds a retained transition: the
      row's previous status is taken back to the start. */
  lemma PrunedChangeMisleads(threshold: int, window: int)
    ensures
      var view, obs := After(OutagePruned(4), threshold, window), Observations(OutagePruned(4));
      && view.row.Some? && obs != [] && obs[0].at <= 5 * S
      && PeriodCovered(view.row.value, view.log, 5 * S, 30 * S)
      && TimelineMetrics(view.row.value, view.log, 5 * S, 30 * S).downSeconds == 15
      && StatusThroughout(obs, 5 * S, 10 * S, Up) && StatusThroughout(obs, 10 * S, 20 * S, Down)
      && StatusThroughout(obs, 20 * S, 30 * S + 1, Up)
      && !TimelineAgrees(TimelineMetrics(view.row.value, view.log, 5 * S, 30 * S), obs, 5 * S, 30 * S)
  {
    OutageIsPruned(threshold, window);
    OutageObserved(3);
    NextEvent(3, threshold, window);
    assert OBSERVED[..3] == OBSERVED;
    OutageStatuses();
    RowsOfOutage(After(OutagePruned(4), threshold, window).row.value);
    OutageIsUnlogged();
    TimelineMatchesObservations(OutagePruned(4), threshold, window, 5 * S, 30 * S);
  }

  lemma RowsOfOutage(row: TunnelRow)
    ensures TimelineMetrics(row, [CAME_UP], 5 * S, 30 * S).downSeconds == 15
    ensures Between([CAME_UP], 5 * S, 30 * S) == [CAME_UP]
  {
    assert [CAME_UP][..0] == [] && [CAME_UP][1..] == [];
    assert Between([CAME_UP], 5 * S, 30 * S) == [CAME_UP];
    assert SortByTime([CAME_UP]) == [CAME_UP];
    assert Prior([CAME_UP], 5 * S) == None;
    RowTakenBack(row);
  }

  lemma OutageIsUnlogged()
    ensures Between(Unlogged(OBSERVED, [CAME_UP]), 5 * S + 1, 30 * S) != []
  {
    var sighting := TunnelTransition(Unknown, Up, 0, None);
    assert OBSERVED[..2][..1] == OBSERVED[..1];
    assert TransitionsOf(OBSERVED[..1]) == [];
    assert TransitionsOf(OBSERVED[..2]) == [WENT_DOWN];
    assert TransitionsOf(OBSERVED) == [WENT_DOWN, CAME_UP];
    assert ChangesOf(OBSERVED) == [sighting, WENT_DOWN, CAME_UP];
    assert Unlogged(OBSERVED, [CAME_UP]) == [sighting, WENT_DOWN];
    assert [sighting, WENT_DOWN][1..] == [WENT_DOWN];
    assert Between([WENT_DOWN], 5 * S + 1, 30 * S) != [];
  }

  lemma RowTakenBack(row: TunnelRow)
    requires AnalyticsRows([CAME_UP], 5 * S, 30 * S) == [CAME_UP]
        && InitialStatus(row, [CAME_UP], 5 * S, 30 * S) == Down
    ensures TimelineMetrics(row, [CAME_UP], 5 * S, 30 * S).downSeconds == 15
  {
    var down, up := Segment(Down, 5 * S, 20 * S), Segment(Up, 20 * S, 30 * S);
    assert Segments([CAME_UP], 1, Up, 20 * S, 5 * S, 30 * S) == [up];
    assert Segments([CAME_UP], 0, Down, 5 * S, 5 * S, 30 * S) == [down, up];
    assert SortByTime([CAME_UP]) == [CAME_UP];
    assert [down, up][..1] == [down] && [down][..0] == [];
    assert SecondsIn([down], Down) == Seconds(15 * S) == 15;
    assert SecondsIn([down, up], Down) == 15;
  }

  /** A tunnel that never changed, in a period that begins before its first sighting: the whole period is
      reported as UNKNOWN, although its status was observed from the first sighting to the end. */
  lemma FirstSightingMisleads(events: seq<TunnelEvent>, threshold: int, window: int, start: int, end: int)
    requires Increasing(Observations(events)) && Observations(events) != [] && TransitionsOf(Observations(events)) == []
    requires start < Observations(events)[0].at <= end
    ensures
      var view, obs := After(events, threshold, window), Observations(events);
      && view.row.Some? && AllUnknown(TimelineMetrics(view.row.value, view.log, start, end), start, end)
      && StatusThroughout(obs, obs[0].at, end + 1, obs[0].status)
  {
    var k := HistoryMeaning(events, threshold, window);
    var view, obs := After(events, threshold, window), Observations(events);
    UncoveredPeriodReadsUnknown(view.row.value, view.log, Unknown, start, end);
    forall t | obs[0].at <= t < end + 1 ensures StatusAt(obs, t) == obs[0].status {
      TransitionsFollow(obs, t);
    }
  }
}
