/** Histories of the whole repository: many tunnels per snapshot, retention between them.
    Each tunnel's share is a history of its own, so the per-tunnel results carry over. */
module VpnRepositoryRuns {
  import opened Wrappers
  import opened Vpn
  import opened VpnObserved
  import opened VpnRepository
  import opened VpnRuns
  import opened VpnTimeline
  import opened VpnFlapping
  import opened VpnEndToEnd

  datatype RepositoryEvent = Snapshot(at: int, tunnels: seq<RawTunnel>) | Retention(cutoff: int)

  function RunRepository(events: seq<RepositoryEvent>, flapThreshold: int, flapWindowSeconds: int): Tables {
    if events == [] then Tables(map[], [])
    else
      var db := RunRepository(events[..|events| - 1], flapThreshold, flapWindowSeconds);
      match events[|events| - 1]
      case Snapshot(at, tunnels) => Persisted(db, tunnels, at, flapThreshold, flapWindowSeconds)
      case Retention(cutoff) => db.(transitions := RetainedRows(db.transitions, cutoff))
  }

  /** No tunnel is reported twice in one snapshot. */
  ghost predicate DistinctIds(tunnels: seq<RawTunnel>) {
    forall i, j :: 0 <= i < j < |tunnels| && tunnels[i].id != "" ==> tunnels[i].id != tunnels[j].id
  }

  /** Snapshots have distinct ids and strictly increasing times. */
  ghost predicate Orderly(events: seq<RepositoryEvent>) {
    && (forall i :: 0 <= i < |events| && events[i].Snapshot? ==> DistinctIds(events[i].tunnels))
    && (forall i, j :: 0 <= i < j < |events| && events[i].Snapshot? && events[j].Snapshot? ==>
          events[i].at < events[j].at)
  }

  /** One tunnel's share of a repository history. */
  ghost function EventsOf(events: seq<RepositoryEvent>, id: string): seq<TunnelEvent> {
    if events == [] then []
    else
      var earlier := EventsOf(events[..|events| - 1], id);
      match events[|events| - 1]
      case Snapshot(at, tunnels) =>
        var statuses := Reports(tunnels, 0, id);
        if |statuses| == 1 then earlier + [Seen(at, statuses[0])] else earlier
      case Retention(cutoff) => earlier + [Pruned(cutoff)]
  }

  lemma {:induction false} ReportedAtMostOnce(tunnels: seq<RawTunnel>, i: nat, id: string)
    requires DistinctIds(tunnels) && id != ""
    ensures |Reports(tunnels, i, id)| <= 1
    decreases |tunnels| - i
  {
    if i < |tunnels| {
      if tunnels[i].id == id {
        UnreportedHasNoReports(tunnels, i + 1, id);
      } else {
        ReportedAtMostOnce(tunnels, i + 1, id);
      }
    }
  }

  lemma {:induction false} RepositoryHistoryPerTunnel(events: seq<RepositoryEvent>, flapThreshold: int,
                                                      flapWindowSeconds: int, id: string)
    requires Orderly(events) && id != ""
    ensures View(RunRepository(events, flapThreshold, flapWindowSeconds), id)
         == After(EventsOf(events, id), flapThreshold, flapWindowSeconds)
  {
    if events != [] {
      var front, last := events[..|events| - 1], events[|events| - 1];
      RepositoryHistoryPerTunnel(front, flapThreshold, flapWindowSeconds, id);
      var db, earlier := RunRepository(front, flapThreshold, flapWindowSeconds), EventsOf(front, id);
      match last {
        case Snapshot(at, tunnels) =>
          ReportedAtMostOnce(tunnels, 0, id);
          SnapshotPerTunnel(db, tunnels, at, flapThreshold, flapWindowSeconds, id);
          var statuses := Reports(tunnels, 0, id);
          if |statuses| == 1 {
            assert statuses == [statuses[0]];
            assert (earlier + [Seen(at, statuses[0])])[..|earlier|] == earlier;
          } else {
            assert statuses == [];
          }
        case Retention(cutoff) =>
          RetentionPerTunnel(db.transitions, cutoff, id);
          assert (earlier + [Pruned(cutoff)])[..|earlier|] == earlier;
      }
    }
  }

  /** A tunnel's observations carry the times of the snapshots that report it. */
  lemma {:induction false} TunnelTimesIncrease(events: seq<RepositoryEvent>, id: string)
    requires Orderly(events)
    ensures Increasing(Observations(EventsOf(events, id)))
    ensures forall o :: o in Observations(EventsOf(events, id)) ==>
              exists i :: 0 <= i < |events| && events[i].Snapshot? && events[i].at == o.at
  {
    if events != [] {
      var front, last := events[..|events| - 1], events[|events| - 1];
      TunnelTimesIncrease(front, id);
      var earlier, now := EventsOf(front, id), EventsOf(events, id);
      var before, after := Observations(earlier), Observations(now);
      if now != earlier {
        assert now[..|earlier|] == earlier;
      }
      forall o | o in after ensures exists i :: 0 <= i < |events| && events[i].Snapshot? && events[i].at == o.at {
        if o in before {
          var i :| 0 <= i < |front| && front[i].Snapshot? && front[i].at == o.at;
          assert events[i] == front[i];
        } else {
          assert events[|events| - 1].at == o.at;
        }
      }
      if after != before {
        forall i | 0 <= i < |before| ensures before[i].at < last.at {
          assert before[i] in before;
          var k :| 0 <= k < |front| && front[k].Snapshot? && front[k].at == before[i].at;
          assert events[k] == front[k];
        }
      }
    }
  }

  lemma {:induction false} TunnelCutoffs(events: seq<RepositoryEvent>, id: string, t: int)
    requires forall i :: 0 <= i < |events| && events[i].Retention? ==> events[i].cutoff <= t
    ensures PrunedUpTo(EventsOf(events, id), t)
  {
    if events != [] {
      TunnelCutoffs(events[..|events| - 1], id, t);
    }
  }

  /** The main result at the level of the repository: for every orderly history of snapshots and
      retention runs, every tunnel it has seen and every period, exactly when the timeline reports the
      observed step function's figures. */
  lemma RepositoryTimelineMatchesObservations(
      events: seq<RepositoryEvent>, flapThreshold: int, flapWindowSeconds: int, id: string, start: int, end: int)
    requires Orderly(events) && id != "" && Observations(EventsOf(events, id)) != [] && start <= end
    ensures
      var view, obs := View(RunRepository(events, flapThreshold, flapWindowSeconds), id),
          Observations(EventsOf(events, id));
      && view.row.Some?
      && (TimelineAgrees(TimelineMetrics(view.row.value, view.log, start, end), obs, start, end)
          <==> TimelineIsRight(view, obs, start, end))
  {
    RepositoryHistoryPerTunnel(events, flapThreshold, flapWindowSeconds, id);
    TunnelTimesIncrease(events, id);
    TimelineMatchesObservations(EventsOf(events, id), flapThreshold, flapWindowSeconds, start, end);
  }

  /** With every cutoff at or before the start, and the first sighting too, what remains of the
      condition can be read off the tables and the period. */
  lemma RecentPeriodsOfTheRepository(
      events: seq<RepositoryEvent>, flapThreshold: int, flapWindowSeconds: int, id: string, start: int, end: int)
    requires Orderly(events) && id != "" && start <= end
    requires forall i :: 0 <= i < |events| && events[i].Retention? ==> events[i].cutoff <= start
    requires var obs := Observations(EventsOf(events, id)); obs != [] && obs[0].at <= start
    ensures
      var view, obs := View(RunRepository(events, flapThreshold, flapWindowSeconds), id),
          Observations(EventsOf(events, id));
      && view.row.Some?
      && (TimelineIsRight(view, obs, start, end)
          <==> |Between(view.log, start, end)| <= 100_000
               && (PeriodCovered(view.row.value, view.log, start, end) || StatusAt(obs, start) !in {Up, Down}
                   || end - start < MICROS_PER_SECOND))
  {
    RepositoryHistoryPerTunnel(events, flapThreshold, flapWindowSeconds, id);
    TunnelTimesIncrease(events, id);
    TunnelCutoffs(events, id, start);
    HistoryIsKept(EventsOf(events, id), flapThreshold, flapWindowSeconds);
    RecentChangesAreLogged(EventsOf(events, id), flapThreshold, flapWindowSeconds, start, end);
  }

  /** Every tunnel's flag and flap count, in every reachable state of the repository. */
  lemma RepositoryFlapCountersAreExact(events: seq<RepositoryEvent>, flapThreshold: int, flapWindowSeconds: int,
                                       id: string)
    requires Orderly(events) && id != "" && flapWindowSeconds >= 1
    ensures
      var db, share := RunRepository(events, flapThreshold, flapWindowSeconds), EventsOf(events, id);
      id in db.current ==>
        && db.current[id].isFlapping == FlapFlag(share, flapThreshold, flapWindowSeconds)
        && db.current[id].flapCount == RisingEdges(share, flapThreshold, flapWindowSeconds)
  {
    RepositoryHistoryPerTunnel(events, flapThreshold, flapWindowSeconds, id);
    TunnelTimesIncrease(events, id);
    FlapCountersAreExact(EventsOf(events, id), flapThreshold, flapWindowSeconds);
    assert View(RunRepository(events, flapThreshold, flapWindowSeconds), id).row
        == Row(RunRepository(events, flapThreshold, flapWindowSeconds).current, id);
  }

  // ---------------------------------------------------------------- when a snapshot breaks the chain

  ghost predicate IsChain(log: seq<TunnelTransition>) {
    exists base :: Chained(log, base)
  }

  /** The log ends in the row's status and is a chain; a tunnel without a row has no log. */
  ghost predicate Consistent(view: TunnelView) {
    match view.row
    case None => view.log == []
    case Some(row) => IsChain(view.log) && (view.log != [] ==> EndState(view.log, Unknown) == row.currentStatus)
  }

  function TransitionCount(view: TunnelView): nat {
    if view.row.Some? then view.row.value.transitionCount else 0
  }

  /** The rows a snapshot logs for a tunnel whose stored row is `p`. */
  ghost function LoggedBy(p: TunnelRow, statuses: seq<TunnelState>, at: int): seq<TunnelTransition> {
    if statuses == [] then []
    else
      (if statuses[0] == p.currentStatus then []
       else [TunnelTransition(p.currentStatus, statuses[0], at, Some(Seconds(at - p.stateChangedAt)))])
      + LoggedBy(p, statuses[1..], at)
  }

  lemma {:induction false} RepeatedReports(view: TunnelView, p: TunnelRow, recent: nat, statuses: seq<TunnelState>,
                                           at: int, flapThreshold: int)
    ensures var after := ObserveAll(view, Some(p), recent, statuses, at, flapThreshold);
            && after.log == view.log + LoggedBy(p, statuses, at)
            && (statuses != [] ==>
                  && after.row.Some?
                  && after.row.value.currentStatus == statuses[|statuses| - 1]
                  && after.row.value.transitionCount == p.transitionCount + if statuses[|statuses| - 1]
                      == p.currentStatus then 0 else 1)
    decreases |statuses|
  {
    if statuses != [] {
      var o := ObserveTunnel(Some(p), recent, statuses[0], at, flapThreshold);
      if o.logged.Some? {
        RepeatedReports(TunnelView(Some(o.row), view.log + [o.logged.value]), p, recent + 1, statuses[1..], at,
                        flapThreshold);
      } else {
        RepeatedReports(view.(row := Some(o.row)), p, recent, statuses[1..], at, flapThreshold);
      }
      if |statuses| == 1 {
        assert statuses[1..] == [];
      } else {
        assert statuses[1..][|statuses| - 2] == statuses[|statuses| - 1];
      }
    }
  }

  /** Every report but the last repeats the stored status. */
  ghost predicate OnlyLastMayDiffer(statuses: seq<TunnelState>, stored: TunnelState) {
    forall i :: 0 <= i < |statuses| - 1 ==> statuses[i] == stored
  }

  lemma {:induction false} NothingLogged(p: TunnelRow, statuses: seq<TunnelState>, at: int)
    ensures LoggedBy(p, statuses, at) == [] <==> forall i :: 0 <= i < |statuses| ==> statuses[i] == p.currentStatus
  {
    if statuses != [] {
      NothingLogged(p, statuses[1..], at);
      assert statuses == [statuses[0]] + statuses[1..];
    }
  }

  lemma {:induction false} LoggedShape(p: TunnelRow, statuses: seq<TunnelState>, at: int)
    requires statuses != []
    ensures var logged, last := LoggedBy(p, statuses, at), statuses[|statuses| - 1];
            && (forall t :: t in logged ==>
                  t.changedAt == at && t.previousStatus == p.currentStatus && t.newStatus != p.currentStatus)
            && (OnlyLastMayDiffer(statuses, p.currentStatus) ==>
                  logged == if last == p.currentStatus then []
                      else [TunnelTransition(p.currentStatus, last, at, Some(Seconds(at - p.stateChangedAt)))])
            && (!OnlyLastMayDiffer(statuses, p.currentStatus) ==> |logged| >= if last == p.currentStatus then 1 else 2)
  {
    if |statuses| == 1 {
      assert statuses[1..] == [];
    } else {
      LoggedShape(p, statuses[1..], at);
      assert OnlyLastMayDiffer(statuses, p.currentStatus)
        <==> statuses[0] == p.currentStatus && OnlyLastMayDiffer(statuses[1..], p.currentStatus) by {
        assert statuses == [statuses[0]] + statuses[1..];
      }
      assert statuses[1..][|statuses| - 2] == statuses[|statuses| - 1];
      NothingLogged(p, statuses[1..], at);
    }
  }

  lemma {:induction false} FirstReports(view: TunnelView, recent: nat, statuses: seq<TunnelState>, at: int,
                                        flapThreshold: int)
    ensures var after := ObserveAll(view, None, recent, statuses, at, flapThreshold);
            && after.log == view.log
            && (statuses != [] ==> after.row.Some? && after.row.value.transitionCount == 0)
    decreases |statuses|
  {
    if statuses != [] {
      FirstReports(view.(row := Some(ObserveTunnel(None, recent, statuses[0], at, flapThreshold).row)), recent,
                   statuses[1..], at, flapThreshold);
      if |statuses| == 1 {
        assert statuses[1..] == [];
      }
    }
  }

  /** The snapshot leaves a consistent log and counts exactly the rows it wrote. */
  ghost predicate KeepsChain(before: TunnelView, after: TunnelView) {
    Consistent(after) && TransitionCount(after) - TransitionCount(before) == |after.log| - |before.log|
  }

  /** Exactly when a snapshot keeps the log a chain: a tunnel already known may be reported
      again only with its stored status, except by the last report, and a change must be later
      than the last logged one. Distinct ids and increasing times always meet this. */
  lemma SnapshotKeepsChainExactlyWhen(view: TunnelView, statuses: seq<TunnelState>, at: int, flapThreshold: int,
                                      flapWindowSeconds: int)
    requires Consistent(view) && statuses != []
    ensures KeepsChain(view, ObserveSnapshot(view, statuses, at, flapThreshold, flapWindowSeconds))
       <==> (view.row.Some? ==>
               && OnlyLastMayDiffer(statuses, view.row.value.currentStatus)
               && (statuses[|statuses| - 1] == view.row.value.currentStatus || view.log == []
                   || view.log[|view.log| - 1].changedAt < at))
  {
    var recent := RecentCount(view.log, WindowStart(at, flapWindowSeconds));
    var after := ObserveSnapshot(view, statuses, at, flapThreshold, flapWindowSeconds);
    match view.row {
      case None =>
        FirstReports(view, recent, statuses, at, flapThreshold);
        assert Chained(after.log, Unknown);
      case Some(p) =>
        RepeatedReports(view, p, recent, statuses, at, flapThreshold);
        LoggedShape(p, statuses, at);
        var last := statuses[|statuses| - 1];
        if OnlyLastMayDiffer(statuses, p.currentStatus) {
          if last == p.currentStatus {
            assert after.log == view.log;
          } else {
            LoggedChangeKeepsChain(view.log, LoggedBy(p, statuses, at)[0], p.currentStatus);
          }
        }
    }
  }

  lemma LoggedChangeKeepsChain(log: seq<TunnelTransition>, t: TunnelTransition, status: TunnelState)
    requires IsChain(log)
    requires log != [] ==> EndState(log, Unknown) == status
    requires t.previousStatus == status && t.newStatus != status
    ensures IsChain(log + [t]) <==> (log == [] || log[|log| - 1].changedAt < t.changedAt)
  {
    assert (log + [t])[..|log|] == log;
    if log == [] {
      assert log + [t] == [t] && [t][..0] == [] && Chained([], status);
      assert Chained(log + [t], status);
    } else {
      var base :| Chained(log, base);
      if log[|log| - 1].changedAt < t.changedAt {
        assert Chained(log + [t], base);
      }
    }
  }
}
