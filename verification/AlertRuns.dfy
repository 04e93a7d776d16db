/** What the alert tables say after any run of collections (backend/app/monitoring/alerts.py,
    backend/app/monitoring/repository.py). One alert is followed at a time: PersistAlerts acts on every
    alert as ViewAfter says. */
module AlertRuns {
  import opened Wrappers
  import opened Alerts

  /** A collected dashboard, with the time it was observed at. */
  datatype Snapshot = Snapshot(dashboard: Dashboard, observedAt: int)

  function CollectionOf(s: Snapshot, threshold: int): Collection {
    Collection(s.dashboard.domainId, s.dashboard.runId, s.observedAt, threshold)
  }

  ghost function History(id: string, run: seq<Snapshot>, threshold: int): AlertView {
    if run == [] then AlertView(None, [])
    else
      var s := run[|run| - 1];
      ViewAfter(History(id, run[..|run| - 1], threshold), id, s.dashboard.devices, CollectionOf(s, threshold))
  }

  ghost predicate Lists(s: Snapshot, id: string) {
    Recorded(CollectionOf(s, 0)) && SightingsOf(Sightings(s.dashboard.devices), id) != []
  }

  /** How often the log leaves RESOLVED. */
  ghost function Exits(log: seq<ObservationRow>): nat {
    if |log| < 2 then 0
    else
      Exits(log[..|log| - 1])
      + if log[|log| - 2].lifecycle == RESOLVED && log[|log| - 1].lifecycle != RESOLVED then 1 else 0
  }

  ghost function TimesListed(id: string, run: seq<Snapshot>): nat {
    if run == [] then 0 else TimesListed(id, run[..|run| - 1]) + if Lists(run[|run| - 1], id) then 1 else 0
  }

  ghost function FirstListed(id: string, run: seq<Snapshot>): Option<int> {
    if run == [] then None
    else match FirstListed(id, run[..|run| - 1])
      case Some(at) => Some(at)
      case None => if Lists(run[|run| - 1], id) then Some(run[|run| - 1].observedAt) else None
  }

  ghost function LastListed(id: string, run: seq<Snapshot>): Option<int> {
    if run == [] then None
    else if Lists(run[|run| - 1], id) then Some(run[|run| - 1].observedAt)
    else LastListed(id, run[..|run| - 1])
  }

  /** Only one domain's dashboards list the alert. */
  ghost predicate ListedBy(run: seq<Snapshot>, id: string, domainId: string) {
    forall s :: s in run && Lists(s, id) ==> s.dashboard.domainId == domainId
  }

  // ---------------------------------------------------------------- every run

  /** An alert flaps exactly when it is active after having been reopened often enough, it has a
      resolution time exactly when it is resolved, and nothing else is ever stored. */
  ghost predicate RowFits(row: AlertRow, threshold: int) {
    && row.lifecycle != UNKNOWN
    && row.reopenCount >= 0
    && (row.lifecycle == FLAPPING <==> row.lifecycle != RESOLVED && row.reopenCount >= threshold)
    && (row.resolvedAt.Some? <==> row.lifecycle == RESOLVED)
  }

  lemma ObservedRowFits(previous: Option<AlertRow>, s: Sighting, c: Collection)
    requires c.threshold >= 1 && (previous.Some? ==> RowFits(previous.value, c.threshold))
    ensures RowFits(ObservedRow(previous, s, c), c.threshold)
  {
  }

  /** In every run, over any domains, an alert is FLAPPING exactly when it is active with at least
      the threshold of reopenings: so NEW, ACTIVE and REOPENED alerts are below it. */
  lemma {:induction false} RowsFit(id: string, run: seq<Snapshot>, threshold: int)
    requires threshold >= 1
    ensures var row := History(id, run, threshold).row; row.Some? ==> RowFits(row.value, threshold)
  {
    if run != [] {
      RowsFit(id, run[..|run| - 1], threshold);
      var v, s := History(id, run[..|run| - 1], threshold), run[|run| - 1];
      var c := CollectionOf(s, threshold);
      var seen := SightingsOf(Sightings(s.dashboard.devices), id);
      if seen != [] {
        ObservedRowFits(InDomain(v.row, c.domainId), seen[|seen| - 1], c);
      }
    }
  }

  /** A single sighting: the run that tells thresholds apart. */
  function FirstSighting(id: string): seq<Snapshot> {
    [Snapshot(Dashboard("domain", "run", [Device("device", "SUPPORTED", [Alert(id, "", "red", 0)])]), 0)]
  }

  /** The rule needs a threshold of at least one: below that a new alert is not FLAPPING although its
      zero reopenings reach the threshold. */
  lemma RowsFitExactlyFromOne(threshold: int)
    ensures threshold >= 1 <==>
      forall id, run :: var row := History(id, run, threshold).row; row.Some? ==> RowFits(row.value, threshold)
  {
    if threshold >= 1 {
      forall id, run ensures var row := History(id, run, threshold).row; row.Some? ==> RowFits(row.value, threshold) {
        RowsFit(id, run, threshold);
      }
    } else {
      assert !RowFits(History("a", FirstSighting("a"), threshold).row.value, threshold);
    }
  }

  ghost predicate Flapped(row: Option<AlertRow>, threshold: int, domainId: string) {
    row.Some? && row.value.domainId == domainId && row.value.reopenCount >= threshold
        && row.value.lifecycle in {FLAPPING, RESOLVED}
  }

  /** Once an alert has flapped it is only ever FLAPPING or RESOLVED, as long as no other domain
      lists an alert of the same id. */
  lemma {:induction false} FlappingIsForGood(id: string, run: seq<Snapshot>, later: seq<Snapshot>, threshold: int,
                                             domainId: string)
    requires threshold >= 1 && ListedBy(later, id, domainId)
    requires
      var row := History(id, run, threshold).row;
      row.Some? && row.value.lifecycle == FLAPPING && row.value.domainId == domainId
    ensures Flapped(History(id, run + later, threshold).row, threshold, domainId)
  {
    if later == [] {
      assert run + later == run;
      RowsFit(id, run, threshold);
    } else {
      var earlier, s := later[..|later| - 1], later[|later| - 1];
      FlappingIsForGood(id, run, earlier, threshold, domainId);
      assert (run + later)[..|run + later| - 1] == run + earlier && (run + later)[|run + later| - 1] == s;
      assert s in later;
    }
  }

  /** A dashboard of another domain that lists the id starts its row anew: the rows of a domain are
      looked up by domain, and stored by id alone. */
  lemma OtherDomainRestarts(id: string, run: seq<Snapshot>, s: Snapshot, threshold: int)
    requires var row := History(id, run, threshold).row; row.Some? && row.value.domainId != s.dashboard.domainId
    requires Lists(s, id)
    ensures
      var row := History(id, run + [s], threshold).row;
      && row.Some? && row.value.domainId == s.dashboard.domainId && row.value.lifecycle == NEW
      && row.value.reopenCount == 0 && row.value.repeatCount == 1
      && row.value.firstSeenAt == row.value.lastSeenAt == s.observedAt
  {
    assert (run + [s])[..|run + [s]| - 1] == run && (run + [s])[|run + [s]| - 1] == s;
  }

  lemma {:induction false} FirstOfAnotherDomain(later: seq<Snapshot>, id: string, domainId: string) returns (n: nat)
    requires !ListedBy(later, id, domainId)
    ensures n < |later| && ListedBy(later[..n], id, domainId)
    ensures Lists(later[n], id) && later[n].dashboard.domainId != domainId
  {
    var front := later[..|later| - 1];
    if ListedBy(front, id, domainId) {
      n := |later| - 1;
    } else {
      n := FirstOfAnotherDomain(front, id, domainId);
      assert front[..n] == later[..n];
    }
  }

  ghost predicate FlapsThroughout(id: string, run: seq<Snapshot>, later: seq<Snapshot>, threshold: int,
                                  domainId: string) {
    forall n :: 0 <= n <= |later| ==> Flapped(History(id, run + later[..n], threshold).row, threshold, domainId)
  }

  lemma OtherDomainEndsFlapping(id: string, run: seq<Snapshot>, later: seq<Snapshot>, threshold: int, domainId: string,
                                n: nat)
    requires n < |later| && Lists(later[n], id) && later[n].dashboard.domainId != domainId
    requires Flapped(History(id, run + later[..n], threshold).row, threshold, domainId)
    ensures !Flapped(History(id, run + later[..n + 1], threshold).row, threshold, domainId)
  {
    OtherDomainRestarts(id, run + later[..n], later[n], threshold);
    assert run + later[..n + 1] == run + later[..n] + [later[n]];
  }

  /** An alert that flaps stays FLAPPING or RESOLVED through a run exactly when no other domain lists
      it there. */
  lemma FlappingLastsExactlyWhen(id: string, run: seq<Snapshot>, later: seq<Snapshot>, threshold: int, domainId: string)
    requires threshold >= 1
    requires
      var row := History(id, run, threshold).row;
      row.Some? && row.value.lifecycle == FLAPPING && row.value.domainId == domainId
    ensures FlapsThroughout(id, run, later, threshold, domainId) <==> ListedBy(later, id, domainId)
  {
    if ListedBy(later, id, domainId) {
      forall n | 0 <= n <= |later| ensures Flapped(History(id, run + later[..n], threshold).row, threshold, domainId) {
        FlappingIsForGood(id, run, later[..n], threshold, domainId);
      }
    } else {
      var n := FirstOfAnotherDomain(later, id, domainId);
      FlappingIsForGood(id, run, later[..n], threshold, domainId);
      OtherDomainEndsFlapping(id, run, later, threshold, domainId, n);
    }
  }

  ghost predicate NoneComplete(run: seq<Snapshot>) {
    forall s :: s in run ==> !AlertsComplete(s.dashboard.devices)
  }

  /** However many incomplete collections follow, in any domains, they resolve nothing: an alert found
      RESOLVED after them was so before them, by the same row. */
  lemma {:induction false} IncompleteCollectionsResolveNothing(id: string, run: seq<Snapshot>, later: seq<Snapshot>,
                                                               threshold: int)
    requires NoneComplete(later)
    ensures var after := History(id, run + later, threshold).row;
            after.Some? && after.value.lifecycle == RESOLVED ==> after == History(id, run, threshold).row
  {
    if later == [] {
      assert run + later == run;
    } else {
      var earlier, s := later[..|later| - 1], later[|later| - 1];
      IncompleteCollectionsResolveNothing(id, run, earlier, threshold);
      assert (run + later)[..|run + later| - 1] == run + earlier && (run + later)[|run + later| - 1] == s;
      assert s in later;
      var c := CollectionOf(s, threshold);
      var seen := SightingsOf(Sightings(s.dashboard.devices), id);
      if seen != [] {
        ActiveAlertsAreNotResolved(InDomain(History(id, run + earlier, threshold).row, c.domainId), seen[|seen| - 1],
                                   c);
      }
    }
  }

  lemma ActiveAlertsAreNotResolved(previous: Option<AlertRow>, s: Sighting, c: Collection)
    ensures ObservedRow(previous, s, c).lifecycle != RESOLVED
  {
  }

  // ---------------------------------------------------------------- runs within one domain

  /** What a row records of the run that produced it. */
  ghost predicate RowRecords(v: AlertView, id: string, run: seq<Snapshot>) {
    match v.row
    case None => v.log == [] && TimesListed(id, run) == 0 && FirstListed(id, run) == LastListed(id, run) == None
    case Some(row) =>
      && v.log != [] && v.log[|v.log| - 1].lifecycle == row.lifecycle
      && row.reopenCount == Exits(v.log)
      && row.repeatCount == TimesListed(id, run)
      && Some(row.firstSeenAt) == FirstListed(id, run)
      && Some(row.lastSeenAt) == LastListed(id, run)
  }

  lemma ExitsGrow(log: seq<ObservationRow>, row: ObservationRow)
    ensures Exits(log + [row])
         == Exits(log) + if log != [] && log[|log| - 1].lifecycle == RESOLVED && row.lifecycle != RESOLVED then 1 else 0
  {
    assert (log + [row])[..|log|] == log;
  }

  /** Several sightings in one collection leave RESOLVED at most once. */
  lemma {:induction false} SightingExits(log: seq<ObservationRow>, previous: Option<AlertRow>, seen: seq<Sighting>,
                                         c: Collection)
    requires seen != []
    requires previous.Some? <==> log != []
    requires previous.Some? ==> log[|log| - 1].lifecycle == previous.value.lifecycle
    ensures
      var after := log + SightingLog(previous, seen, c);
      && after[|after| - 1].lifecycle == ObservedRow(previous, seen[|seen| - 1], c).lifecycle
      && Exits(after) == Exits(log) + if previous.Some? && previous.value.lifecycle == RESOLVED then 1 else 0
  {
    var earlier, s := seen[..|seen| - 1], seen[|seen| - 1];
    var row := ObservationRow(s.alert.id, c.observedAt, ObservedRow(previous, s, c).lifecycle, s.alert.severity,
                              c.runId);
    var before := log + SightingLog(previous, earlier, c);
    assert log + SightingLog(previous, seen, c) == before + [row];
    ExitsGrow(before, row);
    ActiveAlertsAreNotResolved(previous, s, c);
    if earlier == [] {
      assert before == log;
    } else {
      SightingExits(log, previous, earlier, c);
      ActiveAlertsAreNotResolved(previous, earlier[|earlier| - 1], c);
    }
  }

  lemma SightingIsRecorded(v: AlertView, id: string, run: seq<Snapshot>, threshold: int)
    requires run != [] && Lists(run[|run| - 1], id)
    requires RowRecords(v, id, run[..|run| - 1])
    requires v.row.Some? ==> v.row.value.domainId == run[|run| - 1].dashboard.domainId
    ensures RowRecords(ViewAfter(v, id, run[|run| - 1].dashboard.devices, CollectionOf(run[|run| - 1], threshold)), id,
                       run)
  {
    var s := run[|run| - 1];
    var c := CollectionOf(s, threshold);
    var seen := SightingsOf(Sightings(s.dashboard.devices), id);
    SightingExits(v.log, v.row, seen, c);
    ListedMeansSeen(id, run[..|run| - 1]);
  }

  lemma AbsenceIsRecorded(v: AlertView, id: string, run: seq<Snapshot>, threshold: int)
    requires run != [] && !Lists(run[|run| - 1], id)
    requires RowRecords(v, id, run[..|run| - 1])
    ensures RowRecords(ViewAfter(v, id, run[|run| - 1].dashboard.devices, CollectionOf(run[|run| - 1], threshold)), id,
                       run)
  {
    var s := run[|run| - 1];
    if v.row.Some? {
      ExitsGrow(v.log, ObservationRow(id, s.observedAt, RESOLVED, v.row.value.severity, s.dashboard.runId));
    }
  }

  lemma {:induction false} ListedMeansSeen(id: string, run: seq<Snapshot>)
    ensures FirstListed(id, run).Some? <==> TimesListed(id, run) > 0
  {
    if run != [] {
      ListedMeansSeen(id, run[..|run| - 1]);
    }
  }

  lemma {:induction false} RowsStayInDomain(id: string, run: seq<Snapshot>, threshold: int, domainId: string)
    requires ListedBy(run, id, domainId)
    ensures var row := History(id, run, threshold).row; row.Some? ==> row.value.domainId == domainId
  {
    if run != [] {
      assert run[|run| - 1] in run;
      RowsStayInDomain(id, run[..|run| - 1], threshold, domainId);
    }
  }

  /** While one domain lists the alert its row tells the run: its state is the last one logged, it was
      reopened as often as the log leaves RESOLVED, and it was seen as often, first and last, as the
      dashboards listed it. Other domains may report anything else. */
  lemma {:induction false} RowsRecordTheRun(id: string, run: seq<Snapshot>, threshold: int, domainId: string)
    requires ListedBy(run, id, domainId)
    ensures RowRecords(History(id, run, threshold), id, run)
  {
    if run != [] {
      var earlier, s := run[..|run| - 1], run[|run| - 1];
      RowsRecordTheRun(id, earlier, threshold, domainId);
      RowsStayInDomain(id, earlier, threshold, domainId);
      var v := History(id, earlier, threshold);
      assert s in run;
      if Lists(s, id) {
        SightingIsRecorded(v, id, run, threshold);
      } else {
        AbsenceIsRecorded(v, id, run, threshold);
      }
    }
  }

  /** Counting every listing, a row has only seen its own domain's. */
  ghost predicate CountsItsDomain(row: Option<AlertRow>, id: string, run: seq<Snapshot>) {
    match row
    case None => TimesListed(id, run) == 0
    case Some(row) =>
      && row.repeatCount <= TimesListed(id, run)
      && (row.repeatCount == TimesListed(id, run) ==> ListedBy(run, id, row.domainId))
  }

  lemma {:induction false} RowsCountTheirDomain(id: string, run: seq<Snapshot>, threshold: int)
    ensures CountsItsDomain(History(id, run, threshold).row, id, run)
  {
    if run != [] {
      var earlier, s := run[..|run| - 1], run[|run| - 1];
      RowsCountTheirDomain(id, earlier, threshold);
      assert run == earlier + [s];
      if TimesListed(id, earlier) == 0 {
        NeverListed(id, earlier);
      }
    }
  }

  lemma {:induction false} NeverListed(id: string, run: seq<Snapshot>)
    requires TimesListed(id, run) == 0
    ensures forall s :: s in run ==> !Lists(s, id)
  {
    if run != [] {
      NeverListed(id, run[..|run| - 1]);
      assert run == run[..|run| - 1] + [run[|run| - 1]];
    }
  }

  /** A row tells its run exactly when no two domains list the alert in it. */
  lemma RowsRecordExactlyWhen(id: string, run: seq<Snapshot>, threshold: int)
    ensures RowRecords(History(id, run, threshold), id, run) <==> exists domainId :: ListedBy(run, id, domainId)
  {
    var v := History(id, run, threshold);
    if exists domainId :: ListedBy(run, id, domainId) {
      var domainId :| ListedBy(run, id, domainId);
      RowsRecordTheRun(id, run, threshold, domainId);
    }
    if RowRecords(v, id, run) {
      RowsCountTheirDomain(id, run, threshold);
      match v.row {
        case Some(row) =>
          assert ListedBy(run, id, row.domainId);
        case None =>
          NeverListed(id, run);
          assert ListedBy(run, id, "");
      }
    }
  }
}
