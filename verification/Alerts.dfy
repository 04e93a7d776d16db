/** The lifecycle of FMC health alerts: the transition rule of backend/app/monitoring/alerts.py and
    the tables backend/app/monitoring/repository.py keeps with it. */
module Alerts {
  import opened Wrappers

  datatype AlertLifecycle = NEW | ACTIVE | RESOLVED | REOPENED | FLAPPING | UNKNOWN

  /** The text a state is stored as. */
  function Name(state: AlertLifecycle): string {
    match state
    case NEW => "NEW"
    case ACTIVE => "ACTIVE"
    case RESOLVED => "RESOLVED"
    case REOPENED => "REOPENED"
    case FLAPPING => "FLAPPING"
    case UNKNOWN => "UNKNOWN"
  }

  /** A missing or empty text is no state, and one that names no state counts as UNKNOWN. */
  function Parse(text: Option<string>): (state: Option<AlertLifecycle>)
    ensures state.None? <==> text == None || text == Some("")
    ensures state.Some? && state.value != UNKNOWN ==> text == Some(Name(state.value))
  {
    if text == None || text == Some("") then None
    else if text.value == "NEW" then Some(NEW)
    else if text.value == "ACTIVE" then Some(ACTIVE)
    else if text.value == "RESOLVED" then Some(RESOLVED)
    else if text.value == "REOPENED" then Some(REOPENED)
    else if text.value == "FLAPPING" then Some(FLAPPING)
    else Some(UNKNOWN)
  }

  /** next_alert_lifecycle, on the text of the previous state. */
  function NextAlertLifecycle(previous: Option<string>, observedActive: bool, reopenCount: int,
                              threshold: int): AlertLifecycle {
    NextState(Parse(previous), observedActive, reopenCount, threshold)
  }

  /** A stored state is read back as itself, so the rule may be stated on states. */
  lemma StoredStateReadsBack(state: AlertLifecycle)
    ensures Parse(Some(Name(state))) == Some(state)
    ensures state == RESOLVED <==> Name(state) == Name(RESOLVED)
  {
  }

  function NextState(state: Option<AlertLifecycle>, observedActive: bool, reopenCount: int,
                     threshold: int): AlertLifecycle {
    if !observedActive then if state.Some? then RESOLVED else UNKNOWN
    else if state == None then NEW
    else if state == Some(RESOLVED) then if reopenCount + 1 >= threshold then FLAPPING else REOPENED
    else if state == Some(UNKNOWN) then ACTIVE
    else if state == Some(FLAPPING) then FLAPPING
    else ACTIVE
  }

  // ---------------------------------------------------------------- tables and snapshots

  datatype AlertRow = AlertRow(
    domainId: string, deviceId: string, severity: string, details: int, lifecycle: AlertLifecycle,
    firstSeenAt: int, lastSeenAt: int, resolvedAt: Option<int>, reopenCount: int, repeatCount: int)

  datatype ObservationRow = ObservationRow(alertId: string, observedAt: int, lifecycle: AlertLifecycle,
                                           severity: string, runId: string)

  datatype Tables = Tables(current: map<string, AlertRow>, observations: seq<ObservationRow>)

  /** An alert of a device; an empty id or device stands for a missing one. */
  datatype Alert = Alert(id: string, deviceUuid: string, severity: string, details: int)

  datatype Device = Device(id: string, healthAlerts: string, alerts: seq<Alert>)

  datatype Dashboard = Dashboard(domainId: string, runId: string, devices: seq<Device>)

  datatype Sighting = Sighting(deviceId: string, alert: Alert)

  function SightingOf(device: Device, alert: Alert): Sighting {
    Sighting(if alert.deviceUuid != "" then alert.deviceUuid else device.id, alert)
  }

  function DeviceSightings(device: Device, alerts: seq<Alert>): seq<Sighting> {
    if alerts == [] then []
    else
      var last := alerts[|alerts| - 1];
      DeviceSightings(device, alerts[..|alerts| - 1])
      + if last.id == "" then [] else [SightingOf(device, last)]
  }

  /** Every alert with an id, in the order of the dashboard. */
  function Sightings(devices: seq<Device>): seq<Sighting> {
    if devices == [] then []
    else Sightings(devices[..|devices| - 1]) + DeviceSightings(devices[|devices| - 1], devices[|devices| - 1].alerts)
  }

  /** Every device reported its alerts, possibly none. */
  predicate AlertsComplete(devices: seq<Device>) {
    devices != [] && forall d :: d in devices ==> d.healthAlerts in {"SUPPORTED", "AVAILABLE_NO_DATA"}
  }

  datatype Collection = Collection(domainId: string, runId: string, observedAt: int, threshold: int)

  predicate Recorded(c: Collection) {
    c.domainId != "" && c.runId != ""
  }

  /** The row an observed alert gets. */
  function ObservedRow(previous: Option<AlertRow>, s: Sighting, c: Collection): AlertRow {
    match previous
    case None =>
      AlertRow(c.domainId, s.deviceId, s.alert.severity, s.alert.details, NextState(None, true, 0, c.threshold),
               c.observedAt, c.observedAt, None, 0, 1)
    case Some(row) =>
      AlertRow(c.domainId, s.deviceId, s.alert.severity, s.alert.details,
               NextState(Some(row.lifecycle), true, row.reopenCount, c.threshold),
               row.firstSeenAt, c.observedAt, None, row.reopenCount + if row.lifecycle == RESOLVED then 1 else 0,
               row.repeatCount + 1)
  }

  function Logged(s: Sighting, lifecycle: AlertLifecycle, c: Collection): ObservationRow {
    ObservationRow(s.alert.id, c.observedAt, lifecycle, s.alert.severity, c.runId)
  }

  function Lookup(rows: map<string, AlertRow>, id: string): Option<AlertRow> {
    if id in rows then Some(rows[id]) else None
  }

  function SightOne(t: Tables, existing: map<string, AlertRow>, s: Sighting, c: Collection): Tables {
    var row := ObservedRow(Lookup(existing, s.alert.id), s, c);
    Tables(t.current[s.alert.id := row],
           t.observations + [Logged(s, row.lifecycle, c)])
  }

  function ResolvedRow(row: AlertRow, c: Collection): AlertRow {
    row.(lifecycle := RESOLVED, resolvedAt := Some(c.observedAt))
  }

  function ResolveOne(t: Tables, existing: map<string, AlertRow>, seen: set<string>, id: string,
                      c: Collection): Tables {
    if id !in existing || id in seen || existing[id].lifecycle == RESOLVED then t
    else
      Tables(if id in t.current then t.current[id := ResolvedRow(t.current[id], c)] else t.current,
             t.observations + [ObservationRow(id, c.observedAt, RESOLVED, existing[id].severity, c.runId)])
  }

  ghost function SightAll(t: Tables, existing: map<string, AlertRow>, ss: seq<Sighting>, c: Collection): Tables {
    if ss == [] then t else SightOne(SightAll(t, existing, ss[..|ss| - 1], c), existing, ss[|ss| - 1], c)
  }

  ghost function ResolveAll(t: Tables, existing: map<string, AlertRow>, seen: set<string>, ids: seq<string>,
                            c: Collection): Tables {
    if ids == [] then t
    else ResolveOne(ResolveAll(t, existing, seen, ids[..|ids| - 1], c), existing, seen, ids[|ids| - 1], c)
  }

  ghost function Ids(ss: seq<Sighting>): set<string> {
    if ss == [] then {} else Ids(ss[..|ss| - 1]) + {ss[|ss| - 1].alert.id}
  }

  lemma NextSighting(device: Device, alerts: seq<Alert>, j: nat, earlier: seq<Sighting>)
    requires j < |alerts|
    ensures
      var done := earlier + DeviceSightings(device, alerts[..j]);
      earlier + DeviceSightings(device, alerts[..j + 1])
      == if alerts[j].id == "" then done else done + [SightingOf(device, alerts[j])]
  {
    assert alerts[..j + 1][..j] == alerts[..j];
  }

  // ---------------------------------------------------------------- what one collection does to one alert

  /** All the tables hold about one alert. */
  datatype AlertView = AlertView(row: Option<AlertRow>, log: seq<ObservationRow>)

  ghost function LogOf(observations: seq<ObservationRow>, id: string): seq<ObservationRow> {
    if observations == [] then []
    else
      var last := observations[|observations| - 1];
      LogOf(observations[..|observations| - 1], id) + if last.alertId == id then [last] else []
  }

  ghost function View(t: Tables, id: string): AlertView {
    AlertView(Lookup(t.current, id), LogOf(t.observations, id))
  }

  ghost function SightingsOf(ss: seq<Sighting>, id: string): seq<Sighting> {
    if ss == [] then []
    else SightingsOf(ss[..|ss| - 1], id) + if ss[|ss| - 1].alert.id == id then [ss[|ss| - 1]] else []
  }

  /** The previous row counts only when it belongs to the collected domain. */
  ghost function InDomain(row: Option<AlertRow>, domainId: string): Option<AlertRow> {
    if row.Some? && row.value.domainId == domainId then row else None
  }

  ghost function SightingLog(previous: Option<AlertRow>, ss: seq<Sighting>, c: Collection): seq<ObservationRow> {
    if ss == [] then []
    else
      var last := ss[|ss| - 1];
      SightingLog(previous, ss[..|ss| - 1], c)
      + [Logged(last, ObservedRow(previous, last, c).lifecycle, c)]
  }

  /** A collection's effect on one alert: it is observed when the dashboard lists it, resolved when a
      complete dashboard of its domain does not, and otherwise left alone. */
  ghost function ViewAfter(v: AlertView, id: string, devices: seq<Device>, c: Collection): AlertView {
    var previous := InDomain(v.row, c.domainId);
    var seen := SightingsOf(Sightings(devices), id);
    if !Recorded(c) then v
    else if seen != [] then
      AlertView(Some(ObservedRow(previous, seen[|seen| - 1], c)), v.log + SightingLog(previous, seen, c))
    else if AlertsComplete(devices) && previous.Some? && previous.value.lifecycle != RESOLVED then
      AlertView(Some(ResolvedRow(previous.value, c)),
                v.log + [ObservationRow(id, c.observedAt, RESOLVED, previous.value.severity, c.runId)])
    else v
  }

  ghost predicate OfDomain(existing: map<string, AlertRow>, t: Tables, domainId: string) {
    && (forall id :: id in existing <==> id in t.current && t.current[id].domainId == domainId)
    && (forall id :: id in existing ==> existing[id] == t.current[id])
  }

  lemma LogGrows(observations: seq<ObservationRow>, row: ObservationRow, id: string)
    ensures LogOf(observations + [row], id)
         == if row.alertId == id then LogOf(observations, id) + [row] else LogOf(observations, id)
  {
    assert (observations + [row])[..|observations|] == observations;
  }

  /** An alert after the sightings of it in one collection. */
  ghost function SeenView(v: AlertView, previous: Option<AlertRow>, seen: seq<Sighting>, c: Collection): AlertView {
    if seen == [] then v
    else AlertView(Some(ObservedRow(previous, seen[|seen| - 1], c)), v.log + SightingLog(previous, seen, c))
  }

  lemma SeenViewNext(v: AlertView, previous: Option<AlertRow>, seen: seq<Sighting>, s: Sighting, c: Collection)
    ensures
      var row := ObservedRow(previous, s, c);
      SeenView(v, previous, seen + [s], c)
          == AlertView(Some(row), SeenView(v, previous, seen, c).log + [Logged(s, row.lifecycle, c)])
  {
    assert (seen + [s])[..|seen|] == seen;
    var logged := Logged(s, ObservedRow(previous, s, c).lifecycle, c);
    assert v.log + [] == v.log;
    assert v.log + (SightingLog(previous, seen, c) + [logged]) == v.log + SightingLog(previous, seen, c) + [logged];
  }

  lemma SightOneView(t: Tables, existing: map<string, AlertRow>, s: Sighting, c: Collection, id: string)
    ensures
      var row := ObservedRow(Lookup(existing, s.alert.id), s, c);
      View(SightOne(t, existing, s, c), id)
        == if s.alert.id == id then AlertView(Some(row), View(t, id).log + [Logged(s, row.lifecycle, c)])
            else View(t, id)
  {
    var row := ObservedRow(Lookup(existing, s.alert.id), s, c);
    LogGrows(t.observations, Logged(s, row.lifecycle, c), id);
  }

  lemma {:induction false} SightAllPerAlert(t: Tables, existing: map<string, AlertRow>, ss: seq<Sighting>,
                                            c: Collection, id: string)
    ensures View(SightAll(t, existing, ss, c), id)
        == SeenView(View(t, id), Lookup(existing, id), SightingsOf(ss, id), c)
  {
    if ss != [] {
      var earlier, s := ss[..|ss| - 1], ss[|ss| - 1];
      SightAllPerAlert(t, existing, earlier, c, id);
      SightOneView(SightAll(t, existing, earlier, c), existing, s, c, id);
      if s.alert.id == id {
        SeenViewNext(View(t, id), Lookup(existing, id), SightingsOf(earlier, id), s, c);
      } else {
        assert SightingsOf(ss, id) == SightingsOf(earlier, id);
      }
    }
  }

  ghost predicate Distinct(ids: seq<string>) {
    ids == [] || (ids[|ids| - 1] !in ids[..|ids| - 1] && Distinct(ids[..|ids| - 1]))
  }

  /** An alert after the pass over the rows that were not listed. */
  ghost function ResolvedView(v: AlertView, existing: map<string, AlertRow>, seen: set<string>, id: string,
                              c: Collection): AlertView {
    if id !in existing || id in seen || existing[id].lifecycle == RESOLVED then v
    else
      AlertView(if v.row.Some? then Some(ResolvedRow(v.row.value, c)) else None,
                v.log + [ObservationRow(id, c.observedAt, RESOLVED, existing[id].severity, c.runId)])
  }

  /** The order in which missing alerts are resolved does not matter. */
  lemma {:induction false} ResolveAllPerAlert(t: Tables, existing: map<string, AlertRow>, seen: set<string>,
                                              ids: seq<string>, c: Collection, id: string)
    requires Distinct(ids)
    ensures
      View(ResolveAll(t, existing, seen, ids, c), id)
      == if id in ids then ResolvedView(View(t, id), existing, seen, id, c) else View(t, id)
  {
    if ids != [] {
      var earlier, last := ids[..|ids| - 1], ids[|ids| - 1];
      ResolveAllPerAlert(t, existing, seen, earlier, c, id);
      assert id in ids <==> id == last || id in earlier;
    }
  }

  lemma {:induction false} SeenIds(ss: seq<Sighting>, id: string)
    ensures id in Ids(ss) <==> SightingsOf(ss, id) != []
  {
    if ss != [] {
      SeenIds(ss[..|ss| - 1], id);
    }
  }

  /** The two passes over the tables have on every alert the effect stated for it alone. */
  lemma CollectionPerAlert(t: Tables, existing: map<string, AlertRow>, ids: seq<string>, devices: seq<Device>,
                           c: Collection, id: string)
    requires Recorded(c) && OfDomain(existing, t, c.domainId) && Distinct(ids)
    requires forall i :: i in ids <==> i in existing
    ensures
      var sighted := SightAll(t, existing, Sightings(devices), c);
      var seen := Ids(Sightings(devices));
      View(if AlertsComplete(devices) then ResolveAll(sighted, existing, seen, ids, c) else sighted, id)
        == ViewAfter(View(t, id), id, devices, c)
  {
    var ss := Sightings(devices);
    var sighted := SightAll(t, existing, ss, c);
    SightAllPerAlert(t, existing, ss, c, id);
    SeenIds(ss, id);
    assert Lookup(existing, id) == InDomain(Lookup(t.current, id), c.domainId);
    if SightingsOf(ss, id) == [] {
      assert View(sighted, id) == View(t, id);
    }
    if AlertsComplete(devices) {
      ResolveAllPerAlert(sighted, existing, Ids(ss), ids, c, id);
    }
  }

  // ---------------------------------------------------------------- the tables

  class AlertStore {
    var current: map<string, AlertRow>
    var observations: seq<ObservationRow>

    /** The query for a domain's rows, which come in no particular order. */
    method SelectDomain(domainId: string) returns (existing: map<string, AlertRow>, ids: seq<string>)
      ensures OfDomain(existing, Tables(current, observations), domainId)
      ensures Distinct(ids) && forall i :: i in ids <==> i in existing
    {
      existing := map id | id in current && current[id].domainId == domainId :: current[id];
      ids := [];
      var left := existing.Keys;
      while left != {}
        invariant left <= existing.Keys && Distinct(ids)
        invariant forall i :: i in ids <==> i in existing && i !in left
        decreases left
      {
        var id :| id in left;
        assert (ids + [id])[..|ids|] == ids;
        ids := ids + [id];
        left := left - {id};
      }
    }

    /** _persist_alerts. */
    method PersistAlerts(dashboard: Dashboard, observedAt: int, threshold: int)
      modifies this
      ensures forall id ::
        View(Tables(current, observations), id)
          == ViewAfter(old(View(Tables(current, observations), id)), id, dashboard.devices,
                       Collection(dashboard.domainId, dashboard.runId, observedAt, threshold))
    {
      var c := Collection(dashboard.domainId, dashboard.runId, observedAt, threshold);
      if dashboard.domainId == "" || dashboard.runId == "" {
        return;
      }
      ghost var before := Tables(current, observations);
      var existing, ids := SelectDomain(dashboard.domainId);
      var seenIds := ObserveDevices(dashboard.devices, existing, c);
      if AlertsComplete(dashboard.devices) {
        ResolveMissing(existing, ids, seenIds, c);
      }
      forall id ensures View(Tables(current, observations), id)
          == ViewAfter(View(before, id), id, dashboard.devices, c) {
        CollectionPerAlert(before, existing, ids, dashboard.devices, c, id);
      }
    }

    /** The outer loop, over devices. */
    method ObserveDevices(devices: seq<Device>, existing: map<string, AlertRow>, c: Collection)
      returns (seenIds: set<string>)
      modifies this
      ensures Tables(current, observations)
          == SightAll(old(Tables(current, observations)), existing, Sightings(devices), c)
      ensures seenIds == Ids(Sightings(devices))
    {
      seenIds := {};
      ghost var before := Tables(current, observations);
      var i := 0;
      while i < |devices|
        invariant 0 <= i <= |devices|
        invariant Tables(current, observations) == SightAll(before, existing, Sightings(devices[..i]), c)
        invariant seenIds == Ids(Sightings(devices[..i]))
      {
        assert devices[..i + 1][..i] == devices[..i];
        seenIds := ObserveDevice(devices[i], existing, c, seenIds, before, Sightings(devices[..i]));
        i := i + 1;
      }
      assert devices[..i] == devices;
    }

    /** The inner loop, over the alerts of one device, after the sightings of earlier devices. */
    method ObserveDevice(device: Device, existing: map<string, AlertRow>, c: Collection, seenBefore: set<string>,
                         ghost before: Tables, ghost earlier: seq<Sighting>)
      returns (seenIds: set<string>)
      requires Tables(current, observations) == SightAll(before, existing, earlier, c) && seenBefore == Ids(earlier)
      modifies this
      ensures Tables(current, observations)
          == SightAll(before, existing, earlier + DeviceSightings(device, device.alerts), c)
      ensures seenIds == Ids(earlier + DeviceSightings(device, device.alerts))
    {
      seenIds := seenBefore;
      ghost var done := earlier;
      assert earlier + [] == earlier;
      var j := 0;
      while j < |device.alerts|
        invariant 0 <= j <= |device.alerts| && done == earlier + DeviceSightings(device, device.alerts[..j])
        invariant Tables(current, observations) == SightAll(before, existing, done, c)
        invariant seenIds == Ids(done)
      {
        var alert := device.alerts[j];
        NextSighting(device, device.alerts, j, earlier);
        if alert.id != "" {
          var s := SightingOf(device, alert);
          seenIds := seenIds + {alert.id};
          Observe(existing, s, c);
          done := done + [s];
        }
        j := j + 1;
      }
      assert device.alerts[..j] == device.alerts;
    }

    /** One alert: the upsert of its row and the new observation. */
    method Observe(existing: map<string, AlertRow>, s: Sighting, c: Collection)
      modifies this
      ensures Tables(current, observations) == SightOne(old(Tables(current, observations)), existing, s, c)
    {
      var previous := Lookup(existing, s.alert.id);
      var previousState := match previous case Some(row) => Some(Name(row.lifecycle)) case None => None;
      var previousReopens := match previous case Some(row) => row.reopenCount case None => 0;
      var lifecycle := NextAlertLifecycle(previousState, true, previousReopens, c.threshold);
      if previous.Some? {
        StoredStateReadsBack(previous.value.lifecycle);
      }
      var reopened := previousState == Some(Name(RESOLVED));
      var row := AlertRow(
        c.domainId, s.deviceId, s.alert.severity, s.alert.details, lifecycle,
        match previous case Some(row) => row.firstSeenAt case None => c.observedAt,
        c.observedAt, None, previousReopens + if reopened then 1 else 0,
        match previous case Some(row) => row.repeatCount + 1 case None => 1);
      current := current[s.alert.id := row];
      observations := observations + [ObservationRow(s.alert.id, c.observedAt, lifecycle, s.alert.severity, c.runId)];
    }

    /** The loop over the domain's rows that were not listed. */
    method ResolveMissing(existing: map<string, AlertRow>, ids: seq<string>, seenIds: set<string>, c: Collection)
      requires forall i :: i in ids ==> i in existing
      modifies this
      ensures Tables(current, observations) == ResolveAll(old(Tables(current, observations)), existing, seenIds, ids, c)
    {
      var i := 0;
      while i < |ids|
        invariant 0 <= i <= |ids|
        invariant Tables(current, observations)
            == ResolveAll(old(Tables(current, observations)), existing, seenIds, ids[..i], c)
      {
        var id := ids[i];
        assert ids[..i + 1][..i] == ids[..i];
        if !(id in seenIds || existing[id].lifecycle == RESOLVED) {
          if id in current {
            current := current[id := ResolvedRow(current[id], c)];
          }
          observations := observations + [ObservationRow(id, c.observedAt, RESOLVED, existing[id].severity, c.runId)];
        }
        i := i + 1;
      }
      assert ids[..i] == ids;
    }
  }
}
