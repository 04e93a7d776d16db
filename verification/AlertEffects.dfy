/** What one collection does to one alert (_persist_alerts of backend/app/monitoring/repository.py and
    the rule of backend/app/monitoring/alerts.py), case by case in terms of what the dashboard lists. */
module AlertEffects {
  import opened Wrappers
  import opened Alerts

  /** The dashboard lists the alert. */
  ghost predicate Listed(devices: seq<Device>, id: string) {
    exists d, a :: d in devices && a in d.alerts && a.id == id
  }

  /** A device that says neither that it supports alerts nor that it has none. */
  predicate Withholds(d: Device) {
    d.healthAlerts != "SUPPORTED" && d.healthAlerts != "AVAILABLE_NO_DATA"
  }

  lemma {:induction false} SightingsOfJoin(a: seq<Sighting>, b: seq<Sighting>, id: string)
    ensures SightingsOf(a + b, id) == SightingsOf(a, id) + SightingsOf(b, id)
  {
    if b == [] {
      assert a + b == a;
    } else {
      SightingsOfJoin(a, b[..|b| - 1], id);
      assert (a + b)[..|a + b| - 1] == a + b[..|b| - 1];
    }
  }

  /** The sighting is one of the dashboard's own: its alert is listed by a device, which stands for the
      alert's device when the alert names none. */
  ghost predicate Genuine(s: Sighting, devices: seq<Device>, id: string) {
    exists d :: d in devices && s.alert in d.alerts && s.alert.id == id
                && s.deviceId == if s.alert.deviceUuid != "" then s.alert.deviceUuid else d.id
  }

  lemma NextDeviceSighting(device: Device, front: seq<Alert>, last: Alert, id: string)
    requires id != ""
    ensures SightingsOf(DeviceSightings(device, front + [last]), id)
         == SightingsOf(DeviceSightings(device, front), id) + if last.id == id then [SightingOf(device, last)] else []
  {
    var earlier := DeviceSightings(device, front);
    assert (front + [last])[..|front|] == front;
    if last.id == "" {
      assert DeviceSightings(device, front + [last]) == earlier;
    } else {
      assert DeviceSightings(device, front + [last]) == earlier + [SightingOf(device, last)];
      assert (earlier + [SightingOf(device, last)])[..|earlier|] == earlier;
    }
  }

  lemma {:induction false} DeviceSightingIsGenuine(device: Device, alerts: seq<Alert>, s: Sighting, id: string)
    requires id != "" && s in SightingsOf(DeviceSightings(device, alerts), id)
    ensures s.alert in alerts && s.alert.id == id
    ensures s.deviceId == if s.alert.deviceUuid != "" then s.alert.deviceUuid else device.id
  {
    if alerts != [] {
      var front, last := alerts[..|alerts| - 1], alerts[|alerts| - 1];
      assert alerts == front + [last];
      NextDeviceSighting(device, front, last, id);
      if s in SightingsOf(DeviceSightings(device, front), id) {
        DeviceSightingIsGenuine(device, front, s, id);
      }
    }
  }

  lemma {:induction false} ListedByDevice(device: Device, alerts: seq<Alert>, a: Alert)
    requires a in alerts && a.id != ""
    ensures SightingsOf(DeviceSightings(device, alerts), a.id) != []
  {
    var front, last := alerts[..|alerts| - 1], alerts[|alerts| - 1];
    assert alerts == front + [last];
    NextDeviceSighting(device, front, last, a.id);
    if last != a {
      ListedByDevice(device, front, a);
    }
  }

  lemma NextDevice(front: seq<Device>, last: Device, id: string)
    ensures SightingsOf(Sightings(front + [last]), id)
         == SightingsOf(Sightings(front), id) + SightingsOf(DeviceSightings(last, last.alerts), id)
  {
    assert (front + [last])[..|front|] == front;
    SightingsOfJoin(Sightings(front), DeviceSightings(last, last.alerts), id);
  }

  lemma {:induction false} SightingsAreGenuine(devices: seq<Device>, s: Sighting, id: string)
    requires id != "" && s in SightingsOf(Sightings(devices), id)
    ensures Genuine(s, devices, id)
  {
    if devices != [] {
      var front, last := devices[..|devices| - 1], devices[|devices| - 1];
      assert devices == front + [last];
      NextDevice(front, last, id);
      if s in SightingsOf(Sightings(front), id) {
        SightingsAreGenuine(front, s, id);
      } else {
        DeviceSightingIsGenuine(last, last.alerts, s, id);
        assert last in devices;
      }
    }
  }

  lemma {:induction false} ListedIsSighted(devices: seq<Device>, d: Device, a: Alert)
    requires d in devices && a in d.alerts && a.id != ""
    ensures SightingsOf(Sightings(devices), a.id) != []
  {
    var front, last := devices[..|devices| - 1], devices[|devices| - 1];
    assert devices == front + [last];
    NextDevice(front, last, a.id);
    if last == d {
      ListedByDevice(d, d.alerts, a);
    } else {
      ListedIsSighted(front, d, a);
    }
  }

  lemma ListedMeansSighted(devices: seq<Device>, id: string)
    requires id != ""
    ensures SightingsOf(Sightings(devices), id) != [] <==> Listed(devices, id)
  {
    var seen := SightingsOf(Sightings(devices), id);
    if seen != [] {
      SightingsAreGenuine(devices, seen[0], id);
    }
    if Listed(devices, id) {
      var d, a :| d in devices && a in d.alerts && a.id == id;
      ListedIsSighted(devices, d, a);
    }
  }

  /** The state of an alert that is listed: NEW without a row of its domain, FLAPPING for good, and
      after RESOLVED either reopened or, from the threshold on, flapping. */
  ghost predicate FollowsRule(previous: Option<AlertRow>, row: AlertRow, threshold: int) {
    match previous
    case None => row.lifecycle == NEW && row.reopenCount == 0 && row.repeatCount == 1
    case Some(p) =>
      && row.repeatCount == p.repeatCount + 1 && row.firstSeenAt == p.firstSeenAt
      && (p.lifecycle == RESOLVED ==>
            row.reopenCount == p.reopenCount + 1
            && row.lifecycle == if row.reopenCount >= threshold then FLAPPING else REOPENED)
      && (p.lifecycle != RESOLVED ==> row.reopenCount == p.reopenCount)
      && (p.lifecycle == FLAPPING ==> row.lifecycle == FLAPPING)
      && (p.lifecycle in {NEW, ACTIVE, REOPENED, UNKNOWN} ==> row.lifecycle == ACTIVE)
  }

  /** A listed alert gets a row of the domain, active as of now, that follows the rule and holds what
      some listing of it says; the same is logged. */
  lemma ListedAlertsAreObserved(v: AlertView, id: string, devices: seq<Device>, c: Collection)
    requires c.domainId != "" && c.runId != "" && id != "" && Listed(devices, id)
    ensures
      var after := ViewAfter(v, id, devices, c);
      && after.row.Some?
      && var row := after.row.value;
      && row.domainId == c.domainId && row.lastSeenAt == c.observedAt && row.resolvedAt == None
      && FollowsRule(InDomain(v.row, c.domainId), row, c.threshold)
      && (InDomain(v.row, c.domainId).None? ==> row.firstSeenAt == c.observedAt)
      && (exists s :: Genuine(s, devices, id) && row.deviceId == s.deviceId && row.severity == s.alert.severity
                      && row.details == s.alert.details
                      && after.log[|after.log| - 1..]
                          == [ObservationRow(id, c.observedAt, row.lifecycle, row.severity, c.runId)])
      && v.log < after.log
  {
    var seen := SightingsOf(Sightings(devices), id);
    ListedMeansSighted(devices, id);
    var s, previous := seen[|seen| - 1], InDomain(v.row, c.domainId);
    SightingsAreGenuine(devices, s, id);
    SightingLogGrows(previous, seen, c);
  }

  lemma {:induction false} SightingLogGrows(previous: Option<AlertRow>, seen: seq<Sighting>, c: Collection)
    ensures |SightingLog(previous, seen, c)| == |seen|
    ensures seen != [] ==>
              var s := seen[|seen| - 1];
              SightingLog(previous, seen, c)[|seen| - 1] == Logged(s, ObservedRow(previous, s, c).lifecycle, c)
  {
    if seen != [] {
      SightingLogGrows(previous, seen[..|seen| - 1], c);
    }
  }

  /** An alert of the domain that no device lists is resolved, if there are devices and all of them
      reported their alerts. */
  lemma MissingAlertsAreResolved(v: AlertView, id: string, devices: seq<Device>, c: Collection)
    requires c.domainId != "" && c.runId != "" && id != "" && !Listed(devices, id)
    requires devices != [] && forall d :: d in devices ==> !Withholds(d)
    requires v.row.Some? && v.row.value.domainId == c.domainId && v.row.value.lifecycle != RESOLVED
    ensures
      var after := ViewAfter(v, id, devices, c);
      && after.row == Some(v.row.value.(lifecycle := RESOLVED, resolvedAt := Some(c.observedAt)))
      && after.log == v.log + [ObservationRow(id, c.observedAt, RESOLVED, v.row.value.severity, c.runId)]
  {
    ListedMeansSighted(devices, id);
  }

  /** In every other case nothing changes: no devices, a device that withholds its alerts, an alert of
      another domain or already resolved, or a collection without a domain or a run. */
  lemma OtherAlertsAreLeftAlone(v: AlertView, id: string, devices: seq<Device>, c: Collection)
    requires id != ""
    requires || c.domainId == "" || c.runId == ""
             || (!Listed(devices, id)
                 && (devices == [] || (exists d :: d in devices && Withholds(d))
                     || v.row.None? || v.row.value.domainId != c.domainId || v.row.value.lifecycle == RESOLVED))
    ensures ViewAfter(v, id, devices, c) == v
  {
    ListedMeansSighted(devices, id);
  }

  /** The lifecycle rule on the stored text: an alert no longer active is resolved if it had any state,
      and an active one is new without one, reopened or flapping after RESOLVED, flapping after
      FLAPPING, and active after anything else, known or not. */
  lemma LifecycleByText(previous: Option<string>, active: bool, reopens: int, threshold: int)
    ensures
      var never := previous == None || previous == Some("");
      NextAlertLifecycle(previous, active, reopens, threshold)
        == if !active then (if never then UNKNOWN else RESOLVED)
           else if never then NEW
           else if previous == Some("RESOLVED") then (if reopens + 1 >= threshold then FLAPPING else REOPENED)
           else if previous == Some("FLAPPING") then FLAPPING
           else ACTIVE
  {
  }
}
