/** What a merge of a partial collection leaves (_merge_scope of backend/app/integrations/fmc/service.py),
    field by field: the dashboard's own fields, the recounted totals, and each device's fields. */
module ScopeMergeFields {
  import opened Wrappers
  import opened ScopeMerge

  // ---------------------------------------------------------------- the dashboard's own fields

  /** Collection id and time are those of the collection, the domain too if it names one; pairs come
      from the high-availability scope and the analysis from the policy scope alone. */
  lemma DashboardFields(cached: Dashboard, component: Dashboard, scope: Scope)
    requires scope != Full
    ensures
      var merged := Merged(Some(cached), component, scope);
      && merged.runId == component.runId && merged.collectedAt == component.collectedAt
      && (component.domainId.Some? && component.domainId.value != "" ==> merged.domainId == component.domainId)
      && (component.domainId == None || component.domainId == Some("") ==> merged.domainId == cached.domainId)
      && (scope == Ha ==> merged.haPairs == component.haPairs) && (scope != Ha ==> merged.haPairs == cached.haPairs)
      && (scope == Policy ==> merged.policyAnalysis == component.policyAnalysis)
      && (scope != Policy ==> merged.policyAnalysis == cached.policyAnalysis)
      && merged.rest == cached.rest
  {
  }

  /** A full collection, and the first one, are taken as they come. */
  lemma FullCollectionsReplace(current: Option<Dashboard>, component: Dashboard)
    ensures Merged(current, component, Full) == component
    ensures forall scope :: Merged(None, component, scope) == component
  {
  }

  // ---------------------------------------------------------------- the totals

  /** All alerts of the devices, one after the other. */
  function AlertsOf(items: seq<Item>): seq<Alert> {
    if items == [] then [] else AlertsOf(items[..|items| - 1]) + Or(items[|items| - 1].alerts, [])
  }

  /** The letters of a word, each in either case. */
  predicate Spells(text: string, lower: string, upper: string)
    requires |lower| == |upper|
  {
    |text| == |lower| && forall i :: 0 <= i < |text| ==> text[i] == lower[i] || text[i] == upper[i]
  }

  ghost predicate IsRed(a: Alert) {
    Spells(a.status, "red", "RED")
  }

  ghost predicate IsYellow(a: Alert) {
    Spells(a.status, "yellow", "YELLOW")
  }

  ghost predicate IsConnected(item: Item) {
    item.device.Some? && item.device.value.isConnected
  }

  ghost function RedPlaces(alerts: seq<Alert>): set<nat> {
    set i: nat | i < |alerts| && IsRed(alerts[i])
  }

  ghost function YellowPlaces(alerts: seq<Alert>): set<nat> {
    set i: nat | i < |alerts| && IsYellow(alerts[i])
  }

  ghost function ConnectedPlaces(items: seq<Item>): set<nat> {
    set i: nat | i < |items| && IsConnected(items[i])
  }

  ghost predicate TotalsAreRight(items: seq<Item>, t: Totals) {
    var alerts := AlertsOf(items);
    && t.devices == |items|
    && t.connected == |ConnectedPlaces(items)|
    && t.alerts == |alerts|
    && t.red == |RedPlaces(alerts)|
    && t.yellow == |YellowPlaces(alerts)|
  }

  lemma {:induction false} UpperAt(s: string)
    ensures |Upper(s)| == |s|
    ensures forall i :: 0 <= i < |s| ==> Upper(s)[i] == if 'a' <= s[i] <= 'z' then s[i] - 'a' + 'A' else s[i]
  {
    if s != [] {
      UpperAt(s[1..]);
    }
  }

  lemma UpperSpells(s: string)
    ensures Upper(s) == "RED" <==> Spells(s, "red", "RED")
    ensures Upper(s) == "YELLOW" <==> Spells(s, "yellow", "YELLOW")
  {
    UpperAt(s);
  }

  lemma NextPlaces(front: seq<Alert>, last: Alert)
    ensures RedPlaces(front + [last]) == RedPlaces(front) + if IsRed(last) then {|front|} else {}
    ensures YellowPlaces(front + [last]) == YellowPlaces(front) + if IsYellow(last) then {|front|} else {}
  {
  }

  lemma {:induction false} StatusesAreCounted(alerts: seq<Alert>)
    ensures CountStatus(alerts, "RED") == |RedPlaces(alerts)|
    ensures CountStatus(alerts, "YELLOW") == |YellowPlaces(alerts)|
  {
    if alerts == [] {
      assert RedPlaces(alerts) == {} && YellowPlaces(alerts) == {};
    } else {
      var front, last := alerts[..|alerts| - 1], alerts[|alerts| - 1];
      StatusesAreCounted(front);
      UpperSpells(last.status);
      assert alerts == front + [last];
      NextPlaces(front, last);
    }
  }

  lemma {:induction false} CountJoins(a: seq<Alert>, b: seq<Alert>, status: string)
    ensures CountStatus(a + b, status) == CountStatus(a, status) + CountStatus(b, status)
  {
    if b == [] {
      assert a + b == a;
    } else {
      CountJoins(a, b[..|b| - 1], status);
      assert (a + b)[..|a + b| - 1] == a + b[..|b| - 1];
    }
  }

  lemma {:induction false} RecountCounts(items: seq<Item>)
    ensures
      var t := Recount(items);
      && t.devices == |items| && t.alerts == |AlertsOf(items)|
      && t.red == CountStatus(AlertsOf(items), "RED") && t.yellow == CountStatus(AlertsOf(items), "YELLOW")
  {
    if items != [] {
      var front, last := items[..|items| - 1], items[|items| - 1];
      RecountCounts(front);
      CountJoins(AlertsOf(front), Or(last.alerts, []), "RED");
      CountJoins(AlertsOf(front), Or(last.alerts, []), "YELLOW");
    }
  }

  lemma NextConnected(front: seq<Item>, last: Item)
    ensures ConnectedPlaces(front + [last]) == ConnectedPlaces(front) + if IsConnected(last) then {|front|} else {}
  {
  }

  lemma {:induction false} RecountConnected(items: seq<Item>)
    ensures Recount(items).connected == |ConnectedPlaces(items)|
  {
    if items == [] {
      assert ConnectedPlaces(items) == {};
    } else {
      var front, last := items[..|items| - 1], items[|items| - 1];
      RecountConnected(front);
      assert items == front + [last];
      NextConnected(front, last);
    }
  }

  /** After a merge into a cache the totals count the devices, those connected, the alerts, and the red
      and yellow ones among them in any case of letters. */
  lemma TotalsCount(cached: Dashboard, component: Dashboard, scope: Scope)
    requires scope != Full
    ensures var merged := Merged(Some(cached), component, scope); TotalsAreRight(merged.devices, merged.totals)
  {
    var items := Merged(Some(cached), component, scope).devices;
    RecountCounts(items);
    RecountConnected(items);
    StatusesAreCounted(AlertsOf(items));
  }

  // ---------------------------------------------------------------- one device's fields

  /** The fields a health collection does not own. */
  ghost predicate HealthKeeps(before: Item, after: Item) {
    && after.rawReferences == before.rawReferences && after.interfaces == before.interfaces
    && after.alerts == before.alerts && after.ha == before.ha
  }

  ghost predicate Measures(incoming: Item, after: Item) {
    && after.load == Some(Or(incoming.load, EmptyObject))
    && after.aggregateStatus == Some(Or(incoming.aggregateStatus, NoData))
    && after.diagnostics == Some(Or(incoming.diagnostics, EmptyArray))
    && after.collectionErrors == Some(Or(incoming.collectionErrors, EmptyArray))
  }

  ghost predicate Joins(before: Item, incoming: Item, after: Item) {
    after.capabilities == Some(Or(before.capabilities, map[]) + Or(incoming.capabilities, map[]))
  }

  /** What each scope writes of a device that it lists once, and what it keeps. */
  ghost predicate Writes(scope: Scope, before: Item, incoming: Item, after: Item) {
    && after.device == incoming.device
    && match scope
       case Discovery =>
         after == before.(device := incoming.device, rawReferences := Some(Or(incoming.rawReferences, EmptyArray)))
       case Health => HealthKeeps(before, after) && Measures(incoming, after) && Joins(before, incoming, after)
       case Interfaces =>
         && after.interfaces == Some(Or(incoming.interfaces, EmptyArray))
         && after.rawReferences == before.rawReferences && after.alerts == before.alerts && after.ha == before.ha
         && Measures(incoming, after) && Joins(before, incoming, after)
       case AlertsScope =>
         && after.alerts == Some(Or(incoming.alerts, []))
         && after.collectionErrors == Some(Or(incoming.collectionErrors, EmptyArray)) && Joins(before, incoming, after)
         && after.rawReferences == before.rawReferences && after.load == before.load
         && after.aggregateStatus == before.aggregateStatus && after.diagnostics == before.diagnostics
         && after.interfaces == before.interfaces && after.ha == before.ha
       case _ => after == before.(device := incoming.device, ha := after.ha)
  }

  /** The device is a member of the pair. */
  predicate Member(pair: Pair, id: string) {
    id != "" && (pair.primary == id || pair.secondary == id)
  }

  /** The last pair the device is a member of. */
  ghost predicate IsLastPair(pairs: seq<Pair>, id: string, pair: Pair) {
    exists k :: 0 <= k < |pairs| && pairs[k] == pair && Member(pair, id)
                && forall j :: k < j < |pairs| ==> !Member(pairs[j], id)
  }

  lemma EarlierLastPair(front: seq<Pair>, last: Pair, id: string, pair: Pair)
    requires IsLastPair(front, id, pair) && !Member(last, id)
    ensures IsLastPair(front + [last], id, pair)
  {
    var k :| 0 <= k < |front| && front[k] == pair && forall j :: k < j < |front| ==> !Member(front[j], id);
    assert (front + [last])[k] == pair;
  }

  lemma {:induction false} PairOfIsLast(pairs: seq<Pair>, id: string)
    ensures PairOf(pairs, id).None? <==> forall p :: p in pairs ==> !Member(p, id)
    ensures PairOf(pairs, id).Some? ==> IsLastPair(pairs, id, PairOf(pairs, id).value)
  {
    if pairs != [] {
      var front, last := pairs[..|pairs| - 1], pairs[|pairs| - 1];
      PairOfIsLast(front, id);
      assert pairs == front + [last] && last in pairs;
      if Member(last, id) {
        assert pairs[|pairs| - 1] == last && IsLastPair(pairs, id, last);
      } else if PairOf(front, id).Some? {
        EarlierLastPair(front, last, id, PairOf(front, id).value);
      }
    }
  }

  lemma MergeItemWrites(previous: Option<Item>, incoming: Item, scope: Scope)
    requires scope != Full
    ensures var before, after := Or(previous, NO_ITEM), MergeItem(previous, incoming, scope);
            Writes(scope, before, incoming, after) && after.ha == before.ha
  {
  }

  lemma PairIsAttached(item: Item, pairs: seq<Pair>, id: string)
    requires Id(item) == id
    ensures
      var after := WithPair(item, pairs);
      && after == item.(ha := after.ha)
      && ((exists p :: p in pairs && Member(p, id)) ==>
            after.ha.Some? && IsLastPair(pairs, id, after.ha.value))
      && ((forall p :: p in pairs ==> !Member(p, id)) ==> after == item)
  {
    PairOfIsLast(pairs, id);
  }

  lemma WritesDespitePair(scope: Scope, before: Item, incoming: Item, after: Item, ha: Option<Pair>)
    requires scope == Ha && Writes(scope, before, incoming, after)
    ensures Writes(scope, before, incoming, after.(ha := ha))
  {
  }

  /** A device listed once gets from the collection what the scope owns and keeps the rest; the pair
      comes from the high-availability scope, if the device is in one. */
  lemma ScopesWriteWhatTheyOwn(cached: Dashboard, component: Dashboard, scope: Scope, id: string, incoming: Item)
    requires scope != Full && id != "" && IncomingOf(component.devices, id) == [incoming]
    ensures
      var before := Or(Find(cached.devices, id), NO_ITEM);
      var after := Find(Merged(Some(cached), component, scope).devices, id);
      && after.Some? && Writes(scope, before, incoming, after.value)
      && (scope == Ha && (exists p :: p in component.haPairs && Member(p, id)) ==>
            after.value.ha.Some? && IsLastPair(component.haPairs, id, after.value.ha.value))
      && (scope != Ha || (forall p :: p in component.haPairs ==> !Member(p, id)) ==> after.value.ha == before.ha)
  {
    var previous := Find(cached.devices, id);
    var item := MergeItem(previous, incoming, scope);
    MergePerDevice(cached.devices, component, scope, id);
    MergeItemWrites(previous, incoming, scope);
    assert [incoming][..0] == [] && [incoming][0] in IncomingOf(component.devices, id);
    IncomingIds(component.devices, id);
    assert ItemAfter(previous, [incoming], scope) == Some(item);
    if scope == Ha {
      PairIsAttached(item, component.haPairs, id);
      WritesDespitePair(scope, Or(previous, NO_ITEM), incoming, item, WithPair(item, component.haPairs).ha);
    }
  }

  lemma {:induction false} IncomingIds(items: seq<Item>, id: string)
    ensures forall item :: item in IncomingOf(items, id) ==> Id(item) == id
  {
    if items != [] {
      IncomingIds(items[..|items| - 1], id);
    }
  }

  /** A device the collection does not list keeps its entry, but for a pair it is found in. */
  lemma UnlistedDevicesStay(cached: Dashboard, component: Dashboard, scope: Scope, id: string)
    requires scope != Full && id != "" && !Has(component.devices, id)
    ensures
      var before, after := Find(cached.devices, id), Find(Merged(Some(cached), component, scope).devices, id);
      && (after.Some? <==> before.Some?)
      && (after.Some? ==> after.value == before.value.(ha := after.value.ha))
      && (after.Some? && (scope != Ha || forall p :: p in component.haPairs ==> !Member(p, id)) ==> after == before)
  {
    MergePerDevice(cached.devices, component, scope, id);
    IncomingMeansHas(component.devices, id);
    FindMeansHas(cached.devices, id);
    PairOfIsLast(component.haPairs, id);
  }
}
