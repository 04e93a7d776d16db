/** How a partial collection is merged into the cached dashboard (_merge_scope of
    backend/app/integrations/fmc/service.py). */
module ScopeMerge {
  import opened Wrappers

  datatype Scope = Full | Discovery | Health | Interfaces | AlertsScope | Ha | Policy

  /** JSON values the merge only moves around. */
  datatype Json = EmptyObject | EmptyArray | NoData | Opaque(code: int)

  datatype DeviceInfo = DeviceInfo(id: string, isConnected: bool, details: Json)

  datatype Alert = Alert(status: string, details: Json)

  /** Two members, given by their device ids; an empty id stands for a missing member. */
  datatype Pair = Pair(primary: string, secondary: string, details: Json)

  /** A device entry; None is a key the entry does not have. */
  datatype Item = Item(
    device: Option<DeviceInfo>, rawReferences: Option<Json>,
    load: Option<Json>, aggregateStatus: Option<Json>, diagnostics: Option<Json>, collectionErrors: Option<Json>,
    capabilities: Option<map<string, string>>, interfaces: Option<Json>, alerts: Option<seq<Alert>>, ha: Option<Pair>)

  datatype Totals = Totals(devices: nat, connected: nat, alerts: nat, red: nat, yellow: nat)

  datatype Dashboard = Dashboard(
    runId: Option<string>, collectedAt: Option<string>, domainId: Option<string>, devices: seq<Item>,
    haPairs: seq<Pair>, policyAnalysis: Json, totals: Totals, rest: Json)

  const NO_ITEM := Item(None, None, None, None, None, None, None, None, None, None)

  /** The entry's device id; the empty text when it has none. */
  function Id(item: Item): string {
    match item.device case Some(info) => info.id case None => ""
  }

  function Or<T>(value: Option<T>, default: T): T {
    match value case Some(v) => v case None => default
  }

  function Truthy(a: Option<string>, b: Option<string>): Option<string> {
    if a.Some? && a.value != "" then a else b
  }

  // ---------------------------------------------------------------- a dictionary of entries

  predicate Has(items: seq<Item>, id: string) {
    items != [] && (Id(items[|items| - 1]) == id || Has(items[..|items| - 1], id))
  }

  /** The last entry with an id. */
  function Find(items: seq<Item>, id: string): Option<Item> {
    if items == [] then None
    else if Id(items[|items| - 1]) == id then Some(items[|items| - 1])
    else Find(items[..|items| - 1], id)
  }

  function Replace(items: seq<Item>, item: Item): seq<Item> {
    if items == [] then []
    else
      var last := items[|items| - 1];
      if Id(last) == Id(item) then items[..|items| - 1] + [item] else Replace(items[..|items| - 1], item) + [last]
  }

  /** Assignment to a key of a Python dictionary: an old key keeps its place, a new one goes last. */
  function Put(items: seq<Item>, item: Item): seq<Item> {
    if Has(items, Id(item)) then Replace(items, item) else items + [item]
  }

  /** Every entry has an id, and no two have the same. */
  ghost predicate Keyed(items: seq<Item>) {
    if items == [] then true
    else
      var earlier, last := items[..|items| - 1], items[|items| - 1];
      Id(last) != "" && !Has(earlier, Id(last)) && Keyed(earlier)
  }

  lemma {:induction false} FindMeansHas(items: seq<Item>, id: string)
    ensures Has(items, id) <==> Find(items, id).Some?
    ensures Find(items, id).Some? ==> Id(Find(items, id).value) == id
  {
    if items != [] {
      FindMeansHas(items[..|items| - 1], id);
    }
  }

  lemma {:induction false} ReplaceFinds(items: seq<Item>, item: Item, id: string)
    requires Keyed(items) && Has(items, Id(item))
    ensures Keyed(Replace(items, item)) && (Has(Replace(items, item), id) <==> Has(items, id))
    ensures Find(Replace(items, item), id) == if id == Id(item) then Some(item) else Find(items, id)
  {
    var earlier, last := items[..|items| - 1], items[|items| - 1];
    var after := Replace(items, item);
    if Id(last) == Id(item) {
      assert after[..|after| - 1] == earlier && after[|after| - 1] == item;
    } else {
      ReplaceFinds(earlier, item, id);
      ReplaceFinds(earlier, item, Id(last));
      assert after[..|after| - 1] == Replace(earlier, item) && after[|after| - 1] == last;
    }
  }

  lemma PutFinds(items: seq<Item>, item: Item, id: string)
    requires Keyed(items) && Id(item) != ""
    ensures Keyed(Put(items, item))
    ensures Find(Put(items, item), id) == if id == Id(item) then Some(item) else Find(items, id)
  {
    if Has(items, Id(item)) {
      ReplaceFinds(items, item, id);
    } else {
      assert (items + [item])[..|items|] == items;
    }
  }

  // ---------------------------------------------------------------- the merge

  /** One incoming entry on the one before it: only the fields its scope owns change. */
  function MergeItem(previous: Option<Item>, incoming: Item, scope: Scope): Item {
    var base := Or(previous, NO_ITEM).(device := incoming.device);
    var capabilities := Some(Or(base.capabilities, map[]) + Or(incoming.capabilities, map[]));
    match scope
    case Discovery => base.(rawReferences := Some(Or(incoming.rawReferences, EmptyArray)))
    case Health => Measured(base, incoming, capabilities)
    case Interfaces => Measured(base, incoming, capabilities).(interfaces := Some(Or(incoming.interfaces, EmptyArray)))
    case AlertsScope =>
      base.(alerts := Some(Or(incoming.alerts, [])), capabilities := capabilities,
            collectionErrors := Some(Or(incoming.collectionErrors, EmptyArray)))
    case _ => base
  }

  function Measured(base: Item, incoming: Item, capabilities: Option<map<string, string>>): Item {
    base.(load := Some(Or(incoming.load, EmptyObject)),
          aggregateStatus := Some(Or(incoming.aggregateStatus, NoData)),
          diagnostics := Some(Or(incoming.diagnostics, EmptyArray)),
          collectionErrors := Some(Or(incoming.collectionErrors, EmptyArray)),
          capabilities := capabilities)
  }

  /** The cached entries by id; entries without one are left behind. */
  function Existing(items: seq<Item>): seq<Item> {
    if items == [] then []
    else
      var earlier, last := Existing(items[..|items| - 1]), items[|items| - 1];
      if Id(last) == "" then earlier else Put(earlier, last)
  }

  function MergeOne(existing: seq<Item>, incoming: Item, scope: Scope): seq<Item> {
    if Id(incoming) == "" then existing else Put(existing, MergeItem(Find(existing, Id(incoming)), incoming, scope))
  }

  function MergeAll(existing: seq<Item>, incoming: seq<Item>, scope: Scope): seq<Item> {
    if incoming == [] then existing
    else MergeOne(MergeAll(existing, incoming[..|incoming| - 1], scope), incoming[|incoming| - 1], scope)
  }

  /** The last pair a device is a member of. */
  function PairOf(pairs: seq<Pair>, id: string): Option<Pair> {
    if pairs == [] then None
    else
      var last := pairs[|pairs| - 1];
      if id != "" && (last.primary == id || last.secondary == id) then Some(last) else PairOf(pairs[..|pairs| - 1], id)
  }

  /** A device in no pair keeps what it had. */
  function WithPair(item: Item, pairs: seq<Pair>): Item {
    if PairOf(pairs, Id(item)).Some? then item.(ha := PairOf(pairs, Id(item))) else item
  }

  function WithPairs(items: seq<Item>, pairs: seq<Pair>): seq<Item> {
    if items == [] then []
    else WithPairs(items[..|items| - 1], pairs) + [WithPair(items[|items| - 1], pairs)]
  }

  function MergedDevices(current: seq<Item>, component: Dashboard, scope: Scope): seq<Item> {
    var merged := MergeAll(Existing(current), component.devices, scope);
    if scope == Ha then WithPairs(merged, component.haPairs) else merged
  }

  /** The letters an ASCII upper-casing changes are all that RED and YELLOW depend on. */
  function Upper(s: string): string {
    if s == [] then [] else [if 'a' <= s[0] <= 'z' then s[0] - 'a' + 'A' else s[0]] + Upper(s[1..])
  }

  function CountStatus(alerts: seq<Alert>, status: string): nat {
    if alerts == [] then 0
    else CountStatus(alerts[..|alerts| - 1], status) + if Upper(alerts[|alerts| - 1].status) == status then 1 else 0
  }

  /** A recount of the entries. */
  function Recount(items: seq<Item>): Totals {
    if items == [] then Totals(0, 0, 0, 0, 0)
    else
      var t, last := Recount(items[..|items| - 1]), items[|items| - 1];
      var alerts := Or(last.alerts, []);
      Totals(t.devices + 1,
             t.connected + if last.device.Some? && last.device.value.isConnected then 1 else 0,
             t.alerts + |alerts|, t.red + CountStatus(alerts, "RED"), t.yellow + CountStatus(alerts, "YELLOW"))
  }

  function Merged(current: Option<Dashboard>, component: Dashboard, scope: Scope): Dashboard {
    if scope == Full || current.None? then component
    else
      var cached := current.value;
      var devices := MergedDevices(cached.devices, component, scope);
      Dashboard(
        component.runId, component.collectedAt, Truthy(component.domainId, cached.domainId), devices,
        if scope == Ha then component.haPairs else cached.haPairs,
        if scope == Policy then component.policyAnalysis else cached.policyAnalysis,
        Recount(devices), cached.rest)
  }

  /** The dictionary of a cached list. */
  method BuildExisting(items: seq<Item>) returns (existing: seq<Item>)
    ensures existing == Existing(items)
  {
    existing := [];
    var i := 0;
    while i < |items|
      invariant 0 <= i <= |items| && existing == Existing(items[..i])
    {
      assert items[..i + 1][..i] == items[..i];
      if Id(items[i]) != "" {
        existing := Put(existing, items[i]);
      }
      i := i + 1;
    }
    assert items[..i] == items;
  }

  method MergeIncoming(cached: seq<Item>, incoming: seq<Item>, scope: Scope) returns (existing: seq<Item>)
    ensures existing == MergeAll(cached, incoming, scope)
  {
    existing := cached;
    var i := 0;
    while i < |incoming|
      invariant 0 <= i <= |incoming| && existing == MergeAll(cached, incoming[..i], scope)
    {
      assert incoming[..i + 1][..i] == incoming[..i];
      var deviceId := Id(incoming[i]);
      if deviceId != "" {
        var previous := Find(existing, deviceId);
        existing := Put(existing, MergeItem(previous, incoming[i], scope));
      }
      i := i + 1;
    }
    assert incoming[..i] == incoming;
  }

  method AttachPairs(items: seq<Item>, pairs: seq<Pair>) returns (devices: seq<Item>)
    ensures devices == WithPairs(items, pairs)
  {
    var memberPairs: map<string, Pair> := map[];
    var i := 0;
    while i < |pairs|
      invariant 0 <= i <= |pairs|
      invariant forall id :: PairOf(pairs[..i], id) == if id in memberPairs then Some(memberPairs[id]) else None
    {
      assert pairs[..i + 1][..i] == pairs[..i];
      if pairs[i].primary != "" {
        memberPairs := memberPairs[pairs[i].primary := pairs[i]];
      }
      if pairs[i].secondary != "" {
        memberPairs := memberPairs[pairs[i].secondary := pairs[i]];
      }
      i := i + 1;
    }
    assert pairs[..i] == pairs;
    devices := [];
    var j := 0;
    while j < |items|
      invariant 0 <= j <= |items| && devices == WithPairs(items[..j], pairs)
    {
      assert items[..j + 1][..j] == items[..j];
      var id := Id(items[j]);
      assert PairOf(pairs, id) == if id in memberPairs then Some(memberPairs[id]) else None;
      var device := items[j];
      if id in memberPairs {
        device := device.(ha := Some(memberPairs[id]));
      }
      devices := devices + [device];
      j := j + 1;
    }
    assert items[..j] == items;
  }

  /** _merge_scope. */
  method MergeScope(current: Option<Dashboard>, component: Dashboard, scope: Scope) returns (merged: Dashboard)
    ensures merged == Merged(current, component, scope)
  {
    if scope == Full || current.None? {
      return component;
    }
    merged := current.value;
    merged := merged.(runId := component.runId, collectedAt := component.collectedAt,
                      domainId := Truthy(component.domainId, merged.domainId));
    var existing := BuildExisting(merged.devices);
    existing := MergeIncoming(existing, component.devices, scope);
    merged := merged.(devices := existing);
    if scope == Ha {
      merged := merged.(haPairs := component.haPairs);
      var devices := AttachPairs(existing, component.haPairs);
      merged := merged.(devices := devices);
    } else if scope == Policy {
      merged := merged.(policyAnalysis := component.policyAnalysis);
    }
    merged := merged.(totals := Recount(merged.devices));
  }

  // ---------------------------------------------------------------- one device at a time

  ghost function IncomingOf(items: seq<Item>, id: string): seq<Item> {
    if items == [] then []
    else IncomingOf(items[..|items| - 1], id) + if Id(items[|items| - 1]) == id then [items[|items| - 1]] else []
  }

  /** What a list of incoming entries of one device makes of its cached entry. */
  ghost function ItemAfter(previous: Option<Item>, incoming: seq<Item>, scope: Scope): Option<Item> {
    if incoming == [] then previous
    else Some(MergeItem(ItemAfter(previous, incoming[..|incoming| - 1], scope), incoming[|incoming| - 1], scope))
  }

  lemma {:induction false} ExistingFinds(items: seq<Item>, id: string)
    requires id != ""
    ensures Keyed(Existing(items)) && Find(Existing(items), id) == Find(items, id)
  {
    if items != [] {
      var last := items[|items| - 1];
      ExistingFinds(items[..|items| - 1], id);
      if Id(last) != "" {
        PutFinds(Existing(items[..|items| - 1]), last, id);
      }
    }
  }

  lemma ItemAfterNext(previous: Option<Item>, incoming: seq<Item>, last: Item, scope: Scope)
    ensures ItemAfter(previous, incoming + [last], scope)
        == Some(MergeItem(ItemAfter(previous, incoming, scope), last, scope))
  {
    assert (incoming + [last])[..|incoming|] == incoming;
  }

  lemma MergeOneFinds(before: seq<Item>, last: Item, scope: Scope, id: string)
    requires Keyed(before) && id != ""
    ensures Keyed(MergeOne(before, last, scope))
    ensures Find(MergeOne(before, last, scope), id)
         == if Id(last) == id then Some(MergeItem(Find(before, id), last, scope)) else Find(before, id)
  {
    if Id(last) != "" {
      var item := MergeItem(Find(before, Id(last)), last, scope);
      PutFinds(before, item, id);
    }
  }

  lemma IncomingNext(earlier: seq<Item>, last: Item, id: string)
    ensures IncomingOf(earlier + [last], id)
         == if Id(last) == id then IncomingOf(earlier, id) + [last] else IncomingOf(earlier, id)
  {
    assert (earlier + [last])[..|earlier|] == earlier;
  }

  lemma {:induction false} MergeAllFinds(existing: seq<Item>, incoming: seq<Item>, scope: Scope, id: string)
    requires Keyed(existing) && id != ""
    ensures Keyed(MergeAll(existing, incoming, scope))
    ensures Find(MergeAll(existing, incoming, scope), id)
        == ItemAfter(Find(existing, id), IncomingOf(incoming, id), scope)
  {
    if incoming != [] {
      var earlier, last := incoming[..|incoming| - 1], incoming[|incoming| - 1];
      MergeAllFinds(existing, earlier, scope, id);
      MergeOneFinds(MergeAll(existing, earlier, scope), last, scope, id);
      assert incoming == earlier + [last];
      IncomingNext(earlier, last, id);
      ItemAfterNext(Find(existing, id), IncomingOf(earlier, id), last, scope);
    }
  }

  lemma {:induction false} WithPairsFinds(items: seq<Item>, pairs: seq<Pair>, id: string)
    requires Keyed(items)
    ensures Keyed(WithPairs(items, pairs)) && (Has(WithPairs(items, pairs), id) <==> Has(items, id))
    ensures Find(WithPairs(items, pairs), id)
         == match Find(items, id) case Some(item) => Some(WithPair(item, pairs)) case None => None
  {
    if items != [] {
      var earlier, last := items[..|items| - 1], items[|items| - 1];
      var after := WithPairs(items, pairs);
      WithPairsFinds(earlier, pairs, id);
      WithPairsFinds(earlier, pairs, Id(last));
      assert after[..|after| - 1] == WithPairs(earlier, pairs) && after[|after| - 1] == WithPair(last, pairs);
    }
  }

  /** What a merge does to one device. */
  ghost function DeviceAfter(previous: Option<Item>, component: Dashboard, scope: Scope, id: string): Option<Item> {
    var after := ItemAfter(previous, IncomingOf(component.devices, id), scope);
    if scope == Ha && after.Some? then Some(WithPair(after.value, component.haPairs)) else after
  }

  /** A merge acts on every device separately, and leaves entries with ids, each once. */
  lemma MergePerDevice(current: seq<Item>, component: Dashboard, scope: Scope, id: string)
    requires id != ""
    ensures Keyed(MergedDevices(current, component, scope))
    ensures Find(MergedDevices(current, component, scope), id) == DeviceAfter(Find(current, id), component, scope, id)
  {
    ExistingFinds(current, id);
    MergeAllFinds(Existing(current), component.devices, scope, id);
    WithPairsFinds(MergeAll(Existing(current), component.devices, scope), component.haPairs, id);
  }

  lemma {:induction false} IncomingMeansHas(items: seq<Item>, id: string)
    ensures IncomingOf(items, id) != [] <==> Has(items, id)
  {
    if items != [] {
      IncomingMeansHas(items[..|items| - 1], id);
    }
  }

  /** No merge drops a device: the ids afterwards are those cached and those collected. */
  lemma MergeNeverDrops(current: Dashboard, component: Dashboard, scope: Scope, id: string)
    requires scope != Full && id != ""
    ensures Has(Merged(Some(current), component, scope).devices, id)
        <==> Has(current.devices, id) || Has(component.devices, id)
  {
    MergePerDevice(current.devices, component, scope, id);
    IncomingMeansHas(component.devices, id);
    FindMeansHas(current.devices, id);
    FindMeansHas(Merged(Some(current), component, scope).devices, id);
  }

  /** Entries with ids, each once, and totals that a recount gives. */
  ghost predicate Consistent(d: Dashboard) {
    Keyed(d.devices) && d.totals == Recount(d.devices)
  }

  /** Merging into a cache makes it consistent whatever either side held; a full collection is taken
      as it comes. */
  lemma MergeIsConsistent(current: Option<Dashboard>, component: Dashboard, scope: Scope)
    requires (scope == Full || current.None?) ==> Consistent(component)
    ensures Consistent(Merged(current, component, scope))
  {
    if scope != Full && current.Some? {
      MergePerDevice(current.value.devices, component, scope, "a");
    }
  }
}
