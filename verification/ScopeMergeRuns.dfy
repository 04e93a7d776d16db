/** Any run of partial collections merged into a cache (_merge_scope of
    backend/app/integrations/fmc/service.py): which collection each field of a device comes from. */
module ScopeMergeRuns {
  import opened Wrappers
  import opened ScopeMerge

  datatype Merge = Merge(scope: Scope, component: Dashboard)

  ghost predicate Partial(run: seq<Merge>) {
    forall m :: m in run ==> m.scope != Full
  }

  ghost function Cache(initial: Dashboard, run: seq<Merge>): Dashboard {
    if run == [] then initial
    else Merged(Some(Cache(initial, run[..|run| - 1])), run[|run| - 1].component, run[|run| - 1].scope)
  }

  // ---------------------------------------------------------------- what is written to one device

  /** An incoming entry of the device, or the pair a high-availability collection attaches to it. */
  datatype Write = Entry(scope: Scope, incoming: Item) | Attach(pair: Pair)

  ghost function Entries(incoming: seq<Item>, scope: Scope): seq<Write> {
    if incoming == [] then [] else Entries(incoming[..|incoming| - 1], scope) + [Entry(scope, incoming[|incoming| - 1])]
  }

  ghost function WritesOfMerge(m: Merge, id: string): seq<Write> {
    Entries(IncomingOf(m.component.devices, id), m.scope)
    + if m.scope == Ha && PairOf(m.component.haPairs, id).Some? then [Attach(PairOf(m.component.haPairs, id).value)]
        else []
  }

  ghost function WritesOf(run: seq<Merge>, id: string): seq<Write> {
    if run == [] then [] else WritesOf(run[..|run| - 1], id) + WritesOfMerge(run[|run| - 1], id)
  }

  /** A pair is attached only to a device the cache knows. */
  ghost function WriteOne(previous: Option<Item>, w: Write): Option<Item> {
    match w
    case Entry(scope, incoming) => Some(MergeItem(previous, incoming, scope))
    case Attach(pair) => if previous.Some? then Some(previous.value.(ha := Some(pair))) else None
  }

  ghost function WriteAll(previous: Option<Item>, writes: seq<Write>): Option<Item> {
    if writes == [] then previous else WriteOne(WriteAll(previous, writes[..|writes| - 1]), writes[|writes| - 1])
  }

  lemma {:induction false} WriteAllConcat(previous: Option<Item>, a: seq<Write>, b: seq<Write>)
    ensures WriteAll(previous, a + b) == WriteAll(WriteAll(previous, a), b)
  {
    if b == [] {
      assert a + b == a;
    } else {
      WriteAllConcat(previous, a, b[..|b| - 1]);
      assert (a + b)[..|a + b| - 1] == a + b[..|b| - 1];
    }
  }

  lemma {:induction false} EntriesMergeItems(previous: Option<Item>, incoming: seq<Item>, scope: Scope)
    ensures WriteAll(previous, Entries(incoming, scope)) == ItemAfter(previous, incoming, scope)
  {
    if incoming != [] {
      EntriesMergeItems(previous, incoming[..|incoming| - 1], scope);
      var writes := Entries(incoming, scope);
      assert writes[..|writes| - 1] == Entries(incoming[..|incoming| - 1], scope);
    }
  }

  lemma {:induction false} ItemAfterHasId(previous: Option<Item>, incoming: seq<Item>, scope: Scope, id: string)
    requires previous.Some? ==> Id(previous.value) == id
    requires forall item :: item in incoming ==> Id(item) == id
    ensures var after := ItemAfter(previous, incoming, scope); after.Some? ==> Id(after.value) == id
  {
    if incoming != [] {
      ItemAfterHasId(previous, incoming[..|incoming| - 1], scope, id);
      assert incoming[|incoming| - 1] in incoming;
    }
  }

  lemma {:induction false} IncomingHaveId(items: seq<Item>, id: string)
    ensures forall item :: item in IncomingOf(items, id) ==> Id(item) == id
  {
    if items != [] {
      IncomingHaveId(items[..|items| - 1], id);
    }
  }

  lemma MergeWrites(previous: Option<Item>, m: Merge, id: string)
    requires previous.Some? ==> Id(previous.value) == id
    ensures DeviceAfter(previous, m.component, m.scope, id) == WriteAll(previous, WritesOfMerge(m, id))
  {
    var incoming := IncomingOf(m.component.devices, id);
    var entries := Entries(incoming, m.scope);
    EntriesMergeItems(previous, incoming, m.scope);
    IncomingHaveId(m.component.devices, id);
    ItemAfterHasId(previous, incoming, m.scope, id);
    if m.scope == Ha && PairOf(m.component.haPairs, id).Some? {
      var attach := Attach(PairOf(m.component.haPairs, id).value);
      assert (entries + [attach])[..|entries|] == entries;
    } else {
      assert WritesOfMerge(m, id) == entries;
    }
  }

  /** A run of partial merges writes to each device separately. */
  lemma {:induction false} RunWrites(initial: Dashboard, run: seq<Merge>, id: string)
    requires Partial(run) && id != ""
    ensures Find(Cache(initial, run).devices, id) == WriteAll(Find(initial.devices, id), WritesOf(run, id))
  {
    if run != [] {
      var earlier, m := run[..|run| - 1], run[|run| - 1];
      assert m in run;
      RunWrites(initial, earlier, id);
      var before := Cache(initial, earlier);
      MergePerDevice(before.devices, m.component, m.scope, id);
      FindMeansHas(before.devices, id);
      MergeWrites(Find(before.devices, id), m, id);
      WriteAllConcat(Find(initial.devices, id), WritesOf(earlier, id), WritesOfMerge(m, id));
    }
  }

  // ---------------------------------------------------------------- the last owner wins

  datatype Field = Info | References | Measurements | Errors | InterfaceList | AlertList | Capabilities

  predicate Owns(scope: Scope, field: Field) {
    match field
    case Info => true
    case References => scope == Discovery
    case Measurements => scope in {Health, Interfaces}
    case Errors => scope in {Health, Interfaces, AlertsScope}
    case InterfaceList => scope == Interfaces
    case AlertList => scope == AlertsScope
    case Capabilities => scope in {Health, Interfaces, AlertsScope}
  }

  /** The last entry whose scope owns the field. */
  ghost function LastWrite(writes: seq<Write>, field: Field): Option<Item> {
    if writes == [] then None
    else
      var last := writes[|writes| - 1];
      if last.Entry? && Owns(last.scope, field) then Some(last.incoming) else LastWrite(writes[..|writes| - 1], field)
  }

  ghost function LastPair(writes: seq<Write>, known: bool): Option<Pair> {
    if writes == [] then None
    else
      var earlier, last := writes[..|writes| - 1], writes[|writes| - 1];
      if last.Attach? && (known || LastWrite(earlier, Info).Some?) then Some(last.pair) else LastPair(earlier, known)
  }

  /** All capabilities the owning entries reported, later ones over earlier ones. */
  ghost function Reported(writes: seq<Write>): map<string, string> {
    if writes == [] then map[]
    else
      var earlier, last := Reported(writes[..|writes| - 1]), writes[|writes| - 1];
      if last.Entry? && Owns(last.scope, Capabilities) then earlier + Or(last.incoming.capabilities, map[]) else earlier
  }

  /** An incoming entry with the defaults the merge gives to its missing fields. */
  function Filled(i: Item): Item {
    i.(rawReferences := Some(Or(i.rawReferences, EmptyArray)), load := Some(Or(i.load, EmptyObject)),
       aggregateStatus := Some(Or(i.aggregateStatus, NoData)), diagnostics := Some(Or(i.diagnostics, EmptyArray)),
       collectionErrors := Some(Or(i.collectionErrors, EmptyArray)), interfaces := Some(Or(i.interfaces, EmptyArray)),
       alerts := Some(Or(i.alerts, [])))
  }

  /** The entry a field comes from: the last one of an owning scope, or else the cached one. */
  ghost function Source(writes: seq<Write>, field: Field, base: Item): Item {
    match LastWrite(writes, field) case Some(incoming) => Filled(incoming) case None => base
  }

  /** Every field of the entry is that of the last collection whose scope owns it. */
  ghost predicate LastOwnersWin(previous: Option<Item>, writes: seq<Write>, item: Item) {
    var base := Or(previous, NO_ITEM);
    && item.device == Source(writes, Info, base).device
    && item.rawReferences == Source(writes, References, base).rawReferences
    && item.load == Source(writes, Measurements, base).load
    && item.aggregateStatus == Source(writes, Measurements, base).aggregateStatus
    && item.diagnostics == Source(writes, Measurements, base).diagnostics
    && item.collectionErrors == Source(writes, Errors, base).collectionErrors
    && item.interfaces == Source(writes, InterfaceList, base).interfaces
    && item.alerts == Source(writes, AlertList, base).alerts
    && item.capabilities == (if LastWrite(writes, Capabilities).Some?
                             then Some(Or(base.capabilities, map[]) + Reported(writes)) else base.capabilities)
    && item.ha == (match LastPair(writes, previous.Some?) case Some(pair) => Some(pair) case None => base.ha)
  }

  lemma NoOwnerNothingReported(writes: seq<Write>)
    requires LastWrite(writes, Capabilities) == None
    ensures Reported(writes) == map[]
  {
    if writes != [] {
      NoOwnerNothingReported(writes[..|writes| - 1]);
    }
  }

  lemma LastWriteNext(earlier: seq<Write>, w: Write, field: Field)
    ensures LastWrite(earlier + [w], field)
         == if w.Entry? && Owns(w.scope, field) then Some(w.incoming) else LastWrite(earlier, field)
  {
    assert (earlier + [w])[..|earlier|] == earlier;
  }

  lemma UnionAssociates(a: map<string, string>, b: map<string, string>, c: map<string, string>)
    ensures a + b + c == a + (b + c)
  {
  }

  lemma AttachKeepsOwners(previous: Option<Item>, earlier: seq<Write>, pair: Pair, before: Item)
    requires LastOwnersWin(previous, earlier, before)
    requires previous.Some? || LastWrite(earlier, Info).Some?
    ensures LastOwnersWin(previous, earlier + [Attach(pair)], before.(ha := Some(pair)))
  {
    assert (earlier + [Attach(pair)])[..|earlier|] == earlier;
    forall field: Field ensures LastWrite(earlier + [Attach(pair)], field) == LastWrite(earlier, field) {
      LastWriteNext(earlier, Attach(pair), field);
    }
  }

  lemma MergeKeepsOwners(previous: Option<Item>, earlier: seq<Write>, scope: Scope, incoming: Item,
                         before: Option<Item>)
    requires LastOwnersWin(previous, earlier, Or(before, NO_ITEM))
    ensures LastOwnersWin(previous, earlier + [Entry(scope, incoming)], MergeItem(before, incoming, scope))
  {
    var w := Entry(scope, incoming);
    var writes, base := earlier + [w], Or(previous, NO_ITEM);
    assert writes[..|earlier|] == earlier;
    forall field: Field
      ensures Source(writes, field, base)
           == if Owns(scope, field) then Filled(incoming) else Source(earlier, field, base)
    {
      LastWriteNext(earlier, w, field);
    }
    LastWriteNext(earlier, w, Capabilities);
    var cached, reported, added := Or(base.capabilities, map[]), Reported(earlier), Or(incoming.capabilities, map[]);
    UnionAssociates(cached, reported, added);
    if LastWrite(earlier, Capabilities) == None {
      NoOwnerNothingReported(earlier);
      assert cached + map[] == cached;
    }
  }

  /** Nothing but attachments to a device nobody knows. */
  ghost predicate EmptySoFar(writes: seq<Write>) {
    && (forall field :: LastWrite(writes, field) == None)
    && LastPair(writes, false) == None && Reported(writes) == map[]
  }

  lemma {:induction false} UnknownSoFar(writes: seq<Write>)
    requires LastWrite(writes, Info) == None
    ensures EmptySoFar(writes)
  {
    if writes != [] {
      var earlier, last := writes[..|writes| - 1], writes[|writes| - 1];
      assert writes == earlier + [last];
      LastWriteNext(earlier, last, Info);
      UnknownSoFar(earlier);
      assert last.Attach? && LastWrite(earlier, Info) == None;
      forall field: Field ensures LastWrite(writes, field) == None {
        LastWriteNext(earlier, last, field);
      }
      assert LastPair(writes, false) == LastPair(earlier, false);
      assert Reported(writes) == Reported(earlier);
    }
  }

  /** A field never depends on collections of scopes that do not own it: after any writes it is that of
      the last collection that does, or else what it was. */
  lemma {:induction false} FieldsComeFromLastOwners(previous: Option<Item>, writes: seq<Write>)
    ensures WriteAll(previous, writes).Some? <==> previous.Some? || LastWrite(writes, Info).Some?
    ensures var after := WriteAll(previous, writes); after.Some? ==> LastOwnersWin(previous, writes, after.value)
  {
    if writes != [] {
      var earlier := writes[..|writes| - 1];
      FieldsComeFromLastOwners(previous, earlier);
      if LastWrite(earlier, Info) == None {
        UnknownSoFar(earlier);
      }
      var before, w := WriteAll(previous, earlier), writes[|writes| - 1];
      assert writes == earlier + [w];
      match w {
        case Entry(scope, incoming) => MergeKeepsOwners(previous, earlier, scope, incoming, before);
        case Attach(pair) =>
          if before.Some? {
            AttachKeepsOwners(previous, earlier, pair, before.value);
          }
      }
    }
  }

  /** The same for the cache after any run of partial collections. */
  lemma CacheFieldsComeFromLastOwners(initial: Dashboard, run: seq<Merge>, id: string)
    requires Partial(run) && id != ""
    ensures
      var previous, after := Find(initial.devices, id), Find(Cache(initial, run).devices, id);
      after.Some? ==> LastOwnersWin(previous, WritesOf(run, id), after.value)
  {
    RunWrites(initial, run, id);
    FieldsComeFromLastOwners(Find(initial.devices, id), WritesOf(run, id));
  }

  // ---------------------------------------------------------------- health and alerts commute

  ghost predicate FromScope(writes: seq<Write>, scope: Scope) {
    forall w :: w in writes ==> w.Entry? && w.scope == scope
  }

  lemma {:induction false} EntriesFromScope(incoming: seq<Item>, scope: Scope)
    ensures FromScope(Entries(incoming, scope), scope)
  {
    if incoming != [] {
      EntriesFromScope(incoming[..|incoming| - 1], scope);
    }
  }

  lemma {:induction false} NotOwnedNotWritten(writes: seq<Write>, scope: Scope, field: Field)
    requires FromScope(writes, scope) && !Owns(scope, field)
    ensures LastWrite(writes, field) == None
  {
    if writes != [] {
      assert writes[|writes| - 1] in writes;
      NotOwnedNotWritten(writes[..|writes| - 1], scope, field);
    }
  }

  lemma {:induction false} LastWriteConcat(a: seq<Write>, b: seq<Write>, field: Field)
    ensures LastWrite(a + b, field) == if LastWrite(b, field).Some? then LastWrite(b, field) else LastWrite(a, field)
  {
    if b == [] {
      assert a + b == a;
    } else {
      LastWriteConcat(a, b[..|b| - 1], field);
      assert (a + b)[..|a + b| - 1] == a + b[..|b| - 1];
    }
  }

  lemma {:induction false} ReportedConcat(a: seq<Write>, b: seq<Write>)
    ensures Reported(a + b) == Reported(a) + Reported(b)
  {
    if b == [] {
      assert a + b == a;
      assert Reported(a) + map[] == Reported(a);
    } else {
      var last := b[|b| - 1];
      ReportedConcat(a, b[..|b| - 1]);
      assert (a + b)[..|a + b| - 1] == a + b[..|b| - 1];
      if last.Entry? {
        UnionAssociates(Reported(a), Reported(b[..|b| - 1]), Or(last.incoming.capabilities, map[]));
      }
    }
  }

  lemma {:induction false} NoPairsAttached(writes: seq<Write>, scope: Scope, known: bool)
    requires FromScope(writes, scope)
    ensures LastPair(writes, known) == None
  {
    if writes != [] {
      assert writes[|writes| - 1] in writes;
      NoPairsAttached(writes[..|writes| - 1], scope, known);
    }
  }

  lemma {:induction false} NoPairsAfter(a: seq<Write>, b: seq<Write>, scope: Scope, known: bool)
    requires FromScope(b, scope)
    ensures LastPair(a + b, known) == LastPair(a, known)
  {
    if b == [] {
      assert a + b == a;
    } else {
      assert b[|b| - 1] in b;
      NoPairsAfter(a, b[..|b| - 1], scope, known);
      assert (a + b)[..|a + b| - 1] == a + b[..|b| - 1];
    }
  }

  /** The fields that do not tell which of the two collections came first. */
  ghost predicate SameHealthAndAlerts(one: Item, other: Item) {
    && one.load == other.load && one.aggregateStatus == other.aggregateStatus && one.diagnostics == other.diagnostics
    && one.alerts == other.alerts && one.interfaces == other.interfaces && one.capabilities == other.capabilities
    && one.rawReferences == other.rawReferences && one.ha == other.ha
  }

  ghost predicate DisjointKeys(a: map<string, string>, b: map<string, string>) {
    forall key :: !(key in a && key in b)
  }

  lemma SourcesCommute(h: seq<Write>, a: seq<Write>, field: Field, base: Item)
    requires FromScope(h, Health) && FromScope(a, AlertsScope) && field != Info && field != Errors
        && field != Capabilities
    ensures Source(h + a, field, base) == Source(a + h, field, base)
  {
    LastWriteConcat(h, a, field);
    LastWriteConcat(a, h, field);
    if Owns(Health, field) {
      NotOwnedNotWritten(a, AlertsScope, field);
    } else {
      NotOwnedNotWritten(h, Health, field);
    }
  }

  lemma WritesCommute(previous: Option<Item>, h: seq<Write>, a: seq<Write>)
    requires FromScope(h, Health) && FromScope(a, AlertsScope) && DisjointKeys(Reported(h), Reported(a))
    ensures
      var one, other := WriteAll(previous, h + a), WriteAll(previous, a + h);
      && (one.Some? <==> other.Some?)
      && (one.Some? ==> SameHealthAndAlerts(one.value, other.value))
  {
    var base := Or(previous, NO_ITEM);
    FieldsComeFromLastOwners(previous, h + a);
    FieldsComeFromLastOwners(previous, a + h);
    LastWriteConcat(h, a, Info);
    LastWriteConcat(a, h, Info);
    LastWriteConcat(h, a, Capabilities);
    LastWriteConcat(a, h, Capabilities);
    ReportedConcat(h, a);
    ReportedConcat(a, h);
    assert Reported(h) + Reported(a) == Reported(a) + Reported(h);
    forall field | field in {References, Measurements, InterfaceList, AlertList}
      ensures Source(h + a, field, base) == Source(a + h, field, base)
    {
      SourcesCommute(h, a, field, base);
    }
    NoPairsAttached(h, Health, previous.Some?);
    NoPairsAttached(a, AlertsScope, previous.Some?);
    NoPairsAfter(h, a, AlertsScope, previous.Some?);
    NoPairsAfter(a, h, Health, previous.Some?);
  }

  lemma EntriesOnly(m: Merge, id: string)
    requires m.scope != Ha
    ensures WritesOfMerge(m, id) == Entries(IncomingOf(m.component.devices, id), m.scope)
        && FromScope(WritesOfMerge(m, id), m.scope)
  {
    EntriesFromScope(IncomingOf(m.component.devices, id), m.scope);
  }

  lemma WritesOfTwo(one: Merge, two: Merge, id: string)
    ensures WritesOf([one, two], id) == WritesOfMerge(one, id) + WritesOfMerge(two, id)
  {
    var a, b := WritesOfMerge(one, id), WritesOfMerge(two, id);
    assert [one, two][..1] == [one] && [one][..0] == [];
    calc {
      WritesOf([one, two], id);
      WritesOf([one], id) + b;
      WritesOf([], id) + a + b;
      a + b;
    }
  }

  lemma TwoMergesWrite(cached: Dashboard, run: seq<Merge>, id: string)
    requires id != "" && |run| == 2 && run[0].scope != Full && run[1].scope != Full
    ensures Find(Cache(cached, run).devices, id)
        == WriteAll(Find(cached.devices, id), WritesOfMerge(run[0], id) + WritesOfMerge(run[1], id))
  {
    assert run == [run[0], run[1]];
    WritesOfTwo(run[0], run[1], id);
    RunWrites(cached, run, id);
  }

  /** The capabilities a collection reports about a device. */
  ghost function CapabilitiesIn(component: Dashboard, scope: Scope, id: string): map<string, string> {
    Reported(Entries(IncomingOf(component.devices, id), scope))
  }

  /** A health and an alerts collection may be merged in either order: per device the same load,
      status, diagnostics, alerts, interfaces and, as they report different ones, capabilities. */
  lemma HealthAndAlertsCommute(cached: Dashboard, health: Dashboard, alerts: Dashboard, id: string)
    requires id != "" && DisjointKeys(CapabilitiesIn(health, Health, id), CapabilitiesIn(alerts, AlertsScope, id))
    ensures
      var one := Find(Cache(cached, [Merge(Health, health), Merge(AlertsScope, alerts)]).devices, id);
      var other := Find(Cache(cached, [Merge(AlertsScope, alerts), Merge(Health, health)]).devices, id);
      && (one.Some? <==> other.Some?)
      && (one.Some? ==> SameHealthAndAlerts(one.value, other.value))
  {
    var mh, ma := Merge(Health, health), Merge(AlertsScope, alerts);
    EntriesOnly(mh, id);
    EntriesOnly(ma, id);
    TwoMergesWrite(cached, [mh, ma], id);
    TwoMergesWrite(cached, [ma, mh], id);
    WritesCommute(Find(cached.devices, id), WritesOfMerge(mh, id), WritesOfMerge(ma, id));
  }
}
