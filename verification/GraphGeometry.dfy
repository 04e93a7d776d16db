/** What the inventory graph's layout guarantees (frontend/src/lib/graphModel.ts): everything is inside
    the drawing, nothing overlaps, and the links form a tree. */
module GraphGeometry {
  import opened Wrappers
  import opened GraphLayout

  // ---------------------------------------------------------------- both passes agree

  lemma {:induction false} CursorAddsWidths(ds: seq<DeviceLayout>, start: real)
    ensures DeviceCursor(ds, start) == start + WidthSum(ds) + |ds| as real * DEVICE_GAP
  {
    if ds != [] {
      CursorAddsWidths(ds[..|ds| - 1], start);
      assert |ds| as real == (|ds| - 1) as real + 1.0;
    }
  }

  lemma {:induction false} BlocksAreWide(ds: seq<DeviceLayout>)
    requires forall d :: d in ds ==> WellFormed(d)
    ensures WidthSum(ds) >= 190.0 * |ds| as real
  {
    if ds != [] {
      BlocksAreWide(ds[..|ds| - 1]);
      assert ds[|ds| - 1] in ds;
      assert |ds| as real == (|ds| - 1) as real + 1.0;
    }
  }

  /** The width the first pass reserves is the one the second pass uses: the blocks end exactly one
      padding before the lane does, so the site stands over their middle. */
  lemma PassesAgree(ds: seq<DeviceLayout>, startX: real)
    requires ds != [] && forall d :: d in ds ==> WellFormed(d)
    ensures
      var left, right := startX + SITE_PADDING, DeviceCursor(ds, startX + SITE_PADDING) - DEVICE_GAP;
      && right == startX + LaneWidth(ds) - SITE_PADDING
      && startX + LaneWidth(ds) / 2.0 == (left + right) / 2.0
  {
    CursorAddsWidths(ds, startX + SITE_PADDING);
    BlocksAreWide(ds);
    assert |ds| as real == (|ds| - 1) as real + 1.0;
  }

  // ---------------------------------------------------------------- layouts of the first pass

  /** A block has room for its grid, and the grid for its interfaces. */
  ghost predicate WellFormed(d: DeviceLayout) {
    && d.blockWidth == BlockWidth(d.columns)
    && (d.interfaces == [] ==> d.columns == 0)
    && (d.interfaces != [] ==> 2 <= d.columns <= 7 && d.rows > 0 && |d.interfaces| <= d.rows * d.columns)
  }

  lemma {:induction false} LayoutsAreWellFormed(devices: seq<Device>, view: View)
    ensures forall d :: d in LayoutDevices(devices, view) ==> WellFormed(d)
  {
    if devices != [] {
      LayoutsAreWellFormed(devices[..|devices| - 1], view);
    }
  }

  lemma SiteDevicesAreWellFormed(site: Site, devices: seq<Device>, view: View)
    ensures forall d :: d in SiteDevices(site, devices, view) ==> WellFormed(d)
  {
    LayoutsAreWellFormed(DevicesOf(devices, site.name), view);
  }

  // ---------------------------------------------------------------- distances

  /** How far the outer nodes of a stretch keep from its ends. */
  function Margin(id: NodeId): real {
    match id
    case RegionId(_) => 0.0
    case SiteId(_) => 125.0
    case DeviceId(_) => 95.0
    case InterfaceId(_) => 90.0
  }

  ghost predicate Within(p: Placed, left: real, right: real) {
    left + Margin(p.node.id) <= p.node.x <= right - Margin(p.node.id)
  }

  ghost predicate AllWithin(ps: seq<Placed>, left: real, right: real) {
    forall p :: p in ps ==> Within(p, left, right)
  }

  ghost predicate Apart(a: real, b: real, distance: real) {
    a + distance <= b || b + distance <= a
  }

  ghost predicate OneGrid(p: Placed, q: Placed) {
    p.link.Some? && q.link.Some? && p.link.value.from == q.link.value.from && p.node.siteId == q.node.siteId
  }

  /** Sites stand at least 378 apart and devices 286; interfaces of one device take different cells of
      its grid, and those of different devices are at least 276 apart. */
  ghost predicate Clear(p: Placed, q: Placed) {
    match (p.node.id, q.node.id)
    case (SiteId(_), SiteId(_)) => Apart(p.node.x, q.node.x, 378.0)
    case (DeviceId(_), DeviceId(_)) => Apart(p.node.x, q.node.x, 286.0)
    case (InterfaceId(_), InterfaceId(_)) =>
      if OneGrid(p, q) then Apart(p.node.x, q.node.x, INTERFACE_GAP_X) || Apart(p.node.y, q.node.y, INTERFACE_GAP_Y)
      else Apart(p.node.x, q.node.x, 276.0)
    case _ => true
  }

  ghost predicate ClearOfAll(ps: seq<Placed>, q: Placed) {
    forall p :: p in ps ==> Clear(p, q)
  }

  ghost predicate AllClear(ps: seq<Placed>) {
    ps == [] || (AllClear(ps[..|ps| - 1]) && ClearOfAll(ps[..|ps| - 1], ps[|ps| - 1]))
  }

  lemma {:induction false} AllClearConcat(a: seq<Placed>, b: seq<Placed>)
    requires AllClear(a) && AllClear(b) && forall q :: q in b ==> ClearOfAll(a, q)
    ensures AllClear(a + b)
  {
    if b == [] {
      assert a + b == a;
    } else {
      var q := b[|b| - 1];
      AllClearConcat(a, b[..|b| - 1]);
      assert (a + b)[..|a + b| - 1] == a + b[..|b| - 1] && (a + b)[|a + b| - 1] == q;
      assert q in b;
      forall p | p in a + b[..|b| - 1] ensures Clear(p, q) {
        assert p in a || p in b[..|b| - 1];
      }
    }
  }

  lemma OneAlone(p: Placed)
    ensures AllClear([p])
  {
    assert [p][..0] == [];
    assert AllClear([]) && ClearOfAll([], p);
  }

  // ---------------------------------------------------------------- one device

  /** The cell of the k-th interface is inside the grid. */
  lemma CellInGrid(d: DeviceLayout, k: nat)
    requires WellFormed(d) && k < |d.interfaces|
    ensures 0 <= k % d.columns < d.columns && 0 <= k / d.columns < d.rows
  {
    assert k == (k / d.columns) * d.columns + k % d.columns;
    if k / d.columns >= d.rows {
      TimesKeepsOrder(d.rows, k / d.columns, d.columns);
    }
  }

  lemma TimesKeepsOrder(a: int, b: int, c: int)
    requires a <= b && c > 0
    ensures a * c <= b * c
  {
  }

  lemma {:induction false} InterfacesWithin(d: DeviceLayout, cursor: real, siteId: int, count: nat)
    requires WellFormed(d) && count <= |d.interfaces|
    ensures AllWithin(PlaceInterfaces(d, cursor + d.blockWidth / 2.0, siteId, count), cursor, cursor + d.blockWidth)
  {
    if count > 0 {
      InterfacesWithin(d, cursor, siteId, count - 1);
    }
  }

  /** Two interfaces of one device take different cells. */
  lemma CellsDiffer(d: DeviceLayout, j: nat, k: nat)
    requires d.columns > 0 && j < k
    ensures j % d.columns != k % d.columns || j / d.columns != k / d.columns
  {
    assert j == (j / d.columns) * d.columns + j % d.columns;
    assert k == (k / d.columns) * d.columns + k % d.columns;
  }

  lemma DifferentCellsAreApart(a: int, b: int, origin: real, step: real)
    requires a != b && step > 0.0
    ensures Apart(origin + a as real * step, origin + b as real * step, step)
  {
    if a < b {
      assert b as real >= a as real + 1.0;
      assert b as real * step >= (a as real + 1.0) * step;
    } else {
      assert a as real >= b as real + 1.0;
      assert a as real * step >= (b as real + 1.0) * step;
    }
  }

  lemma InterfacesAreClear(d: DeviceLayout, deviceX: real, siteId: int, j: nat, k: nat)
    requires d.columns > 0 && j < k < |d.interfaces|
    ensures Clear(PlaceInterface(d, deviceX, siteId, j), PlaceInterface(d, deviceX, siteId, k))
  {
    CellsDiffer(d, j, k);
    if j % d.columns != k % d.columns {
      DifferentCellsAreApart(j % d.columns, k % d.columns, deviceX - GridWidth(d.columns) / 2.0, INTERFACE_GAP_X);
    } else {
      DifferentCellsAreApart(j / d.columns, k / d.columns, 700.0, INTERFACE_GAP_Y);
    }
  }

  lemma {:induction false} PlacedInterface(d: DeviceLayout, deviceX: real, siteId: int, count: nat, p: Placed)
    returns (j: nat)
    requires count <= |d.interfaces| && p in PlaceInterfaces(d, deviceX, siteId, count)
    ensures j < count && p == PlaceInterface(d, deviceX, siteId, j)
  {
    if p == PlaceInterface(d, deviceX, siteId, count - 1) {
      j := count - 1;
    } else {
      j := PlacedInterface(d, deviceX, siteId, count - 1, p);
    }
  }

  lemma {:induction false} GridIsClear(d: DeviceLayout, deviceX: real, siteId: int, count: nat)
    requires WellFormed(d) && count <= |d.interfaces|
    ensures AllClear(PlaceInterfaces(d, deviceX, siteId, count))
  {
    if count > 0 {
      var earlier := PlaceInterfaces(d, deviceX, siteId, count - 1);
      var last := PlaceInterface(d, deviceX, siteId, count - 1);
      GridIsClear(d, deviceX, siteId, count - 1);
      forall p | p in earlier ensures Clear(p, last) {
        var j := PlacedInterface(d, deviceX, siteId, count - 1, p);
        InterfacesAreClear(d, deviceX, siteId, j, count - 1);
      }
      assert (earlier + [last])[..|earlier|] == earlier;
    }
  }

  /** A device and its grid stay inside the device's block and do not overlap. */
  lemma DeviceIsClear(d: DeviceLayout, cursor: real, siteId: int, parent: NodeId, levels: Levels)
    requires WellFormed(d)
    ensures
      var ps := PlaceDevice(d, cursor, siteId, parent, levels);
      AllWithin(ps, cursor, cursor + d.blockWidth) && AllClear(ps) && NoSites(ps)
  {
    var deviceX := cursor + d.blockWidth / 2.0;
    var first := PlaceDevice(d, cursor, siteId, parent, levels)[0];
    OneAlone(first);
    var grid := if d.open && levels.interface then PlaceInterfaces(d, deviceX, siteId, |d.interfaces|) else [];
    if d.open && levels.interface {
      InterfacesWithin(d, cursor, siteId, |d.interfaces|);
      GridIsClear(d, deviceX, siteId, |d.interfaces|);
      InterfacesOnly(d, deviceX, siteId, |d.interfaces|);
    }
    AllClearConcat([first], grid);
  }

  ghost predicate NoSites(ps: seq<Placed>) {
    forall p :: p in ps ==> !p.node.id.SiteId?
  }

  lemma {:induction false} InterfacesOnly(d: DeviceLayout, deviceX: real, siteId: int, count: nat)
    requires count <= |d.interfaces|
    ensures forall p :: p in PlaceInterfaces(d, deviceX, siteId, count) ==> p.node.id.InterfaceId?
  {
    if count > 0 {
      InterfacesOnly(d, deviceX, siteId, count - 1);
    }
  }

  // ---------------------------------------------------------------- devices, sites, the drawing

  ghost predicate AllWellFormed(ds: seq<DeviceLayout>) {
    forall d :: d in ds ==> WellFormed(d)
  }

  lemma {:induction false} DevicesAreClear(ds: seq<DeviceLayout>, start: real, siteId: int, parent: NodeId,
                                           levels: Levels)
    requires AllWellFormed(ds)
    ensures
      var ps := PlaceDevices(ds, start, siteId, parent, levels);
      AllWithin(ps, start, DeviceCursor(ds, start) - DEVICE_GAP) && AllClear(ps) && NoSites(ps)
    ensures DeviceCursor(ds, start) >= start
  {
    if ds != [] {
      var earlier, d := ds[..|ds| - 1], ds[|ds| - 1];
      var cursor := DeviceCursor(earlier, start);
      assert d in ds;
      DevicesAreClear(earlier, start, siteId, parent, levels);
      DeviceIsClear(d, cursor, siteId, parent, levels);
      var a, b := PlaceDevices(earlier, start, siteId, parent, levels), PlaceDevice(d, cursor, siteId, parent, levels);
      StretchesJoin(a, b, start, cursor - DEVICE_GAP, cursor, cursor + d.blockWidth);
    }
  }

  lemma StretchesJoin(a: seq<Placed>, b: seq<Placed>, left: real, middle: real, next: real, right: real)
    requires AllWithin(a, left, middle) && AllWithin(b, next, right) && AllClear(a) && AllClear(b)
    requires middle + DEVICE_GAP <= next && left <= next && middle <= right
    requires middle + SITE_GAP <= next || NoSites(a)
    ensures AllWithin(a + b, left, right) && AllClear(a + b)
  {
    AllClearConcat(a, b);
  }

  /** The devices below a site stay inside its lane. */
  lemma LaneIsClear(l: SiteLayout, parent: NodeId, levels: Levels)
    requires AllWellFormed(l.devices)
    ensures
      var ps := PlaceDevices(l.devices, l.startX + SITE_PADDING, l.site.id, parent, levels);
      AllWithin(ps, l.startX, l.startX + LaneWidth(l.devices)) && AllClear(ps) && NoSites(ps)
  {
    var start := l.startX + SITE_PADDING;
    if l.devices != [] {
      DevicesAreClear(l.devices, start, l.site.id, parent, levels);
      PassesAgree(l.devices, l.startX);
    }
  }

  lemma SiteAboveDevices(node: Placed, below: seq<Placed>, left: real, right: real)
    requires node.node.id.SiteId? && Within(node, left, right) && AllWithin(below, left, right) && AllClear(below)
        && NoSites(below)
    ensures AllWithin([node] + below, left, right) && AllClear([node] + below)
  {
    OneAlone(node);
    forall q | q in below ensures ClearOfAll([node], q) {
    }
    AllClearConcat([node], below);
  }

  /** A site's node over the middle of its lane. */
  function SiteNode(l: SiteLayout, region: string): Placed {
    Placed(Node(SiteId(l.site.id), l.centerX, 285.0, Some(l.site.id)),
           Some(Link(RegionId(region), SiteId(l.site.id), l.site.id)))
  }

  function SiteBelow(l: SiteLayout, region: string, levels: Levels): seq<Placed> {
    if l.open && levels.device then
      PlaceDevices(l.devices, l.startX + SITE_PADDING, l.site.id,
                   if levels.site then SiteId(l.site.id) else RegionId(region), levels)
    else []
  }

  lemma SiteParts(l: SiteLayout, region: string, levels: Levels)
    ensures PlaceSite(l, region, levels)
         == if levels.site then [SiteNode(l, region)] + SiteBelow(l, region, levels) else SiteBelow(l, region, levels)
  {
    if !levels.site {
      assert [] + SiteBelow(l, region, levels) == SiteBelow(l, region, levels);
    }
  }

  lemma BelowIsClear(l: SiteLayout, region: string, levels: Levels, lane: real)
    requires AllWellFormed(l.devices) && lane == LaneWidth(l.devices)
    ensures
      var below := SiteBelow(l, region, levels);
      AllWithin(below, l.startX, l.startX + lane) && AllClear(below) && NoSites(below)
  {
    LaneIsClear(l, if levels.site then SiteId(l.site.id) else RegionId(region), levels);
  }

  lemma SiteIsClear(l: SiteLayout, region: string, levels: Levels, lane: real)
    requires AllWellFormed(l.devices) && lane == LaneWidth(l.devices) && l.centerX == l.startX + lane / 2.0
    ensures AllWithin(PlaceSite(l, region, levels), l.startX, l.startX + lane) && AllClear(PlaceSite(l, region, levels))
  {
    BelowIsClear(l, region, levels, lane);
    SiteParts(l, region, levels);
    var node, below, right := SiteNode(l, region), SiteBelow(l, region, levels), l.startX + lane;
    if levels.site {
      assert lane >= 250.0;
      SiteAboveDevices(node, below, l.startX, right);
    }
  }

  lemma {:induction false} SitesAreClear(sites: seq<Site>, devices: seq<Device>, view: View, region: string)
    ensures
      var ps := PlaceSites(LayoutSites(sites, devices, view), region, view.levels);
      AllWithin(ps, 120.0, CursorX(sites, devices, view) - SITE_GAP) && AllClear(ps)
    ensures CursorX(sites, devices, view) >= 120.0
  {
    if sites != [] {
      var earlier, site := sites[..|sites| - 1], sites[|sites| - 1];
      var cursor := CursorX(earlier, devices, view);
      var l := LayoutSite(site, devices, view, cursor);
      var before := LayoutSites(earlier, devices, view);
      SitesAreClear(earlier, devices, view, region);
      SiteDevicesAreWellFormed(site, devices, view);
      SiteIsClear(l, region, view.levels, LaneWidth(l.devices));
      assert (before + [l])[..|before|] == before;
      StretchesJoin(PlaceSites(before, region, view.levels), PlaceSite(l, region, view.levels),
                    120.0, cursor - SITE_GAP, cursor, cursor + LaneWidth(l.devices));
    }
  }

  /** In every drawing sites are at least 378 apart and devices 286, the grids of different devices
      never overlap, and no two interfaces share a cell. */
  lemma NothingOverlaps(region: string, sites: seq<Site>, devices: seq<Device>, view: View)
    ensures AllClear(Placement(region, sites, devices, view))
  {
    var root := Placement(region, sites, devices, view)[0];
    SitesAreClear(sites, devices, view, region);
    OneAlone(root);
    AllClearConcat([root], PlaceSites(LayoutSites(sites, devices, view), region, view.levels));
  }

  // ---------------------------------------------------------------- inside the drawing

  ghost predicate NotBelow(ps: seq<Placed>, rows: int) {
    forall p :: p in ps ==> 0.0 <= p.node.y <= 700.0 + Max(0, rows - 1) as real * INTERFACE_GAP_Y
  }

  lemma {:induction false} InterfacesNotBelow(d: DeviceLayout, deviceX: real, siteId: int, count: nat)
    requires WellFormed(d) && count <= |d.interfaces|
    ensures NotBelow(PlaceInterfaces(d, deviceX, siteId, count), d.rows)
  {
    if count > 0 {
      InterfacesNotBelow(d, deviceX, siteId, count - 1);
      CellInGrid(d, count - 1);
      var row := (count - 1) / d.columns;
      assert row as real <= (d.rows - 1) as real;
    }
  }

  lemma DeviceNotBelow(d: DeviceLayout, cursor: real, siteId: int, parent: NodeId, levels: Levels, rows: int)
    requires WellFormed(d) && d.rows <= rows
    ensures NotBelow(PlaceDevice(d, cursor, siteId, parent, levels), rows)
  {
    InterfacesNotBelow(d, cursor + d.blockWidth / 2.0, siteId, |d.interfaces|);
  }

  lemma {:induction false} DevicesNotBelow(ds: seq<DeviceLayout>, start: real, siteId: int, parent: NodeId,
                                           levels: Levels)
    requires AllWellFormed(ds)
    ensures NotBelow(PlaceDevices(ds, start, siteId, parent, levels), MaxRows(ds))
  {
    if ds != [] {
      var earlier, d := ds[..|ds| - 1], ds[|ds| - 1];
      var before := PlaceDevices(earlier, start, siteId, parent, levels);
      assert d in ds;
      DevicesNotBelow(earlier, start, siteId, parent, levels);
      DeviceNotBelow(d, DeviceCursor(earlier, start), siteId, parent, levels, MaxRows(ds));
    }
  }

  lemma SiteNotBelow(l: SiteLayout, region: string, levels: Levels)
    requires AllWellFormed(l.devices)
    ensures NotBelow(PlaceSite(l, region, levels), MaxRows(l.devices))
  {
    DevicesNotBelow(l.devices, l.startX + SITE_PADDING, l.site.id,
                    if levels.site then SiteId(l.site.id) else RegionId(region), levels);
  }

  lemma {:induction false} SitesNotBelow(sites: seq<Site>, devices: seq<Device>, view: View, region: string)
    ensures
      var layouts := LayoutSites(sites, devices, view);
      NotBelow(PlaceSites(layouts, region, view.levels), MaxSiteRows(layouts))
  {
    if sites != [] {
      var earlier, site := sites[..|sites| - 1], sites[|sites| - 1];
      var l := LayoutSite(site, devices, view, CursorX(earlier, devices, view));
      var before, layouts := LayoutSites(earlier, devices, view), LayoutSites(sites, devices, view);
      assert layouts == before + [l] && layouts[..|layouts| - 1] == before;
      SitesNotBelow(earlier, devices, view, region);
      SiteDevicesAreWellFormed(site, devices, view);
      SiteNotBelow(l, region, view.levels);
    }
  }

  ghost predicate Inside(node: Node, width: real, height: real) {
    0.0 <= node.x <= width && 0.0 <= node.y <= height
  }

  lemma PlacedIsInside(ps: seq<Placed>, p: Placed, cursor: real, rows: int, width: real)
    requires p in ps && AllWithin(ps, 120.0, cursor - SITE_GAP) && NotBelow(ps, rows) && width >= cursor + 120.0
    ensures Inside(p.node, width, Height(rows))
  {
    assert Within(p, 120.0, cursor - SITE_GAP);
  }

  /** Every node lies inside the drawing's width and height. */
  lemma EverythingIsInside(region: string, sites: seq<Site>, devices: seq<Device>, view: View, p: Placed)
    requires p in Placement(region, sites, devices, view)
    ensures Inside(p.node, Width(sites, devices, view), Height(MaxSiteRows(LayoutSites(sites, devices, view))))
  {
    var layouts := LayoutSites(sites, devices, view);
    var ps := PlaceSites(layouts, region, view.levels);
    if p in ps {
      SitesAreClear(sites, devices, view, region);
      SitesNotBelow(sites, devices, view, region);
      PlacedIsInside(ps, p, CursorX(sites, devices, view), MaxSiteRows(layouts), Width(sites, devices, view));
    } else {
      RootIsInside(region, sites, devices, view, p);
    }
  }

  lemma RootIsInside(region: string, sites: seq<Site>, devices: seq<Device>, view: View, p: Placed)
    requires p in Placement(region, sites, devices, view)
        && p !in PlaceSites(LayoutSites(sites, devices, view), region, view.levels)
    ensures Inside(p.node, Width(sites, devices, view), Height(MaxSiteRows(LayoutSites(sites, devices, view))))
  {
    assert Height(MaxSiteRows(LayoutSites(sites, devices, view))) >= 700.0;
  }
}
