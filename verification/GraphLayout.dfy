/** The two-pass tree layout of the inventory graph (buildGraph of frontend/src/lib/graphModel.ts), in
    exact arithmetic. */
module GraphLayout {
  import opened Wrappers

  datatype Levels = Levels(region: bool, site: bool, device: bool, interface: bool)

  datatype Site = Site(id: int, name: string)

  datatype Device = Device(id: int, name: string, site: string)

  datatype Lifecycle = Collapsing | Expanding

  /** What the user opened; `root` gives the column count that the square root proposes. */
  datatype View = View(
    levels: Levels, interfacesByDevice: map<int, seq<int>>, root: nat -> int,
    expandedSite: Option<int>, collapsingSite: Option<int>, expandedDevice: Option<int>, collapsingDevice: Option<int>)

  datatype NodeId = RegionId(name: string) | SiteId(id: int) | DeviceId(id: int) | InterfaceId(id: int)

  /** A node; its site is None for the region. */
  datatype Node = Node(id: NodeId, x: real, y: real, siteId: Option<int>)

  datatype Link = Link(from: NodeId, to: NodeId, siteId: int)

  datatype Graph = Graph(nodes: seq<Node>, links: seq<Link>, width: real, height: real)

  const SITE_GAP := 128.0
  const SITE_PADDING := 112.0
  const DEVICE_GAP := 96.0
  const INTERFACE_GAP_X := 132.0
  const INTERFACE_GAP_Y := 84.0

  function Clamp(min: int, value: int, max: int): (r: int)
    ensures min <= max ==> min <= r <= max
  {
    Max(min, if max <= value then max else value)
  }

  /** getInterfaceGrid: columns and rows. */
  function InterfaceGrid(count: nat, root: nat -> int): (grid: (int, int))
    ensures count == 0 ==> grid == (0, 0)
    ensures count > 0 ==> grid.0 == if root(count) < 2 then 2 else if root(count) > 7 then 7 else root(count)
    ensures count > 0 ==> 2 <= grid.0 <= 7 && grid.1 > 0 && (grid.1 - 1) * grid.0 < count <= grid.1 * grid.0
  {
    if count == 0 then (0, 0)
    else
      var columns := Clamp(2, root(count), 7);
      var rows := (count + columns - 1) / columns;
      (columns, rows)
  }

  /** getLifecycle. */
  function LifecycleOf(id: int, expanded: Option<int>, collapsing: Option<int>): Option<Lifecycle> {
    if Some(id) == collapsing then Some(Collapsing)
    else if Some(id) == expanded then Some(Expanding)
    else None
  }

  // ---------------------------------------------------------------- pass one: widths

  datatype DeviceLayout = DeviceLayout(deviceId: int, interfaces: seq<int>, columns: int, rows: int, open: bool,
                                       blockWidth: real)

  datatype SiteLayout = SiteLayout(site: Site, open: bool, devices: seq<DeviceLayout>, startX: real, centerX: real)

  function GridWidth(columns: int): real {
    if columns > 0 then (columns - 1) as real * INTERFACE_GAP_X else 0.0
  }

  function BlockWidth(columns: int): real {
    RealMax(190.0, if columns > 0 then (columns - 1) as real * INTERFACE_GAP_X + 180.0 else 0.0)
  }

  function LayoutDevice(device: Device, view: View): DeviceLayout {
    var open := LifecycleOf(device.id, view.expandedDevice, view.collapsingDevice).Some?;
    var listed := view.levels.interface && open && device.id in view.interfacesByDevice;
    var interfaces := if listed then view.interfacesByDevice[device.id] else [];
    var grid := InterfaceGrid(|interfaces|, view.root);
    DeviceLayout(device.id, interfaces, grid.0, grid.1, open, BlockWidth(grid.0))
  }

  function LayoutDevices(devices: seq<Device>, view: View): seq<DeviceLayout> {
    if devices == [] then []
    else LayoutDevices(devices[..|devices| - 1], view) + [LayoutDevice(devices[|devices| - 1], view)]
  }

  function DevicesOf(devices: seq<Device>, site: string): seq<Device> {
    if devices == [] then []
    else
      DevicesOf(devices[..|devices| - 1], site)
      + if devices[|devices| - 1].site == site then [devices[|devices| - 1]] else []
  }

  function WidthSum(ds: seq<DeviceLayout>): real {
    if ds == [] then 0.0 else WidthSum(ds[..|ds| - 1]) + ds[|ds| - 1].blockWidth
  }

  function DevicesWidth(ds: seq<DeviceLayout>): real {
    WidthSum(ds) + Max(0, |ds| - 1) as real * DEVICE_GAP
  }

  function LaneWidth(ds: seq<DeviceLayout>): real {
    RealMax(250.0, DevicesWidth(ds) + SITE_PADDING * 2.0)
  }

  function SiteIsOpen(site: Site, view: View): bool {
    LifecycleOf(site.id, view.expandedSite, view.collapsingSite).Some?
  }

  function SiteDevices(site: Site, devices: seq<Device>, view: View): seq<DeviceLayout> {
    if SiteIsOpen(site, view) && view.levels.device then LayoutDevices(DevicesOf(devices, site.name), view) else []
  }

  /** Where the lane after the given sites starts. */
  function CursorX(sites: seq<Site>, devices: seq<Device>, view: View): real {
    if sites == [] then 120.0
    else
      CursorX(sites[..|sites| - 1], devices, view)
      + LaneWidth(SiteDevices(sites[|sites| - 1], devices, view)) + SITE_GAP
  }

  function LayoutSite(site: Site, devices: seq<Device>, view: View, startX: real): SiteLayout {
    var ds := SiteDevices(site, devices, view);
    SiteLayout(site, SiteIsOpen(site, view), ds, startX, startX + LaneWidth(ds) / 2.0)
  }

  function LayoutSites(sites: seq<Site>, devices: seq<Device>, view: View): seq<SiteLayout> {
    if sites == [] then []
    else
      var earlier := sites[..|sites| - 1];
      LayoutSites(earlier, devices, view)
          + [LayoutSite(sites[|sites| - 1], devices, view, CursorX(earlier, devices, view))]
  }

  function MaxRows(ds: seq<DeviceLayout>): int {
    if ds == [] then 0 else Max(MaxRows(ds[..|ds| - 1]), ds[|ds| - 1].rows)
  }

  function MaxSiteRows(layouts: seq<SiteLayout>): int {
    if layouts == [] then 0 else Max(MaxSiteRows(layouts[..|layouts| - 1]), MaxRows(layouts[|layouts| - 1].devices))
  }

  // ---------------------------------------------------------------- pass two: places

  /** A node with the link that leads to it; only the region has none. */
  datatype Placed = Placed(node: Node, link: Option<Link>)

  function Nodes(ps: seq<Placed>): seq<Node> {
    if ps == [] then [] else Nodes(ps[..|ps| - 1]) + [ps[|ps| - 1].node]
  }

  function Links(ps: seq<Placed>): seq<Link> {
    if ps == [] then []
    else Links(ps[..|ps| - 1]) + match ps[|ps| - 1].link case Some(link) => [link] case None => []
  }

  function PlaceInterface(d: DeviceLayout, deviceX: real, siteId: int, k: nat): Placed
    requires k < |d.interfaces|
  {
    var column := if d.columns > 0 then k % d.columns else 0;
    var row := if d.columns > 0 then k / d.columns else 0;
    Placed(Node(InterfaceId(d.interfaces[k]), deviceX - GridWidth(d.columns) / 2.0 + column as real * INTERFACE_GAP_X,
                700.0 + row as real * INTERFACE_GAP_Y, Some(siteId)),
           Some(Link(DeviceId(d.deviceId), InterfaceId(d.interfaces[k]), siteId)))
  }

  function PlaceInterfaces(d: DeviceLayout, deviceX: real, siteId: int, count: nat): seq<Placed>
    requires count <= |d.interfaces|
  {
    if count == 0 then []
    else PlaceInterfaces(d, deviceX, siteId, count - 1) + [PlaceInterface(d, deviceX, siteId, count - 1)]
  }

  function PlaceDevice(d: DeviceLayout, cursor: real, siteId: int, parent: NodeId, levels: Levels): seq<Placed> {
    var deviceX := cursor + d.blockWidth / 2.0;
    [Placed(Node(DeviceId(d.deviceId), deviceX, 505.0, Some(siteId)), Some(Link(parent, DeviceId(d.deviceId), siteId)))]
    + if d.open && levels.interface then PlaceInterfaces(d, deviceX, siteId, |d.interfaces|) else []
  }

  /** Where the block after the given devices starts. */
  function DeviceCursor(ds: seq<DeviceLayout>, start: real): real {
    if ds == [] then start else DeviceCursor(ds[..|ds| - 1], start) + ds[|ds| - 1].blockWidth + DEVICE_GAP
  }

  function PlaceDevices(ds: seq<DeviceLayout>, start: real, siteId: int, parent: NodeId, levels: Levels): seq<Placed> {
    if ds == [] then []
    else
      var earlier := ds[..|ds| - 1];
      PlaceDevices(earlier, start, siteId, parent, levels)
          + PlaceDevice(ds[|ds| - 1], DeviceCursor(earlier, start), siteId, parent, levels)
  }

  function PlaceSite(l: SiteLayout, region: string, levels: Levels): seq<Placed> {
    (if levels.site then [Placed(Node(SiteId(l.site.id), l.centerX, 285.0, Some(l.site.id)),
                                 Some(Link(RegionId(region), SiteId(l.site.id), l.site.id)))] else [])
    + if l.open && levels.device then
        PlaceDevices(l.devices, l.startX + SITE_PADDING, l.site.id,
                     if levels.site then SiteId(l.site.id) else RegionId(region), levels)
      else []
  }

  function PlaceSites(layouts: seq<SiteLayout>, region: string, levels: Levels): seq<Placed> {
    if layouts == [] then []
    else PlaceSites(layouts[..|layouts| - 1], region, levels) + PlaceSite(layouts[|layouts| - 1], region, levels)
  }

  function Width(sites: seq<Site>, devices: seq<Device>, view: View): real {
    RealMax(1440.0, CursorX(sites, devices, view) + 120.0)
  }

  function Height(maxRows: int): real {
    RealMax(700.0, 700.0 + Max(0, maxRows - 1) as real * INTERFACE_GAP_Y + 150.0)
  }

  /** Everything that is drawn, in order, the region first. */
  function Placement(region: string, sites: seq<Site>, devices: seq<Device>, view: View): seq<Placed> {
    [Placed(Node(RegionId(region), Width(sites, devices, view) / 2.0, 92.0, None), None)]
    + PlaceSites(LayoutSites(sites, devices, view), region, view.levels)
  }

  // ---------------------------------------------------------------- the loops

  lemma NodesConcat(a: seq<Placed>, b: seq<Placed>)
    ensures Nodes(a + b) == Nodes(a) + Nodes(b) && Links(a + b) == Links(a) + Links(b)
  {
    if b == [] {
      assert a + b == a;
    } else {
      NodesConcat(a, b[..|b| - 1]);
      assert (a + b)[..|a + b| - 1] == a + b[..|b| - 1];
    }
  }

  lemma LayoutNextSite(sites: seq<Site>, i: nat, devices: seq<Device>, view: View)
    requires i < |sites|
    ensures
      var cursor := CursorX(sites[..i], devices, view);
      && LayoutSites(sites[..i + 1], devices, view)
          == LayoutSites(sites[..i], devices, view) + [LayoutSite(sites[i], devices, view, cursor)]
      && CursorX(sites[..i + 1], devices, view) == cursor + LaneWidth(SiteDevices(sites[i], devices, view)) + SITE_GAP
  {
    assert sites[..i + 1][..i] == sites[..i];
  }

  /** The first pass. */
  method LayoutPass(sites: seq<Site>, devices: seq<Device>, view: View)
    returns (layouts: seq<SiteLayout>, cursorX: real, maxInterfaceRows: int)
    ensures layouts == LayoutSites(sites, devices, view) && cursorX == CursorX(sites, devices, view)
    ensures maxInterfaceRows == MaxSiteRows(layouts)
  {
    layouts, cursorX, maxInterfaceRows := [], 120.0, 0;
    var i := 0;
    while i < |sites|
      invariant 0 <= i <= |sites|
      invariant layouts == LayoutSites(sites[..i], devices, view) && cursorX == CursorX(sites[..i], devices, view)
      invariant maxInterfaceRows == MaxSiteRows(layouts) >= 0
    {
      LayoutNextSite(sites, i, devices, view);
      var layout, laneWidth, rows := LayoutSitePass(sites[i], devices, view, cursorX);
      maxInterfaceRows := Max(maxInterfaceRows, rows);
      layouts := layouts + [layout];
      cursorX := cursorX + laneWidth + SITE_GAP;
      i := i + 1;
    }
    assert sites[..i] == sites;
  }

  method LayoutSitePass(site: Site, devices: seq<Device>, view: View, cursorX: real)
    returns (layout: SiteLayout, laneWidth: real, rows: int)
    ensures layout == LayoutSite(site, devices, view, cursorX)
    ensures laneWidth == LaneWidth(SiteDevices(site, devices, view)) && rows == MaxRows(layout.devices) >= 0
  {
    var open := SiteIsOpen(site, view);
    var deviceLayouts;
    deviceLayouts, rows := [], 0;
    if open && view.levels.device {
      deviceLayouts, rows := LayoutDevicePass(DevicesOf(devices, site.name), view);
    }
    laneWidth := LaneWidth(deviceLayouts);
    layout := SiteLayout(site, open, deviceLayouts, cursorX, cursorX + laneWidth / 2.0);
  }

  method LayoutDevicePass(devices: seq<Device>, view: View) returns (layouts: seq<DeviceLayout>, rows: int)
    ensures layouts == LayoutDevices(devices, view) && rows == MaxRows(layouts) >= 0
  {
    layouts, rows := [], 0;
    var i := 0;
    while i < |devices|
      invariant 0 <= i <= |devices|
      invariant layouts == LayoutDevices(devices[..i], view) && rows == MaxRows(layouts) >= 0
    {
      assert devices[..i + 1][..i] == devices[..i];
      var layout := LayoutDevice(devices[i], view);
      assert (layouts + [layout])[..|layouts|] == layouts;
      layouts := layouts + [layout];
      rows := Max(rows, layout.rows);
      i := i + 1;
    }
    assert devices[..i] == devices;
  }

  /** The lists hold exactly what is placed. */
  ghost predicate Drawn(nodes: seq<Node>, links: seq<Link>, ps: seq<Placed>) {
    nodes == Nodes(ps) && links == Links(ps)
  }

  lemma DrawnNext(nodes: seq<Node>, links: seq<Link>, ps: seq<Placed>, moreNodes: seq<Node>, moreLinks: seq<Link>,
                  more: seq<Placed>)
    requires Drawn(nodes, links, ps) && Drawn(moreNodes, moreLinks, more)
    ensures Drawn(nodes + moreNodes, links + moreLinks, ps + more)
  {
    NodesConcat(ps, more);
  }

  lemma InterfacesNext(first: seq<Placed>, d: DeviceLayout, deviceX: real, siteId: int, k: nat)
    requires k < |d.interfaces|
    ensures first + PlaceInterfaces(d, deviceX, siteId, k + 1)
        == first + PlaceInterfaces(d, deviceX, siteId, k) + [PlaceInterface(d, deviceX, siteId, k)]
  {
  }

  /** The grid of a device whose node is drawn. */
  method PlaceGridPass(d: DeviceLayout, deviceX: real, siteId: int, nodesBefore: seq<Node>, linksBefore: seq<Link>,
                       ghost before: seq<Placed>)
    returns (nodes: seq<Node>, links: seq<Link>)
    requires Drawn(nodesBefore, linksBefore, before)
    ensures Drawn(nodes, links, before + PlaceInterfaces(d, deviceX, siteId, |d.interfaces|))
  {
    nodes, links := nodesBefore, linksBefore;
    assert before + [] == before;
    var k := 0;
    while k < |d.interfaces|
      invariant 0 <= k <= |d.interfaces|
      invariant Drawn(nodes, links, before + PlaceInterfaces(d, deviceX, siteId, k))
    {
      var p := PlaceInterface(d, deviceX, siteId, k);
      DrawnNext(nodes, links, before + PlaceInterfaces(d, deviceX, siteId, k), [p.node], [p.link.value], [p]);
      InterfacesNext(before, d, deviceX, siteId, k);
      nodes, links := nodes + [p.node], links + [p.link.value];
      k := k + 1;
    }
  }

  /** One device and its grid. */
  method PlaceDevicePass(d: DeviceLayout, cursor: real, siteId: int, parent: NodeId, levels: Levels)
    returns (nodes: seq<Node>, links: seq<Link>)
    ensures Drawn(nodes, links, PlaceDevice(d, cursor, siteId, parent, levels))
  {
    var deviceX := cursor + d.blockWidth / 2.0;
    var node, link := Node(DeviceId(d.deviceId), deviceX, 505.0, Some(siteId)),
        Link(parent, DeviceId(d.deviceId), siteId);
    nodes, links := [node], [link];
    if d.open && levels.interface {
      nodes, links := PlaceGridPass(d, deviceX, siteId, nodes, links, [Placed(node, Some(link))]);
    }
  }

  lemma DevicesUpTo(ds: seq<DeviceLayout>, i: nat, start: real, siteId: int, parent: NodeId, levels: Levels)
    requires i < |ds|
    ensures PlaceDevices(ds[..i + 1], start, siteId, parent, levels)
         == PlaceDevices(ds[..i], start, siteId, parent, levels)
             + PlaceDevice(ds[i], DeviceCursor(ds[..i], start), siteId, parent, levels)
    ensures DeviceCursor(ds[..i + 1], start) == DeviceCursor(ds[..i], start) + ds[i].blockWidth + DEVICE_GAP
  {
    assert ds[..i + 1][..i] == ds[..i];
  }

  lemma DevicesNext(before: seq<Placed>, ds: seq<DeviceLayout>, i: nat, start: real, siteId: int, parent: NodeId,
                    levels: Levels)
    requires i < |ds|
    ensures before + PlaceDevices(ds[..i + 1], start, siteId, parent, levels)
         == before + PlaceDevices(ds[..i], start, siteId, parent, levels)
             + PlaceDevice(ds[i], DeviceCursor(ds[..i], start), siteId, parent, levels)
    ensures DeviceCursor(ds[..i + 1], start) == DeviceCursor(ds[..i], start) + ds[i].blockWidth + DEVICE_GAP
  {
    DevicesUpTo(ds, i, start, siteId, parent, levels);
  }

  /** The devices of an open site, left to right. */
  method PlaceDevicesPass(l: SiteLayout, parent: NodeId, levels: Levels, nodesBefore: seq<Node>, linksBefore: seq<Link>,
                          ghost before: seq<Placed>)
    returns (nodes: seq<Node>, links: seq<Link>)
    requires Drawn(nodesBefore, linksBefore, before)
    ensures Drawn(nodes, links, before + PlaceDevices(l.devices, l.startX + SITE_PADDING, l.site.id, parent, levels))
  {
    nodes, links := nodesBefore, linksBefore;
    ghost var start := l.startX + SITE_PADDING;
    var deviceCursorX := l.startX + SITE_PADDING;
    var i := 0;
    assert before + [] == before;
    while i < |l.devices|
      invariant 0 <= i <= |l.devices|
      invariant deviceCursorX == DeviceCursor(l.devices[..i], start)
      invariant Drawn(nodes, links, before + PlaceDevices(l.devices[..i], start, l.site.id, parent, levels))
    {
      var moreNodes, moreLinks := PlaceDevicePass(l.devices[i], deviceCursorX, l.site.id, parent, levels);
      DrawnNext(nodes, links, before + PlaceDevices(l.devices[..i], start, l.site.id, parent, levels),
                moreNodes, moreLinks, PlaceDevice(l.devices[i], deviceCursorX, l.site.id, parent, levels));
      DevicesNext(before, l.devices, i, start, l.site.id, parent, levels);
      nodes, links := nodes + moreNodes, links + moreLinks;
      deviceCursorX := deviceCursorX + l.devices[i].blockWidth + DEVICE_GAP;
      i := i + 1;
    }
    assert l.devices[..i] == l.devices;
  }

  method PlaceSitePass(l: SiteLayout, region: string, levels: Levels) returns (nodes: seq<Node>, links: seq<Link>)
    ensures Drawn(nodes, links, PlaceSite(l, region, levels))
  {
    nodes, links := [], [];
    ghost var done: seq<Placed> := [];
    var parent := if levels.site then SiteId(l.site.id) else RegionId(region);
    if levels.site {
      var node, link := Node(SiteId(l.site.id), l.centerX, 285.0, Some(l.site.id)),
          Link(RegionId(region), SiteId(l.site.id), l.site.id);
      nodes, links, done := [node], [link], [Placed(node, Some(link))];
    }
    if !l.open || !levels.device {
      assert done + [] == done;
      return;
    }
    nodes, links := PlaceDevicesPass(l, parent, levels, nodes, links, done);
  }

  lemma SitesNext(before: seq<Placed>, layouts: seq<SiteLayout>, i: nat, region: string, levels: Levels)
    requires i < |layouts|
    ensures before + PlaceSites(layouts[..i + 1], region, levels)
        == before + PlaceSites(layouts[..i], region, levels) + PlaceSite(layouts[i], region, levels)
  {
    assert layouts[..i + 1][..i] == layouts[..i];
  }

  /** The second pass, below the region's node. */
  method PlaceSitesPass(layouts: seq<SiteLayout>, region: string, levels: Levels, root: Node)
    returns (nodes: seq<Node>, links: seq<Link>)
    ensures Drawn(nodes, links, [Placed(root, None)] + PlaceSites(layouts, region, levels))
  {
    nodes, links := [root], [];
    ghost var before := [Placed(root, None)];
    assert before[..0] == [] && Nodes([]) == [] && Links([]) == [] && before + [] == before;
    var i := 0;
    while i < |layouts|
      invariant 0 <= i <= |layouts|
      invariant Drawn(nodes, links, before + PlaceSites(layouts[..i], region, levels))
    {
      var moreNodes, moreLinks := PlaceSitePass(layouts[i], region, levels);
      DrawnNext(nodes, links, before + PlaceSites(layouts[..i], region, levels), moreNodes, moreLinks,
                PlaceSite(layouts[i], region, levels));
      SitesNext(before, layouts, i, region, levels);
      nodes, links := nodes + moreNodes, links + moreLinks;
      i := i + 1;
    }
    assert layouts[..i] == layouts;
  }

  /** buildGraph. */
  method BuildGraph(region: Option<string>, sites: seq<Site>, devices: seq<Device>, view: View) returns (graph: Graph)
    ensures region.None? || region.value == "" || !view.levels.region ==> graph == Graph([], [], 1440.0, 760.0)
    ensures region.Some? && region.value != "" && view.levels.region ==>
      && Drawn(graph.nodes, graph.links, Placement(region.value, sites, devices, view))
      && graph.width == Width(sites, devices, view)
      && graph.height == Height(MaxSiteRows(LayoutSites(sites, devices, view)))
  {
    if region.None? || region.value == "" || !view.levels.region {
      return Graph([], [], 1440.0, 760.0);
    }
    var layouts, cursorX, maxInterfaceRows := LayoutPass(sites, devices, view);
    var width := RealMax(1440.0, cursorX + 120.0);
    var height := RealMax(700.0, 700.0 + Max(0, maxInterfaceRows - 1) as real * INTERFACE_GAP_Y + 150.0);
    var nodes, links := PlaceSitesPass(layouts, region.value, view.levels,
                                       Node(RegionId(region.value), width / 2.0, 92.0, None));
    return Graph(nodes, links, width, height);
  }
}
