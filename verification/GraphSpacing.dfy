/** Where exactly the inventory graph's nodes stand (buildGraph of frontend/src/lib/graphModel.ts): the
    distances between neighbours, the order of a grid, and the frame around everything. */
module GraphSpacing {
  import opened Wrappers
  import opened GraphLayout
  import opened GraphGeometry
  import opened GraphContents

  // ---------------------------------------------------------------- one grid

  /** A grid begins on its line, centred below its device, and goes on to the right, row by row. */
  lemma GridReadsLeftToRight(d: DeviceLayout, deviceX: real, siteId: int, k: nat)
    requires WellFormed(d) && k < |d.interfaces|
    ensures
      var first, node := PlaceInterface(d, deviceX, siteId, 0).node, PlaceInterface(d, deviceX, siteId, k).node;
      && node.id == InterfaceId(d.interfaces[k])
      && first.x + (d.columns - 1) as real * 66.0 == deviceX && first.y == 700.0
      && (k + 1 < |d.interfaces| ==>
            var next := PlaceInterface(d, deviceX, siteId, k + 1).node;
            if (k + 1) % d.columns == 0 then next.x == first.x && next.y == node.y + 84.0
            else next.x == node.x + 132.0 && next.y == node.y)
  {
    var c := d.columns;
    assert 0 % c == 0 && 0 / c == 0;
    NextCell(k, c);
  }

  lemma NextCell(k: nat, c: int)
    requires c > 0
    ensures if (k + 1) % c == 0 then (k + 1) / c == k / c + 1
            else (k + 1) % c == k % c + 1 && (k + 1) / c == k / c
  {
    var q, r := k / c, k % c;
    assert k == q * c + r;
    if r + 1 == c {
      assert k + 1 == (q + 1) * c + 0;
      SameQuotient(k + 1, q + 1, 0, c);
    } else {
      SameQuotient(k + 1, q, r + 1, c);
    }
  }

  lemma OneMore(q: int, c: int)
    ensures (q + 1) * c == q * c + c
  {
  }

  lemma SameQuotient(n: int, q: int, r: int, c: int)
    requires n == q * c + r && 0 <= r < c
    ensures n / c == q && n % c == r
  {
    var q', r' := n / c, n % c;
    assert n == q' * c + r';
    if q' < q {
      OneMore(q', c);
      TimesKeepsOrder(q' + 1, q, c);
    } else if q < q' {
      OneMore(q, c);
      TimesKeepsOrder(q + 1, q', c);
    }
  }

  // ---------------------------------------------------------------- blocks and lanes

  /** The room a device takes: its grid and 90 on either side, or 190 without one. */
  ghost function Block(device: Device, view: View): real {
    var d := LayoutDevice(device, view);
    if d.interfaces == [] then 190.0 else (d.columns - 1) as real * 132.0 + 180.0
  }

  /** The blocks of some devices with 96 between them. */
  ghost function Blocks(devices: seq<Device>, view: View): real {
    if devices == [] then 0.0
    else
      var earlier := devices[..|devices| - 1];
      Blocks(earlier, view) + (if earlier == [] then 0.0 else 96.0) + Block(devices[|devices| - 1], view)
  }

  /** The room a site takes: the blocks of the devices it shows and 112 on either side, or 250. */
  ghost function Lane(site: Site, devices: seq<Device>, view: View): real {
    var own := DevicesOf(devices, site.name);
    if !Opened(site, view) || !view.levels.device || own == [] then 250.0 else Blocks(own, view) + 224.0
  }

  lemma BlockIsExact(device: Device, view: View)
    ensures WellFormed(LayoutDevice(device, view)) && LayoutDevice(device, view).blockWidth == Block(device, view)
    ensures Block(device, view) >= 190.0
  {
    var d := LayoutDevice(device, view);
    if d.interfaces != [] {
      assert (d.columns - 1) as real >= 1.0;
    }
  }

  lemma {:induction false} BlocksAreExact(devices: seq<Device>, view: View)
    ensures |LayoutDevices(devices, view)| == |devices|
    ensures DevicesWidth(LayoutDevices(devices, view)) == Blocks(devices, view)
    ensures devices != [] ==> Blocks(devices, view) >= 190.0
  {
    if devices != [] {
      var earlier, last := devices[..|devices| - 1], devices[|devices| - 1];
      var before, ds := LayoutDevices(earlier, view), LayoutDevices(devices, view);
      BlocksAreExact(earlier, view);
      BlockIsExact(last, view);
      assert ds == before + [LayoutDevice(last, view)] && ds[..|ds| - 1] == before;
      assert (|ds| - 1) as real * DEVICE_GAP == Max(0, |before| - 1) as real * DEVICE_GAP
                                                + if earlier == [] then 0.0 else 96.0;
    } else {
      assert LayoutDevices(devices, view) == [];
    }
  }

  lemma LaneIsExact(site: Site, devices: seq<Device>, view: View)
    ensures LaneWidth(SiteDevices(site, devices, view)) == Lane(site, devices, view)
  {
    BlocksAreExact(DevicesOf(devices, site.name), view);
    BlocksAreExact([], view);
  }

  // ---------------------------------------------------------------- devices of one site

  ghost function DeviceStart(own: seq<Device>, view: View, start: real, k: nat): real
    requires k <= |own|
  {
    DeviceCursor(LayoutDevices(own[..k], view), start)
  }

  lemma LayoutsOfLonger(earlier: seq<Device>, last: Device, view: View)
    ensures LayoutDevices(earlier + [last], view) == LayoutDevices(earlier, view) + [LayoutDevice(last, view)]
  {
    assert (earlier + [last])[..|earlier|] == earlier;
  }

  lemma PlacesOfLonger(before: seq<DeviceLayout>, d: DeviceLayout, start: real, siteId: int, parent: NodeId,
                       levels: Levels)
    ensures PlaceDevices(before + [d], start, siteId, parent, levels)
         == PlaceDevices(before, start, siteId, parent, levels)
            + PlaceDevice(d, DeviceCursor(before, start), siteId, parent, levels)
  {
    assert (before + [d])[..|before|] == before;
  }

  lemma {:induction false} DeviceStands(own: seq<Device>, view: View, start: real, siteId: int, parent: NodeId, k: nat)
    returns (p: Placed)
    requires k < |own|
    ensures p in PlaceDevices(LayoutDevices(own, view), start, siteId, parent, view.levels)
    ensures p.node.id == DeviceId(own[k].id)
    ensures p.node.x == DeviceStart(own, view, start, k) + Block(own[k], view) / 2.0
  {
    var earlier, last := own[..|own| - 1], own[|own| - 1];
    assert own == earlier + [last];
    LayoutsOfLonger(earlier, last, view);
    PlacesOfLonger(LayoutDevices(earlier, view), LayoutDevice(last, view), start, siteId, parent, view.levels);
    if k == |own| - 1 {
      BlockIsExact(last, view);
      p := PlaceDevice(LayoutDevice(last, view), DeviceStart(own, view, start, k), siteId, parent, view.levels)[0];
    } else {
      assert earlier[..k] == own[..k];
      p := DeviceStands(earlier, view, start, siteId, parent, k);
    }
  }

  lemma NextDeviceStart(own: seq<Device>, view: View, start: real, k: nat)
    requires k < |own|
    ensures DeviceStart(own, view, start, k + 1) == DeviceStart(own, view, start, k) + Block(own[k], view) + 96.0
  {
    BlockIsExact(own[k], view);
    assert own[..k + 1] == own[..k] + [own[k]];
    LayoutsOfLonger(own[..k], own[k], view);
    var before := LayoutDevices(own[..k], view);
    assert (before + [LayoutDevice(own[k], view)])[..|before|] == before;
  }

  lemma BelowIsPlaced(l: SiteLayout, region: string, levels: Levels, below: seq<Placed>, p: Placed)
    requires below == SiteBelow(l, region, levels) && p in below
    ensures p in PlaceSite(l, region, levels)
  {
    SiteParts(l, region, levels);
    assert PlaceSite(l, region, levels) == if levels.site then [SiteNode(l, region)] + below else below;
  }

  lemma PlacedBelow(site: Site, devices: seq<Device>, view: View, region: string, startX: real, p: Placed)
    requires Opened(site, view) && view.levels.device
    requires p in PlaceDevices(LayoutDevices(DevicesOf(devices, site.name), view), startX + SITE_PADDING, site.id,
                               Parent(region, site, view), view.levels)
    ensures p in PlaceSite(LayoutSite(site, devices, view, startX), region, view.levels)
  {
    var below := PlaceDevices(LayoutDevices(DevicesOf(devices, site.name), view), startX + SITE_PADDING, site.id,
                              Parent(region, site, view), view.levels);
    BelowIsPlaced(LayoutSite(site, devices, view, startX), region, view.levels, below, p);
  }

  lemma FirstDeviceStart(own: seq<Device>, view: View, start: real)
    ensures DeviceStart(own, view, start, 0) == start
  {
    assert own[..0] == [] && LayoutDevices([], view) == [];
  }

  /** The first device of a site stands 112 and half its block from the lane's left end, and each next
      one at the half blocks of both and 96 from the one before. */
  lemma DevicesAreSpaced(site: Site, devices: seq<Device>, view: View, region: string, startX: real, k: nat)
    returns (p: Placed, q: Placed)
    requires Opened(site, view) && view.levels.device && k < |DevicesOf(devices, site.name)|
    ensures
      var own, ps := DevicesOf(devices, site.name),
          PlaceSite(LayoutSite(site, devices, view, startX), region, view.levels);
      && p in ps && p.node.id == DeviceId(own[k].id)
      && (k == 0 ==> p.node.x == startX + 112.0 + Block(own[0], view) / 2.0)
      && (k + 1 < |own| ==>
            && q in ps && q.node.id == DeviceId(own[k + 1].id)
            && q.node.x == p.node.x + Block(own[k], view) / 2.0 + 96.0 + Block(own[k + 1], view) / 2.0)
  {
    var own, parent, start := DevicesOf(devices, site.name), Parent(region, site, view), startX + SITE_PADDING;
    p := DeviceStands(own, view, start, site.id, parent, k);
    PlacedBelow(site, devices, view, region, startX, p);
    q := p;
    FirstDeviceStart(own, view, start);
    if k + 1 < |own| {
      q := DeviceStands(own, view, start, site.id, parent, k + 1);
      PlacedBelow(site, devices, view, region, startX, q);
      NextDeviceStart(own, view, start, k);
    }
  }

  // ---------------------------------------------------------------- sites

  lemma {:induction false} SiteStands(sites: seq<Site>, devices: seq<Device>, view: View, region: string, k: nat)
    returns (p: Placed)
    requires view.levels.site && k < |sites|
    ensures p in PlaceSites(LayoutSites(sites, devices, view), region, view.levels)
    ensures p.node.id == SiteId(sites[k].id)
    ensures p.node.x == CursorX(sites[..k], devices, view) + Lane(sites[k], devices, view) / 2.0
  {
    var earlier, last := sites[..|sites| - 1], sites[|sites| - 1];
    var before, l := LayoutSites(earlier, devices, view),
        LayoutSite(last, devices, view, CursorX(earlier, devices, view));
    assert (before + [l])[..|before|] == before;
    if k == |sites| - 1 {
      LaneIsExact(last, devices, view);
      SiteParts(l, region, view.levels);
      p := SiteNode(l, region);
    } else {
      assert earlier[..k] == sites[..k];
      p := SiteStands(earlier, devices, view, region, k);
    }
  }

  lemma NextCursor(sites: seq<Site>, devices: seq<Device>, view: View, k: nat)
    requires k < |sites|
    ensures CursorX(sites[..k + 1], devices, view)
         == CursorX(sites[..k], devices, view) + Lane(sites[k], devices, view) + 128.0
  {
    LaneIsExact(sites[k], devices, view);
    assert sites[..k + 1][..k] == sites[..k];
  }

  /** The first site stands 120 and half its lane from the left, each next one at the half lanes of both
      and 128 from the one before, and the width ends 248 after the last lane but is at least 1440. */
  lemma SitesAreSpaced(region: string, sites: seq<Site>, devices: seq<Device>, view: View, k: nat)
    returns (p: Placed, q: Placed)
    requires view.levels.site && k < |sites|
    ensures
      var ps := Placement(region, sites, devices, view);
      && p in ps && p.node.id == SiteId(sites[k].id)
      && (k == 0 ==> p.node.x == 120.0 + Lane(sites[0], devices, view) / 2.0)
      && (k + 1 < |sites| ==>
            && q in ps && q.node.id == SiteId(sites[k + 1].id)
            && q.node.x == p.node.x + Lane(sites[k], devices, view) / 2.0 + 128.0
                           + Lane(sites[k + 1], devices, view) / 2.0)
      && (k + 1 == |sites| ==>
            Width(sites, devices, view) == RealMax(1440.0, p.node.x + Lane(sites[k], devices, view) / 2.0 + 248.0))
  {
    p := SiteStands(sites, devices, view, region, k);
    q := p;
    NextCursor(sites, devices, view, k);
    assert sites[..0] == [];
    if k + 1 < |sites| {
      q := SiteStands(sites, devices, view, region, k + 1);
    } else {
      assert sites[..k + 1] == sites;
    }
  }

  // ---------------------------------------------------------------- the frame

  lemma StartOfLastRow(device: Device, view: View) returns (k: nat)
    requires LayoutDevice(device, view).rows > 0
    ensures var d := LayoutDevice(device, view);
            d.open && view.levels.interface && d.columns > 0 && k < |d.interfaces| && k / d.columns == d.rows - 1
  {
    var d := LayoutDevice(device, view);
    TimesKeepsOrder(0, d.rows - 1, d.columns);
    k := (d.rows - 1) * d.columns;
    SameQuotient(k, d.rows - 1, 0, d.columns);
  }

  /** The lowest interface of a device, in the last row of its grid. */
  lemma LastRowIsUsed(device: Device, view: View, cursor: real, siteId: int, parent: NodeId) returns (p: Placed)
    requires LayoutDevice(device, view).rows > 0
    ensures p in PlaceDevice(LayoutDevice(device, view), cursor, siteId, parent, view.levels)
    ensures p.node.id.InterfaceId? && p.node.y == 700.0 + (LayoutDevice(device, view).rows - 1) as real * 84.0
  {
    var d := LayoutDevice(device, view);
    var deviceX := cursor + d.blockWidth / 2.0;
    var k := StartOfLastRow(device, view);
    InterfacesPlaced(d, deviceX, siteId, |d.interfaces|);
    p := PlaceInterface(d, deviceX, siteId, k);
    assert PlaceInterfaces(d, deviceX, siteId, |d.interfaces|)[k] == p;
  }

  lemma {:induction false} LowestOfDevices(own: seq<Device>, view: View, start: real, siteId: int, parent: NodeId)
    returns (p: Placed)
    requires MaxRows(LayoutDevices(own, view)) > 0
    ensures p in PlaceDevices(LayoutDevices(own, view), start, siteId, parent, view.levels)
    ensures p.node.id.InterfaceId? && p.node.y == 700.0 + (MaxRows(LayoutDevices(own, view)) - 1) as real * 84.0
  {
    var earlier, last := own[..|own| - 1], own[|own| - 1];
    var before, d := LayoutDevices(earlier, view), LayoutDevice(last, view);
    PlacesOfLonger(before, d, start, siteId, parent, view.levels);
    assert (before + [d])[..|before|] == before;
    if d.rows >= MaxRows(before) {
      p := LastRowIsUsed(last, view, DeviceCursor(before, start), siteId, parent);
    } else {
      p := LowestOfDevices(earlier, view, start, siteId, parent);
    }
  }

  lemma LowestOfSite(site: Site, devices: seq<Device>, view: View, region: string, startX: real) returns (p: Placed)
    requires MaxRows(SiteDevices(site, devices, view)) > 0
    ensures p in PlaceSite(LayoutSite(site, devices, view, startX), region, view.levels)
    ensures p.node.id.InterfaceId? && p.node.y == 700.0 + (MaxRows(SiteDevices(site, devices, view)) - 1) as real * 84.0
  {
    p := LowestOfDevices(DevicesOf(devices, site.name), view, startX + SITE_PADDING, site.id,
                         Parent(region, site, view));
    PlacedBelow(site, devices, view, region, startX, p);
  }

  lemma {:induction false} LowestOfSites(sites: seq<Site>, devices: seq<Device>, view: View, region: string)
    returns (p: Placed)
    requires MaxSiteRows(LayoutSites(sites, devices, view)) > 0
    ensures p in PlaceSites(LayoutSites(sites, devices, view), region, view.levels)
    ensures p.node.id.InterfaceId?
         && p.node.y == 700.0 + (MaxSiteRows(LayoutSites(sites, devices, view)) - 1) as real * 84.0
  {
    var earlier, last := sites[..|sites| - 1], sites[|sites| - 1];
    var before, startX := LayoutSites(earlier, devices, view), CursorX(earlier, devices, view);
    var l := LayoutSite(last, devices, view, startX);
    assert (before + [l])[..|before|] == before;
    if MaxRows(l.devices) >= MaxSiteRows(before) {
      p := LowestOfSite(last, devices, view, region, startX);
    } else {
      p := LowestOfSites(earlier, devices, view, region);
    }
  }

  ghost predicate ShowsInterfaces(ps: seq<Placed>) {
    exists p :: p in ps && p.node.id.InterfaceId?
  }

  lemma HeightIsReached(region: string, sites: seq<Site>, devices: seq<Device>, view: View)
    ensures
      var ps, rows := Placement(region, sites, devices, view), MaxSiteRows(LayoutSites(sites, devices, view));
      if rows > 0 then exists p :: p in ps && p.node.id.InterfaceId? && p.node.y == 700.0 + (rows - 1) as real * 84.0
      else forall p :: p in ps && p.node.id.InterfaceId? ==> p.node.y == 700.0
  {
    if MaxSiteRows(LayoutSites(sites, devices, view)) > 0 {
      var p := LowestOfSites(sites, devices, view, region);
      assert p in Placement(region, sites, devices, view);
    } else {
      SitesNotBelow(sites, devices, view, region);
      forall p | p in Placement(region, sites, devices, view) && p.node.id.InterfaceId? ensures p.node.y == 700.0 {
        InterfaceIsNotAbove(region, sites, devices, view, p);
      }
    }
  }

  /** The region stands in the middle; the height ends 150 below the lowest interface, and is 850
      without any. */
  lemma FrameIsExact(region: string, sites: seq<Site>, devices: seq<Device>, view: View)
    ensures
      var ps := Placement(region, sites, devices, view);
      var height := Height(MaxSiteRows(LayoutSites(sites, devices, view)));
      && ps[0].node.x == Width(sites, devices, view) / 2.0
      && (!ShowsInterfaces(ps) ==> height == 850.0)
      && (forall p :: p in ps && p.node.id.InterfaceId? ==> p.node.y + 150.0 <= height)
      && (ShowsInterfaces(ps) ==> exists p :: p in ps && p.node.id.InterfaceId? && p.node.y + 150.0 == height)
  {
    SitesNotBelow(sites, devices, view, region);
    HeightIsReached(region, sites, devices, view);
  }

  lemma InterfaceIsNotAbove(region: string, sites: seq<Site>, devices: seq<Device>, view: View, p: Placed)
    requires p in Placement(region, sites, devices, view) && p.node.id.InterfaceId?
    ensures p.node.y >= 700.0
  {
    var i :| 0 <= i < |Placement(region, sites, devices, view)| && Placement(region, sites, devices, view)[i] == p;
    NothingElseIsDrawn(region, sites, devices, view, i);
  }
}
