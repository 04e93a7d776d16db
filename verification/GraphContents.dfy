/** What the inventory graph shows (buildGraph of frontend/src/lib/graphModel.ts): which sites, devices
    and interfaces are drawn, on which line, and what each of them is linked to. */
module GraphContents {
  import opened Wrappers
  import opened GraphLayout

  const REGION_LINE := 92.0
  const SITE_LINE := 285.0
  const DEVICE_LINE := 505.0
  const FIRST_INTERFACE_LINE := 700.0

  /** The site was opened, and perhaps closes again. */
  ghost predicate Opened(site: Site, view: View) {
    view.expandedSite == Some(site.id) || view.collapsingSite == Some(site.id)
  }

  ghost predicate OpenedDevice(device: Device, view: View) {
    view.expandedDevice == Some(device.id) || view.collapsingDevice == Some(device.id)
  }

  /** The device is shown under the site. */
  ghost predicate Shows(site: Site, device: Device, view: View) {
    device.site == site.name && Opened(site, view) && view.levels.device
  }

  /** The interface is shown under the device. */
  ghost predicate ShowsInterface(device: Device, interface: int, view: View) {
    && view.levels.interface && OpenedDevice(device, view)
    && device.id in view.interfacesByDevice && interface in view.interfacesByDevice[device.id]
  }

  ghost predicate IsSite(p: Placed, region: string, site: Site, view: View) {
    && view.levels.site && p.node.id == SiteId(site.id) && p.node.y == SITE_LINE && p.node.siteId == Some(site.id)
    && p.link == Some(Link(RegionId(region), SiteId(site.id), site.id))
  }

  function Parent(region: string, site: Site, view: View): NodeId {
    if view.levels.site then SiteId(site.id) else RegionId(region)
  }

  ghost predicate IsDevice(p: Placed, region: string, site: Site, device: Device, view: View) {
    && Shows(site, device, view) && p.node.id == DeviceId(device.id) && p.node.y == DEVICE_LINE
    && p.node.siteId == Some(site.id)
    && p.link == Some(Link(Parent(region, site, view), DeviceId(device.id), site.id))
  }

  ghost predicate IsInterface(p: Placed, site: Site, device: Device, interface: int, view: View) {
    && Shows(site, device, view) && ShowsInterface(device, interface, view)
    && p.node.id == InterfaceId(interface) && p.node.y >= FIRST_INTERFACE_LINE && p.node.siteId == Some(site.id)
    && p.link == Some(Link(DeviceId(device.id), InterfaceId(interface), site.id))
  }

  // ---------------------------------------------------------------- one device

  lemma {:induction false} InterfacesPlaced(d: DeviceLayout, deviceX: real, siteId: int, count: nat)
    requires count <= |d.interfaces|
    ensures |PlaceInterfaces(d, deviceX, siteId, count)| == count
    ensures forall k :: 0 <= k < count ==>
              PlaceInterfaces(d, deviceX, siteId, count)[k] == PlaceInterface(d, deviceX, siteId, k)
  {
    if count > 0 {
      InterfacesPlaced(d, deviceX, siteId, count - 1);
    }
  }

  lemma InterfaceStands(d: DeviceLayout, deviceX: real, siteId: int, k: nat)
    requires k < |d.interfaces| && d.columns >= 0
    ensures
      var p := PlaceInterface(d, deviceX, siteId, k);
      && p.node.id == InterfaceId(d.interfaces[k]) && p.node.y >= FIRST_INTERFACE_LINE && p.node.siteId == Some(siteId)
      && p.link == Some(Link(DeviceId(d.deviceId), InterfaceId(d.interfaces[k]), siteId))
  {
    if d.columns > 0 {
      assert k / d.columns >= 0;
    }
  }

  /** What one device contributes: itself, and its interfaces when it is open. */
  ghost predicate DeviceContents(ps: seq<Placed>, region: string, site: Site, device: Device, view: View) {
    && (forall p :: p in ps ==> IsDevice(p, region, site, device, view)
                                || exists k :: IsInterface(p, site, device, k, view))
    && (exists p :: p in ps && IsDevice(p, region, site, device, view))
    && (forall k :: ShowsInterface(device, k, view) ==> exists p :: p in ps && IsInterface(p, site, device, k, view))
  }

  lemma LayoutHoldsInterfaces(device: Device, view: View)
    ensures
      var d := LayoutDevice(device, view);
      && d.deviceId == device.id && d.columns >= 0 && (d.open <==> OpenedDevice(device, view))
      && (forall k :: k in d.interfaces <==> ShowsInterface(device, k, view))
  {
  }

  lemma PlacedDevice(device: Device, view: View, cursor: real, region: string, site: Site)
    requires Shows(site, device, view)
    ensures DeviceContents(PlaceDevice(LayoutDevice(device, view), cursor, site.id, Parent(region, site, view),
                                       view.levels),
                           region, site, device, view)
  {
    var d := LayoutDevice(device, view);
    var ps := PlaceDevice(d, cursor, site.id, Parent(region, site, view), view.levels);
    var deviceX := cursor + d.blockWidth / 2.0;
    LayoutHoldsInterfaces(device, view);
    InterfacesPlaced(d, deviceX, site.id, |d.interfaces|);
    assert IsDevice(ps[0], region, site, device, view);
    forall i | 1 <= i < |ps| ensures IsInterface(ps[i], site, device, d.interfaces[i - 1], view) {
      InterfaceStands(d, deviceX, site.id, i - 1);
      assert d.interfaces[i - 1] in d.interfaces;
    }
    forall k | ShowsInterface(device, k, view) ensures exists p :: p in ps && IsInterface(p, site, device, k, view) {
      var i :| 0 <= i < |d.interfaces| && d.interfaces[i] == k;
      assert ps[i + 1] in ps;
    }
  }

  // ---------------------------------------------------------------- one site

  ghost predicate OfDevice(p: Placed, region: string, site: Site, device: Device, view: View) {
    IsDevice(p, region, site, device, view) || exists k :: IsInterface(p, site, device, k, view)
  }

  lemma {:induction false} PlacedOfSomeDevice(devices: seq<Device>, view: View, start: real, region: string, site: Site,
                                              p: Placed)
    returns (d: Device)
    requires forall d :: d in devices ==> Shows(site, d, view)
    requires p in PlaceDevices(LayoutDevices(devices, view), start, site.id, Parent(region, site, view), view.levels)
    ensures d in devices && OfDevice(p, region, site, d, view)
  {
    var front, last := devices[..|devices| - 1], devices[|devices| - 1];
    var earlier := LayoutDevices(front, view);
    assert LayoutDevices(devices, view)[..|front|] == earlier by {
      LayoutsKeepLength(front, view);
    }
    if p in PlaceDevices(earlier, start, site.id, Parent(region, site, view), view.levels) {
      d := PlacedOfSomeDevice(front, view, start, region, site, p);
    } else {
      d := last;
      PlacedDevice(last, view, DeviceCursor(earlier, start), region, site);
    }
  }

  lemma {:induction false} LayoutsKeepLength(devices: seq<Device>, view: View)
    ensures |LayoutDevices(devices, view)| == |devices|
  {
    if devices != [] {
      LayoutsKeepLength(devices[..|devices| - 1], view);
    }
  }

  /** Every device of the list is placed somewhere. */
  lemma {:induction false} EveryDeviceIsPlaced(devices: seq<Device>, view: View, start: real, siteId: int,
                                               parent: NodeId, device: Device)
    returns (cursor: real)
    requires device in devices
    ensures forall p :: p in PlaceDevice(LayoutDevice(device, view), cursor, siteId, parent, view.levels) ==>
              p in PlaceDevices(LayoutDevices(devices, view), start, siteId, parent, view.levels)
  {
    var front, last := devices[..|devices| - 1], devices[|devices| - 1];
    var earlier := LayoutDevices(front, view);
    assert LayoutDevices(devices, view)[..|front|] == earlier by {
      LayoutsKeepLength(front, view);
    }
    if device == last {
      cursor := DeviceCursor(earlier, start);
    } else {
      cursor := EveryDeviceIsPlaced(front, view, start, siteId, parent, device);
    }
  }

  lemma {:induction false} DevicesOfSite(devices: seq<Device>, name: string)
    ensures forall d: Device :: d in DevicesOf(devices, name) <==> d in devices && d.site == name
  {
    if devices != [] {
      DevicesOfSite(devices[..|devices| - 1], name);
      assert devices == devices[..|devices| - 1] + [devices[|devices| - 1]];
    }
  }

  ghost predicate OfSite(p: Placed, region: string, site: Site, devices: seq<Device>, view: View) {
    IsSite(p, region, site, view) || exists d :: d in devices && OfDevice(p, region, site, d, view)
  }

  lemma PlacedOfSite(site: Site, startX: real, region: string, devices: seq<Device>, view: View, p: Placed)
    requires p in PlaceSite(LayoutSite(site, devices, view, startX), region, view.levels)
    ensures OfSite(p, region, site, devices, view)
  {
    if !IsSite(p, region, site, view) {
      var own := DevicesOf(devices, site.name);
      DevicesOfSite(devices, site.name);
      var d := PlacedOfSomeDevice(own, view, startX + SITE_PADDING, region, site, p);
    }
  }

  lemma SiteIsPlaced(site: Site, startX: real, region: string, devices: seq<Device>, view: View) returns (p: Placed)
    requires view.levels.site
    ensures p in PlaceSite(LayoutSite(site, devices, view, startX), region, view.levels)
        && IsSite(p, region, site, view)
  {
    p := PlaceSite(LayoutSite(site, devices, view, startX), region, view.levels)[0];
  }

  lemma ShownDeviceIsPlaced(site: Site, startX: real, region: string, devices: seq<Device>, view: View, device: Device)
    returns (cursor: real)
    requires device in devices && Shows(site, device, view)
    ensures forall p :: p in PlaceDevice(LayoutDevice(device, view), cursor, site.id, Parent(region, site, view),
                                         view.levels)
              ==> p in PlaceSite(LayoutSite(site, devices, view, startX), region, view.levels)
  {
    var own := DevicesOf(devices, site.name);
    DevicesOfSite(devices, site.name);
    cursor := EveryDeviceIsPlaced(own, view, startX + SITE_PADDING, site.id, Parent(region, site, view), device);
  }

  // ---------------------------------------------------------------- the whole graph

  lemma {:induction false} PlacedOfSomeSite(sites: seq<Site>, devices: seq<Device>, view: View, region: string,
                                            p: Placed)
    returns (s: Site)
    requires p in PlaceSites(LayoutSites(sites, devices, view), region, view.levels)
    ensures s in sites && OfSite(p, region, s, devices, view)
  {
    var front, last := sites[..|sites| - 1], sites[|sites| - 1];
    var before, startX := LayoutSites(front, devices, view), CursorX(front, devices, view);
    var layouts := LayoutSites(sites, devices, view);
    assert layouts == before + [LayoutSite(last, devices, view, startX)] && layouts[..|layouts| - 1] == before;
    if p in PlaceSites(before, region, view.levels) {
      s := PlacedOfSomeSite(front, devices, view, region, p);
    } else {
      s := last;
      PlacedOfSite(last, startX, region, devices, view, p);
    }
  }

  /** Every site of the list is placed somewhere. */
  lemma {:induction false} EverySiteIsPlaced(sites: seq<Site>, devices: seq<Device>, view: View, region: string,
                                             site: Site)
    returns (startX: real)
    requires site in sites
    ensures forall p :: p in PlaceSite(LayoutSite(site, devices, view, startX), region, view.levels) ==>
              p in PlaceSites(LayoutSites(sites, devices, view), region, view.levels)
  {
    var front, last := sites[..|sites| - 1], sites[|sites| - 1];
    var before, layouts := LayoutSites(front, devices, view), LayoutSites(sites, devices, view);
    assert layouts == before + [LayoutSite(last, devices, view, CursorX(front, devices, view))];
    assert layouts[..|layouts| - 1] == before;
    if site == last {
      startX := CursorX(front, devices, view);
    } else {
      startX := EverySiteIsPlaced(front, devices, view, region, site);
    }
  }

  ghost predicate SiteDrawn(ps: seq<Placed>, region: string, site: Site, view: View) {
    exists p :: p in ps && IsSite(p, region, site, view)
  }

  ghost predicate DeviceDrawn(ps: seq<Placed>, region: string, site: Site, device: Device, view: View) {
    exists p :: p in ps && IsDevice(p, region, site, device, view)
  }

  ghost predicate InterfaceDrawn(ps: seq<Placed>, site: Site, device: Device, interface: int, view: View) {
    exists p :: p in ps && IsInterface(p, site, device, interface, view)
  }

  /** Every node below the region is that of a site, of a shown device or of a shown interface. */
  lemma NothingElseIsDrawn(region: string, sites: seq<Site>, devices: seq<Device>, view: View, i: nat)
    requires i < |Placement(region, sites, devices, view)|
    ensures
      var p := Placement(region, sites, devices, view)[i];
      if i == 0 then p.node.id == RegionId(region) && p.node.y == REGION_LINE && p.link.None? && p.node.siteId.None?
      else exists s :: s in sites && OfSite(p, region, s, devices, view)
  {
    var ps := Placement(region, sites, devices, view);
    if i > 0 {
      assert ps[i] in ps[1..];
      var s := PlacedOfSomeSite(sites, devices, view, region, ps[i]);
    }
  }

  /** Every site is drawn if the level is on, every device of an opened site, and every interface of an
      opened device, each on its line and linked to what it belongs to. */
  lemma EverythingIsDrawn(region: string, sites: seq<Site>, devices: seq<Device>, view: View, site: Site,
                          device: Device,
                          interface: int)
    requires site in sites
    ensures
      var ps := Placement(region, sites, devices, view);
      && (view.levels.site ==> SiteDrawn(ps, region, site, view))
      && (device in devices && Shows(site, device, view) ==> DeviceDrawn(ps, region, site, device, view))
      && (device in devices && Shows(site, device, view) && ShowsInterface(device, interface, view) ==>
            InterfaceDrawn(ps, site, device, interface, view))
  {
    var ps := Placement(region, sites, devices, view);
    var startX := EverySiteIsPlaced(sites, devices, view, region, site);
    forall p | p in PlaceSite(LayoutSite(site, devices, view, startX), region, view.levels) ensures p in ps {
    }
    if view.levels.site {
      var p := SiteIsPlaced(site, startX, region, devices, view);
    }
    if device in devices && Shows(site, device, view) {
      var cursor := ShownDeviceIsPlaced(site, startX, region, devices, view, device);
      PlacedDevice(device, view, cursor, region, site);
    }
  }
}
