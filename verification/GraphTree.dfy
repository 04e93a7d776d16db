/** The links of the inventory graph (buildGraph of frontend/src/lib/graphModel.ts) form a tree. */
module GraphTree {
  import opened Wrappers
  import opened GraphLayout
  import opened GraphGeometry

  // ---------------------------------------------------------------- one link each

  ghost function Ids(ps: seq<Placed>): set<NodeId> {
    if ps == [] then {} else Ids(ps[..|ps| - 1]) + {ps[|ps| - 1].node.id}
  }

  /** Every node is linked to exactly once, from one that is already there. */
  ghost predicate Hangs(ps: seq<Placed>, known: set<NodeId>) {
    if ps == [] then true
    else
      var earlier, p := ps[..|ps| - 1], ps[|ps| - 1];
      Hangs(earlier, known) && p.link.Some? && p.link.value.to == p.node.id && p.link.value.from in known + Ids(earlier)
  }

  lemma OneHangs(p: Placed, known: set<NodeId>)
    ensures Ids([p]) == {p.node.id}
    ensures p.link.Some? && p.link.value.to == p.node.id && p.link.value.from in known ==> Hangs([p], known)
  {
    assert [p][..0] == [];
    assert Ids([]) == {} && Hangs([], known);
  }

  lemma {:induction false} HangsConcat(a: seq<Placed>, b: seq<Placed>, known: set<NodeId>)
    requires Hangs(a, known) && Hangs(b, known + Ids(a))
    ensures Hangs(a + b, known) && Ids(a + b) == Ids(a) + Ids(b)
  {
    if b == [] {
      assert a + b == a;
    } else {
      HangsConcat(a, b[..|b| - 1], known);
      assert (a + b)[..|a + b| - 1] == a + b[..|b| - 1];
    }
  }

  lemma {:induction false} HangsMore(ps: seq<Placed>, known: set<NodeId>, more: set<NodeId>)
    requires Hangs(ps, known) && known <= more
    ensures Hangs(ps, more)
  {
    if ps != [] {
      HangsMore(ps[..|ps| - 1], known, more);
    }
  }

  lemma {:induction false} InterfacesHang(d: DeviceLayout, deviceX: real, siteId: int, count: nat, known: set<NodeId>)
    requires count <= |d.interfaces| && DeviceId(d.deviceId) in known
    ensures Hangs(PlaceInterfaces(d, deviceX, siteId, count), known)
  {
    if count > 0 {
      InterfacesHang(d, deviceX, siteId, count - 1, known);
      var ps := PlaceInterfaces(d, deviceX, siteId, count);
      assert ps[..|ps| - 1] == PlaceInterfaces(d, deviceX, siteId, count - 1);
    }
  }

  lemma DeviceHangs(d: DeviceLayout, cursor: real, siteId: int, parent: NodeId, levels: Levels, known: set<NodeId>)
    requires parent in known
    ensures Hangs(PlaceDevice(d, cursor, siteId, parent, levels), known)
  {
    var deviceX := cursor + d.blockWidth / 2.0;
    var first := Placed(Node(DeviceId(d.deviceId), deviceX, 505.0, Some(siteId)),
                        Some(Link(parent, DeviceId(d.deviceId), siteId)));
    if d.open && levels.interface {
      var grid := PlaceInterfaces(d, deviceX, siteId, |d.interfaces|);
      InterfacesHang(d, deviceX, siteId, |d.interfaces|, known + Ids([first]));
      HangsConcat([first], grid, known);
      assert PlaceDevice(d, cursor, siteId, parent, levels) == [first] + grid;
    } else {
      assert PlaceDevice(d, cursor, siteId, parent, levels) == [first];
    }
  }

  lemma {:induction false} DevicesHang(ds: seq<DeviceLayout>, start: real, siteId: int, parent: NodeId, levels: Levels,
                                       known: set<NodeId>)
    requires parent in known
    ensures Hangs(PlaceDevices(ds, start, siteId, parent, levels), known)
  {
    if ds != [] {
      var earlier := ds[..|ds| - 1];
      var a := PlaceDevices(earlier, start, siteId, parent, levels);
      DevicesHang(earlier, start, siteId, parent, levels, known);
      DeviceHangs(ds[|ds| - 1], DeviceCursor(earlier, start), siteId, parent, levels, known + Ids(a));
      HangsConcat(a, PlaceDevice(ds[|ds| - 1], DeviceCursor(earlier, start), siteId, parent, levels), known);
    }
  }

  lemma SiteHangs(l: SiteLayout, region: string, levels: Levels, known: set<NodeId>)
    requires RegionId(region) in known
    ensures Hangs(PlaceSite(l, region, levels), known)
  {
    var node := Placed(Node(SiteId(l.site.id), l.centerX, 285.0, Some(l.site.id)),
                       Some(Link(RegionId(region), SiteId(l.site.id), l.site.id)));
    var first := if levels.site then [node] else [];
    var parent := if levels.site then SiteId(l.site.id) else RegionId(region);
    OneHangs(node, known);
    assert Hangs(first, known);
    if l.open && levels.device {
      DevicesHang(l.devices, l.startX + SITE_PADDING, l.site.id, parent, levels, known + Ids(first));
      HangsConcat(first, PlaceDevices(l.devices, l.startX + SITE_PADDING, l.site.id, parent, levels), known);
    } else {
      assert first + [] == first;
    }
  }

  lemma {:induction false} SitesHang(layouts: seq<SiteLayout>, region: string, levels: Levels)
    ensures Hangs(PlaceSites(layouts, region, levels), {RegionId(region)})
  {
    if layouts != [] {
      var earlier := layouts[..|layouts| - 1];
      var a := PlaceSites(earlier, region, levels);
      SitesHang(earlier, region, levels);
      SiteHangs(layouts[|layouts| - 1], region, levels, {RegionId(region)} + Ids(a));
      HangsConcat(a, PlaceSite(layouts[|layouts| - 1], region, levels), {RegionId(region)});
    }
  }

  lemma {:induction false} HangingAreLinked(ps: seq<Placed>, known: set<NodeId>)
    requires Hangs(ps, known)
    ensures |Links(ps)| == |Nodes(ps)| == |ps|
    ensures forall i :: 0 <= i < |ps| ==> ps[i].link == Some(Links(ps)[i]) && ps[i].node == Nodes(ps)[i]
  {
    if ps != [] {
      HangingAreLinked(ps[..|ps| - 1], known);
    }
  }

  // ---------------------------------------------------------------- distinct ids

  ghost predicate NoRepeats(ids: seq<int>) {
    forall i, j :: 0 <= i < j < |ids| ==> ids[i] != ids[j]
  }

  ghost predicate DistinctDevices(devices: seq<Device>) {
    forall i, j :: 0 <= i < j < |devices| ==> devices[i].id != devices[j].id
  }

  ghost predicate DistinctSites(sites: seq<Site>) {
    forall i, j :: 0 <= i < j < |sites| ==> sites[i].id != sites[j].id && sites[i].name != sites[j].name
  }

  /** Every interface is listed once, for one device. */
  ghost predicate DistinctInterfaces(byDevice: map<int, seq<int>>) {
    && (forall d :: d in byDevice ==> NoRepeats(byDevice[d]))
    && (forall d, e, k :: d in byDevice && e in byDevice && k in byDevice[d] && k in byDevice[e] ==> d == e)
  }

  ghost predicate Distinct(sites: seq<Site>, devices: seq<Device>, view: View) {
    DistinctSites(sites) && DistinctDevices(devices) && DistinctInterfaces(view.interfacesByDevice)
  }

  ghost predicate Unique(ps: seq<Placed>) {
    forall i, j :: 0 <= i < j < |ps| ==> ps[i].node.id != ps[j].node.id
  }

  ghost predicate Apart(a: seq<Placed>, b: seq<Placed>) {
    forall p, q :: p in a && q in b ==> p.node.id != q.node.id
  }

  lemma UniqueConcat(a: seq<Placed>, b: seq<Placed>)
    requires Unique(a) && Unique(b) && Apart(a, b)
    ensures Unique(a + b)
  {
    var ps := a + b;
    forall i, j | 0 <= i < j < |ps| ensures ps[i].node.id != ps[j].node.id {
      if i < |a| <= j {
        assert ps[i] in a && ps[j] in b;
      }
    }
  }

  /** The node of a device or of one of its interfaces. */
  ghost predicate OfDevice(id: NodeId, device: int, view: View) {
    || id == DeviceId(device)
    || (id.InterfaceId? && device in view.interfacesByDevice && id.id in view.interfacesByDevice[device])
  }

  /** The device's interfaces are those of the view, or none. */
  ghost predicate FromView(d: DeviceLayout, view: View) {
    d.interfaces == [] || (d.deviceId in view.interfacesByDevice && d.interfaces == view.interfacesByDevice[d.deviceId])
  }

  lemma {:induction false} InterfaceIds(d: DeviceLayout, deviceX: real, siteId: int, count: nat)
    requires count <= |d.interfaces|
    ensures |PlaceInterfaces(d, deviceX, siteId, count)| == count
    ensures forall k :: 0 <= k < count ==>
              PlaceInterfaces(d, deviceX, siteId, count)[k].node.id == InterfaceId(d.interfaces[k])
  {
    if count > 0 {
      InterfaceIds(d, deviceX, siteId, count - 1);
    }
  }

  lemma DeviceIsUnique(d: DeviceLayout, cursor: real, siteId: int, parent: NodeId, levels: Levels, view: View)
    requires FromView(d, view) && DistinctInterfaces(view.interfacesByDevice)
    ensures Unique(PlaceDevice(d, cursor, siteId, parent, levels))
    ensures forall p :: p in PlaceDevice(d, cursor, siteId, parent, levels) ==> OfDevice(p.node.id, d.deviceId, view)
  {
    InterfaceIds(d, cursor + d.blockWidth / 2.0, siteId, |d.interfaces|);
    var ps := PlaceDevice(d, cursor, siteId, parent, levels);
    forall i | 1 <= i < |ps| ensures ps[i].node.id == InterfaceId(d.interfaces[i - 1]) {
    }
  }

  ghost predicate DistinctLayouts(ds: seq<DeviceLayout>, view: View) {
    && (forall i :: 0 <= i < |ds| ==> FromView(ds[i], view))
    && (forall i, j :: 0 <= i < j < |ds| ==> ds[i].deviceId != ds[j].deviceId)
  }

  /** The node of one of the devices, or of one of their interfaces. */
  ghost predicate OfSome(id: NodeId, ds: seq<DeviceLayout>, view: View) {
    exists i :: 0 <= i < |ds| && OfDevice(id, ds[i].deviceId, view)
  }

  lemma DevicesAreApart(a: seq<Placed>, ds: seq<DeviceLayout>, b: seq<Placed>, device: int, view: View)
    requires DistinctInterfaces(view.interfacesByDevice)
    requires forall p :: p in a ==> OfSome(p.node.id, ds, view)
    requires forall q :: q in b ==> OfDevice(q.node.id, device, view)
    requires forall i :: 0 <= i < |ds| ==> ds[i].deviceId != device
    ensures Apart(a, b)
  {
  }

  lemma {:induction false} DevicesAreUnique(ds: seq<DeviceLayout>, start: real, siteId: int, parent: NodeId,
                                            levels: Levels, view: View)
    requires DistinctLayouts(ds, view) && DistinctInterfaces(view.interfacesByDevice)
    ensures Unique(PlaceDevices(ds, start, siteId, parent, levels))
    ensures forall p :: p in PlaceDevices(ds, start, siteId, parent, levels) ==> OfSome(p.node.id, ds, view)
  {
    if ds != [] {
      var earlier, d := ds[..|ds| - 1], ds[|ds| - 1];
      var a := PlaceDevices(earlier, start, siteId, parent, levels);
      var b := PlaceDevice(d, DeviceCursor(earlier, start), siteId, parent, levels);
      DevicesAreUnique(earlier, start, siteId, parent, levels, view);
      DeviceIsUnique(d, DeviceCursor(earlier, start), siteId, parent, levels, view);
      DevicesAreApart(a, earlier, b, d.deviceId, view);
      UniqueConcat(a, b);
      forall p: Placed | p in a + b ensures OfSome(p.node.id, ds, view) {
        if p in a {
          var i :| 0 <= i < |earlier| && OfDevice(p.node.id, earlier[i].deviceId, view);
          assert OfDevice(p.node.id, ds[i].deviceId, view);
        } else {
          assert OfDevice(p.node.id, ds[|ds| - 1].deviceId, view);
        }
      }
    }
  }

  lemma {:induction false} LayoutsFollowDevices(devices: seq<Device>, view: View)
    ensures |LayoutDevices(devices, view)| == |devices|
    ensures forall i :: 0 <= i < |devices| ==>
              LayoutDevices(devices, view)[i].deviceId == devices[i].id
                  && FromView(LayoutDevices(devices, view)[i], view)
  {
    if devices != [] {
      LayoutsFollowDevices(devices[..|devices| - 1], view);
    }
  }

  lemma {:induction false} SiteDevicesAreDistinct(devices: seq<Device>, site: string)
    requires DistinctDevices(devices)
    ensures DistinctDevices(DevicesOf(devices, site))
    ensures forall d: Device :: d in DevicesOf(devices, site) ==> d in devices && d.site == site
  {
    if devices != [] {
      var earlier, last := devices[..|devices| - 1], devices[|devices| - 1];
      SiteDevicesAreDistinct(earlier, site);
      var kept := DevicesOf(earlier, site);
      forall i | 0 <= i < |kept| ensures kept[i].id != last.id {
        assert kept[i] in earlier;
      }
    }
  }

  /** The node of a site, of one of its devices, or of one of their interfaces. */
  ghost predicate OfSite(id: NodeId, site: Site, devices: seq<Device>, view: View) {
    id == SiteId(site.id) || exists d: Device :: d in devices && d.site == site.name && OfDevice(id, d.id, view)
  }

  lemma SiteDevicesAreLaidOut(site: Site, devices: seq<Device>, view: View, ds: seq<DeviceLayout>)
    requires DistinctDevices(devices) && ds == SiteDevices(site, devices, view)
    ensures DistinctLayouts(ds, view)
    ensures forall id :: OfSome(id, ds, view) ==> OfSite(id, site, devices, view)
  {
    var own := DevicesOf(devices, site.name);
    SiteDevicesAreDistinct(devices, site.name);
    LayoutsFollowDevices(own, view);
    forall id | OfSome(id, ds, view) ensures OfSite(id, site, devices, view) {
      var i :| 0 <= i < |ds| && OfDevice(id, ds[i].deviceId, view);
      assert own[i] in own && own[i].site == site.name;
    }
  }

  lemma SiteIsUnique(l: SiteLayout, devices: seq<Device>, view: View, region: string, levels: Levels)
    requires DistinctDevices(devices) && DistinctInterfaces(view.interfacesByDevice)
        && l.devices == SiteDevices(l.site, devices, view)
    ensures Unique(PlaceSite(l, region, levels))
    ensures forall p :: p in PlaceSite(l, region, levels) ==> OfSite(p.node.id, l.site, devices, view)
  {
    var parent := if levels.site then SiteId(l.site.id) else RegionId(region);
    SiteDevicesAreLaidOut(l.site, devices, view, l.devices);
    DevicesAreUnique(l.devices, l.startX + SITE_PADDING, l.site.id, parent, levels, view);
    var inner := PlaceDevices(l.devices, l.startX + SITE_PADDING, l.site.id, parent, levels);
    forall p | p in inner ensures p.node.id.DeviceId? || p.node.id.InterfaceId? {
      assert OfSome(p.node.id, l.devices, view);
    }
  }

  lemma SitesOwnApart(a: Site, b: Site, devices: seq<Device>, view: View, id: NodeId)
    requires a.id != b.id && a.name != b.name && DistinctDevices(devices) && DistinctInterfaces(view.interfacesByDevice)
    requires OfSite(id, a, devices, view)
    ensures !OfSite(id, b, devices, view)
  {
  }

  ghost predicate OfSites(id: NodeId, sites: seq<Site>, devices: seq<Device>, view: View) {
    exists i :: 0 <= i < |sites| && OfSite(id, sites[i], devices, view)
  }

  lemma {:induction false} SitesAreUnique(sites: seq<Site>, devices: seq<Device>, view: View, region: string)
    requires Distinct(sites, devices, view)
    ensures Unique(PlaceSites(LayoutSites(sites, devices, view), region, view.levels))
    ensures forall p :: p in PlaceSites(LayoutSites(sites, devices, view), region, view.levels) ==>
              OfSites(p.node.id, sites, devices, view)
  {
    if sites != [] {
      var earlier, site := sites[..|sites| - 1], sites[|sites| - 1];
      var l := LayoutSite(site, devices, view, CursorX(earlier, devices, view));
      var before, layouts := LayoutSites(earlier, devices, view), LayoutSites(sites, devices, view);
      assert layouts == before + [l] && layouts[..|layouts| - 1] == before;
      SitesAreUnique(earlier, devices, view, region);
      SiteIsUnique(l, devices, view, region, view.levels);
      NextSiteIsUnique(PlaceSites(before, region, view.levels), PlaceSite(l, region, view.levels), sites, devices,
                       view);
    }
  }

  lemma NextSiteIsUnique(a: seq<Placed>, b: seq<Placed>, sites: seq<Site>, devices: seq<Device>, view: View)
    requires sites != [] && Distinct(sites, devices, view) && Unique(a) && Unique(b)
    requires forall p :: p in a ==> OfSites(p.node.id, sites[..|sites| - 1], devices, view)
    requires forall q :: q in b ==> OfSite(q.node.id, sites[|sites| - 1], devices, view)
    ensures Unique(a + b) && forall p :: p in a + b ==> OfSites(p.node.id, sites, devices, view)
  {
    var n := |sites| - 1;
    forall p | p in a ensures OfSites(p.node.id, sites, devices, view) && !OfSite(p.node.id, sites[n], devices, view) {
      var i :| 0 <= i < n && OfSite(p.node.id, sites[..n][i], devices, view);
      assert OfSite(p.node.id, sites[i], devices, view);
      SitesOwnApart(sites[i], sites[n], devices, view, p.node.id);
    }
    UniqueConcat(a, b);
  }

  lemma PlacementIsUnique(region: string, sites: seq<Site>, devices: seq<Device>, view: View)
    requires Distinct(sites, devices, view)
    ensures Unique(Placement(region, sites, devices, view))
  {
    var rest := PlaceSites(LayoutSites(sites, devices, view), region, view.levels);
    var root := Placement(region, sites, devices, view)[0];
    SitesAreUnique(sites, devices, view, region);
    forall p | p in rest ensures !p.node.id.RegionId? {
      assert OfSites(p.node.id, sites, devices, view);
    }
    assert Apart([root], rest);
    UniqueConcat([root], rest);
  }

  /** The links form a tree below the region: every other node has exactly one, from a node drawn
      before it, and for distinct inputs no two nodes have one id. */
  lemma LinksFormATree(region: string, sites: seq<Site>, devices: seq<Device>, view: View)
    ensures Distinct(sites, devices, view) ==> Unique(Placement(region, sites, devices, view))
    ensures
      var ps := Placement(region, sites, devices, view);
      && ps[0].link.None? && ps[0].node.id == RegionId(region)
      && Hangs(ps[1..], {RegionId(region)})
      && |Links(ps)| == |Nodes(ps)| - 1
  {
    var ps := Placement(region, sites, devices, view);
    var rest := PlaceSites(LayoutSites(sites, devices, view), region, view.levels);
    assert ps[1..] == rest;
    SitesHang(LayoutSites(sites, devices, view), region, view.levels);
    HangingAreLinked(rest, {RegionId(region)});
    assert [ps[0]][..0] == [];
    assert Nodes([]) == [] && Links([]) == [];
    NodesConcat([ps[0]], rest);
    if Distinct(sites, devices, view) {
      PlacementIsUnique(region, sites, devices, view);
    }
  }
}
