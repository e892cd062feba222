/** What the order of the listed slices means for the groups: only the zone labels and the order inside a group. */
module SliceOrder {
  import opened Common
  import opened Spec
  import opened Endpoints

  // ---- grouping, slice by slice ----

  /** The ready endpoints of one slice, with the port wanted of it. */
  function DataOf(want: PortRef): EndpointSlice -> seq<EndpointData> {
    (s: EndpointSlice) =>
      match LookupPort(want, s.ports)
      case None => []
      case Some(port) => ReadyData(port, s.endpoints)
  }

  function Kept(zone: string, hinted: bool): EndpointData -> seq<EndpointData> {
    (d: EndpointData) => if Hinted(d.endpoint, zone) == hinted then [d] else []
  }

  lemma {:induction false} AllReadyIsFlatMap(want: PortRef, slices: seq<EndpointSlice>)
    requires PortsKnown(want, slices)
    ensures AllReady(want, slices) == FlatMap(slices, DataOf(want))
  {
    hide LookupPort;
    hide ReadyData;
    if slices != [] {
      var rest, last := slices[..|slices| - 1], slices[|slices| - 1];
      AllReadyIsFlatMap(want, rest);
      FlatMapAppend(rest, [last], DataOf(want));
      FlatMapOne(last, DataOf(want));
      assert slices == rest + [last];
    }
  }

  lemma {:induction false} LbAllIsFlatMap(data: seq<EndpointData>)
    ensures LbAll(data) == FlatMap(data, Lb)
  {
    hide Lb;
    if data != [] {
      var rest, last := data[..|data| - 1], data[|data| - 1];
      LbAllIsFlatMap(rest);
      FlatMapAppend(rest, [last], Lb);
      FlatMapOne(last, Lb);
      assert data == rest + [last];
    }
  }

  lemma {:induction false} PartIsFlatMap(data: seq<EndpointData>, zone: string, hinted: bool)
    ensures Part(data, zone, hinted) == FlatMap(data, Kept(zone, hinted))
  {
    hide Hinted;
    if data != [] {
      var rest, last := data[..|data| - 1], data[|data| - 1];
      PartIsFlatMap(rest, zone, hinted);
      FlatMapAppend(rest, [last], Kept(zone, hinted));
      FlatMapOne(last, Kept(zone, hinted));
      assert data == rest + [last];
    }
  }

  // ---- reordering ----

  lemma SamePorts(want: PortRef, a: seq<EndpointSlice>, b: seq<EndpointSlice>)
    requires multiset(a) == multiset(b) && PortsKnown(want, a)
    ensures PortsKnown(want, b)
  {
    hide LookupPort;
    SameElements(b, a);
    forall i | 0 <= i < |b| ensures LookupPort(want, b[i].ports).Some? {
      assert b[i] in b && b[i] in a;
    }
  }

  lemma PartPermutes(a: seq<EndpointData>, b: seq<EndpointData>, zone: string, hinted: bool)
    requires multiset(a) == multiset(b)
    ensures var pa, pb := Part(a, zone, hinted), Part(b, zone, hinted);
            (pa == [] <==> pb == []) && multiset(LbAll(pa)) == multiset(LbAll(pb))
  {
    var pa, pb := Part(a, zone, hinted), Part(b, zone, hinted);
    PartIsFlatMap(a, zone, hinted);
    PartIsFlatMap(b, zone, hinted);
    FlatMapPermutes(a, b, Kept(zone, hinted));
    SameElements(pa, pb);
    FlatMapPermutes(pa, pb, Lb);
    LbAllIsFlatMap(pa);
    LbAllIsFlatMap(pb);
  }

  /** Equal but for the zone label and the order of the endpoints. */
  predicate SameGroup(g: LocalityLbEndpoints, h: LocalityLbEndpoints) {
    && g.subZone == h.subZone && g.weight == h.weight && g.priority == h.priority
    && multiset(g.endpoints) == multiset(h.endpoints)
  }

  lemma SamePriorityGroup(svc: ServiceRef, a: seq<EndpointData>, b: seq<EndpointData>, priority: uint32)
    requires (a == [] <==> b == []) && multiset(LbAll(a)) == multiset(LbAll(b))
    ensures var ga, gb := PriorityGroup(svc, a, priority), PriorityGroup(svc, b, priority);
            |ga| == |gb| && forall k :: 0 <= k < |ga| ==> SameGroup(ga[k], gb[k])
  {
    hide LbAll;
    hide SubZone;
    hide GroupZone;
  }

  lemma GroupedIs(zone: string, svc: ServiceRef, slices: seq<EndpointSlice>)
    requires PortsKnown(svc.port, slices)
    ensures ServiceEndpoints(zone, svc, slices) == Ok(Grouped(zone, svc, AllReady(svc.port, slices)))
  {
    hide PortsKnown;
  }

  lemma SameGroups(zone: string, svc: ServiceRef, a: seq<EndpointData>, b: seq<EndpointData>)
    requires multiset(a) == multiset(b)
    ensures var ga, gb := Grouped(zone, svc, a), Grouped(zone, svc, b);
            |ga| == |gb| && forall k :: 0 <= k < |ga| ==> SameGroup(ga[k], gb[k])
  {
    PartPermutes(a, b, zone, true);
    PartPermutes(a, b, zone, false);
    SamePriorityGroup(svc, Part(a, zone, true), Part(b, zone, true), 0);
    SamePriorityGroup(svc, Part(a, zone, false), Part(b, zone, false), if Part(a, zone, true) == [] then 0 else 1);
    hide Part;
    hide PriorityGroup;
    hide SameGroup;
    hide LbAll;
  }

  /**
   * Whatever order the slices are listed in, grouping fails or succeeds alike, with the same groups but for
   * their zone labels and the order of their endpoints; and the flat form has the same endpoints.
   */
  lemma OrderKeepsGroups(zone: string, svc: ServiceRef, a: seq<EndpointSlice>, b: seq<EndpointSlice>)
    requires multiset(a) == multiset(b)
    ensures PortsKnown(svc.port, a) <==> PortsKnown(svc.port, b)
    ensures PortsKnown(svc.port, a) ==>
              var ga, gb := ServiceEndpoints(zone, svc, a).value, ServiceEndpoints(zone, svc, b).value;
              && |ga| == |gb| && (forall k :: 0 <= k < |ga| ==> SameGroup(ga[k], gb[k]))
              && multiset(LbAll(AllReady(svc.port, a))) == multiset(LbAll(AllReady(svc.port, b)))
  {
    if PortsKnown(svc.port, a) {
      SamePorts(svc.port, a, b);
      var da, db := AllReady(svc.port, a), AllReady(svc.port, b);
      AllReadyIsFlatMap(svc.port, a);
      AllReadyIsFlatMap(svc.port, b);
      FlatMapPermutes(a, b, DataOf(svc.port));
      LbAllIsFlatMap(da);
      LbAllIsFlatMap(db);
      FlatMapPermutes(da, db, Lb);
      hide *;
      SameGroups(zone, svc, da, db);
      GroupedIs(zone, svc, a);
      GroupedIs(zone, svc, b);
    } else if PortsKnown(svc.port, b) {
      SamePorts(svc.port, b, a);
    }
  }

  /**
   * The zone label does depend on the order: with one ready endpoint in each of two slices, neither hinted for the
   * caller, the group takes the zone of the slice listed first.
   */
  lemma OrderDecidesZone(zone: string, svc: ServiceRef, x: EndpointSlice, y: EndpointSlice, dx: EndpointData, dy: EndpointData)
    requires LookupPort(svc.port, x.ports).Some? && LookupPort(svc.port, y.ports).Some?
    requires DataOf(svc.port)(x) == [dx] && DataOf(svc.port)(y) == [dy]
    requires !Hinted(dx.endpoint, zone) && !Hinted(dy.endpoint, zone)
    requires dx.endpoint.zone.Some? && dx.endpoint.zone.value != ""
    ensures PortsKnown(svc.port, [x, y])
    ensures var groups := ServiceEndpoints(zone, svc, [x, y]).value;
            |groups| == 1 && groups[0].zone == dx.endpoint.zone.value
  {
    hide LookupPort;
    hide Hinted;
    var slices, data := [x, y], [dx, dy];
    assert slices == [x] + [y] && data == [dx] + [dy];
    AllReadyIsFlatMap(svc.port, slices);
    FlatMapAppend([x], [y], DataOf(svc.port));
    FlatMapOne(x, DataOf(svc.port));
    FlatMapOne(y, DataOf(svc.port));
    assert AllReady(svc.port, slices) == data;
    hide AllReady;
    OnlyOthers(data, zone, true);
    OnlyOthers(data, zone, false);
    GroupStep([], dx);
    GroupStep([dx], dy);
    assert [] + [dx] == [dx];
    hide GroupZone;
    hide Part;
    hide LbAll;
    hide SubZone;
  }

  lemma OnlyOthers(data: seq<EndpointData>, zone: string, hinted: bool)
    requires |data| == 2 && !Hinted(data[0].endpoint, zone) && !Hinted(data[1].endpoint, zone)
    ensures Part(data, zone, hinted) == if hinted then [] else data
  {
    hide Hinted;
    PartIsFlatMap(data, zone, hinted);
    assert data == [data[0]] + [data[1]];
    FlatMapAppend([data[0]], [data[1]], Kept(zone, hinted));
    FlatMapOne(data[0], Kept(zone, hinted));
    FlatMapOne(data[1], Kept(zone, hinted));
  }
}
