/** Load assignments, described from the stored slices, the node and the spec alone. */
module Served {
  import opened Common
  import opened Text
  import opened Names
  import opened Spec
  import opened Endpoints
  import opened SliceOrder
  import opened Places
  import opened Resolver
  import opened Notify

  // ---- which slices and endpoints ----

  /** The slices of a service: by label, in the service's namespace or else in the listener's. */
  function OfService(namespace: string, svc: ServiceRef): EndpointSlice -> bool {
    (s: EndpointSlice) =>
      && s.serviceName == Some(svc.name)
      && (svc.namespace != "" ==> s.namespace == svc.namespace)
      && (svc.namespace == "" ==> s.namespace == namespace)
  }

  lemma SelectIsOfService(listener: Listener, svc: ServiceRef, slices: seq<EndpointSlice>)
    ensures Select(slices, ServiceQuery(listener, svc)) == Filter(slices, OfService(listener.namespace, svc))
  {
    SelectIsFilter(slices, ServiceQuery(listener, svc), OfService(listener.namespace, svc));
  }

  /** The topology hints of the endpoint name the zone. */
  predicate HintsName(ep: Endpoint, zone: string) {
    ep.hints.Some? && exists i :: 0 <= i < |ep.hints.value| && SameText(ep.hints.value[i], zone)
  }

  lemma FoldIsSameText(a: string, b: string)
    ensures EqualFold(a, b) <==> SameText(a, b)
  {
    assert |FoldCase(a)| == |a| && |FoldCase(b)| == |b|;
    if EqualFold(a, b) {
      forall i | 0 <= i < |a| ensures SameButCase(a[i], b[i]) {
        assert FoldCase(a)[i] == FoldCase(b)[i];
      }
    }
    if SameText(a, b) {
      assert forall i :: 0 <= i < |a| ==> FoldCase(a)[i] == FoldCase(b)[i];
      assert FoldCase(a) == FoldCase(b);
    }
  }

  lemma HintedIsHintsName(ep: Endpoint, zone: string)
    ensures Hinted(ep, zone) <==> HintsName(ep, zone)
  {
    hide EqualFold;
    hide SameText;
    if ep.hints.Some? {
      forall i | 0 <= i < |ep.hints.value|
        ensures EqualFold(ep.hints.value[i], zone) <==> SameText(ep.hints.value[i], zone)
      {
        FoldIsSameText(ep.hints.value[i], zone);
      }
    }
  }

  /** Endpoints whose hints name the zone, or those whose hints do not. */
  function ByHint(zone: string, named: bool): Endpoint -> bool {
    (ep: Endpoint) => HintsName(ep, zone) == named
  }

  function Any(): Endpoint -> bool {
    (ep: Endpoint) => true
  }

  /** Some picked slice has a ready endpoint of this kind. */
  ghost predicate SomeReady(slices: seq<EndpointSlice>, pick: EndpointSlice -> bool, keep: Endpoint -> bool) {
    exists i, j :: 0 <= i < |slices| && pick(slices[i]) && 0 <= j < |slices[i].endpoints|
                   && slices[i].endpoints[j].ready == Some(true) && keep(slices[i].endpoints[j])
  }

  lemma PartIsSelected(data: seq<EndpointData>, zone: string, named: bool)
    ensures Part(data, zone, named) == FlatMap(data, Selected(ByHint(zone, named)))
  {
    PartIsFlatMap(data, zone, named);
    forall d ensures Kept(zone, named)(d) == Selected(ByHint(zone, named))(d) {
      HintedIsHintsName(d.endpoint, zone);
    }
    SameFlatMap(data, Kept(zone, named), Selected(ByHint(zone, named)));
  }

  lemma {:induction false} SameFlatMap<T(!new), U>(s: seq<T>, f: T -> seq<U>, g: T -> seq<U>)
    requires forall x :: f(x) == g(x)
    ensures FlatMap(s, f) == FlatMap(s, g)
  {
    if s != [] {
      SameFlatMap(s[1..], f, g);
    }
  }

  lemma {:induction false} AnyIsAll(data: seq<EndpointData>)
    ensures FlatMap(data, Selected(Any())) == data
  {
    if data != [] {
      AnyIsAll(data[1..]);
    }
  }

  // ---- emptiness of a group ----

  lemma {:induction false} FlatMapMember<T, U>(s: seq<T>, f: T -> seq<U>, u: U)
    ensures u in FlatMap(s, f) <==> exists i :: 0 <= i < |s| && u in f(s[i])
  {
    if s != [] {
      FlatMapMember(s[1..], f, u);
      if i :| 0 <= i < |s| && u in f(s[i]) {
        assert i > 0 ==> s[i] == s[1..][i - 1];
      }
      if i :| 0 <= i < |s[1..]| && u in f(s[1..][i]) {
        assert s[i + 1] == s[1..][i];
      }
    }
  }

  lemma {:induction false} ReadyDataHas(port: uint32, eps: seq<Endpoint>, d: EndpointData)
    ensures d in ReadyData(port, eps) <==>
            d.port == port && exists j :: 0 <= j < |eps| && eps[j] == d.endpoint && eps[j].ready == Some(true)
  {
    if eps != [] {
      var n := |eps| - 1;
      ReadyDataHas(port, eps[..n], d);
      if j :| 0 <= j < |eps| && eps[j] == d.endpoint && eps[j].ready == Some(true) {
        assert j < n ==> eps[..n][j] == eps[j];
      }
      if j :| 0 <= j < n && eps[..n][j] == d.endpoint && eps[..n][j].ready == Some(true) {
        assert eps[j] == eps[..n][j];
      }
    }
  }

  /** What is kept of all ready endpoints is empty exactly when there is none of this kind. */
  lemma KeptIsEmpty(want: PortRef, slices: seq<EndpointSlice>, pick: EndpointSlice -> bool, keep: Endpoint -> bool)
    requires PortsKnown(want, Filter(slices, pick))
    ensures FlatMap(AllReady(want, Filter(slices, pick)), Selected(keep)) == [] <==> !SomeReady(slices, pick, keep)
  {
    AllReadyIsFlatMap(want, Filter(slices, pick));
    hide *;
    if SomeReady(slices, pick, keep) {
      ReadyIsKept(want, slices, pick, keep);
    } else if FlatMap(AllReady(want, Filter(slices, pick)), Selected(keep)) != [] {
      KeptIsReady(want, slices, pick, keep);
    }
  }

  lemma ReadyIsKept(want: PortRef, slices: seq<EndpointSlice>, pick: EndpointSlice -> bool, keep: Endpoint -> bool)
    requires PortsKnown(want, Filter(slices, pick)) && SomeReady(slices, pick, keep)
    ensures FlatMap(FlatMap(Filter(slices, pick), DataOf(want)), Selected(keep)) != []
  {
    hide Filter;
    hide FlatMap;
    hide PortsKnown;
    hide DataOf;
    var i, j :| 0 <= i < |slices| && pick(slices[i]) && 0 <= j < |slices[i].endpoints|
                && slices[i].endpoints[j].ready == Some(true) && keep(slices[i].endpoints[j]);
    var data := FlatMap(Filter(slices, pick), DataOf(want));
    var d := ReadyIsData(want, slices, pick, i, j);
    var k :| 0 <= k < |data| && data[k] == d;
    assert d in Selected(keep)(data[k]);
    FlatMapMember(data, Selected(keep), d);
  }

  lemma KeptIsReady(want: PortRef, slices: seq<EndpointSlice>, pick: EndpointSlice -> bool, keep: Endpoint -> bool)
    requires FlatMap(FlatMap(Filter(slices, pick), DataOf(want)), Selected(keep)) != []
    ensures SomeReady(slices, pick, keep)
  {
    hide Filter;
    hide FlatMap;
    hide DataOf;
    var data := FlatMap(Filter(slices, pick), DataOf(want));
    var d := FlatMap(data, Selected(keep))[0];
    FlatMapMember(data, Selected(keep), d);
    var k :| 0 <= k < |data| && d in Selected(keep)(data[k]);
    assert data[k] in data && d == data[k];
    var i, j := DataIsReady(want, slices, pick, d);
  }

  lemma ReadyIsData(want: PortRef, slices: seq<EndpointSlice>, pick: EndpointSlice -> bool, i: nat, j: nat) returns (d: EndpointData)
    requires PortsKnown(want, Filter(slices, pick)) && i < |slices| && pick(slices[i]) && j < |slices[i].endpoints|
    requires slices[i].endpoints[j].ready == Some(true)
    ensures d in FlatMap(Filter(slices, pick), DataOf(want)) && d.endpoint == slices[i].endpoints[j]
  {
    var found := Filter(slices, pick);
    PickedPort(want, slices, i, pick);
    d := EndpointData(LookupPort(want, slices[i].ports).value, slices[i].endpoints[j]);
    ReadyDataHas(d.port, slices[i].endpoints, d);
    FilterMember(slices, pick, slices[i]);
    hide Filter;
    hide ReadyData;
    hide FirstOffer;
    var k :| 0 <= k < |found| && found[k] == slices[i];
    FlatMapMember(found, DataOf(want), d);
  }

  lemma DataIsReady(want: PortRef, slices: seq<EndpointSlice>, pick: EndpointSlice -> bool, d: EndpointData) returns (i: nat, j: nat)
    requires d in FlatMap(Filter(slices, pick), DataOf(want))
    ensures i < |slices| && pick(slices[i]) && j < |slices[i].endpoints|
    ensures slices[i].endpoints[j] == d.endpoint && d.endpoint.ready == Some(true)
  {
    var found := Filter(slices, pick);
    FlatMapMember(found, DataOf(want), d);
    var k :| 0 <= k < |found| && d in DataOf(want)(found[k]);
    FilterMember(slices, pick, found[k]);
    i :| 0 <= i < |slices| && slices[i] == found[k];
    ReadyDataHas(LookupPort(want, found[k].ports).value, found[k].endpoints, d);
    j :| 0 <= j < |slices[i].endpoints| && slices[i].endpoints[j] == d.endpoint && slices[i].endpoints[j].ready == Some(true);
  }

  // ---- a service ----

  /** One group: its endpoints, and the fields the source sets. */
  ghost predicate IsGroup(g: LocalityLbEndpoints, svc: ServiceRef, slices: seq<EndpointSlice>, pick: EndpointSlice -> bool,
                          keep: Endpoint -> bool, priority: int)
  {
    && g.priority as int == priority && g.weight == 1
    && g.subZone == svc.name + "-" + (if priority == 0 then "0" else "1")
    && ListsReady(svc.port, slices, pick, keep, g.endpoints)
  }

  /**
   * The groups of a service, from the slices and the caller's zone: first the ready endpoints whose hints name the
   * zone, if there are any, then the other ready ones; priorities count from 0 and weights are 1.
   */
  ghost predicate AreGroups(groups: seq<LocalityLbEndpoints>, svc: ServiceRef, zone: string, slices: seq<EndpointSlice>,
                            pick: EndpointSlice -> bool)
  {
    var here, elsewhere := SomeReady(slices, pick, ByHint(zone, true)), SomeReady(slices, pick, ByHint(zone, false));
    && |groups| == (if here then 1 else 0) + (if elsewhere then 1 else 0)
    && (here ==> IsGroup(groups[0], svc, slices, pick, ByHint(zone, true), 0))
    && (elsewhere ==>
          IsGroup(groups[|groups| - 1], svc, slices, pick, ByHint(zone, false), if here then 1 else 0))
  }

  lemma PriorityGroupIs(svc: ServiceRef, zone: string, slices: seq<EndpointSlice>, pick: EndpointSlice -> bool, named: bool, priority: uint32)
    requires PortsKnown(svc.port, Filter(slices, pick)) && priority <= 1
    ensures var part := Part(AllReady(svc.port, Filter(slices, pick)), zone, named);
            && (part == [] <==> !SomeReady(slices, pick, ByHint(zone, named)))
            && (part != [] ==>
                  |PriorityGroup(svc, part, priority)| == 1
                  && IsGroup(PriorityGroup(svc, part, priority)[0], svc, slices, pick, ByHint(zone, named), priority as int))
            && (part == [] ==> PriorityGroup(svc, part, priority) == [])
  {
    var data := AllReady(svc.port, Filter(slices, pick));
    PartIsSelected(data, zone, named);
    KeptIsEmpty(svc.port, slices, pick, ByHint(zone, named));
    ListedIsReady(svc.port, slices, pick, ByHint(zone, named));
    assert Itoa(0) == "0" && Itoa(1) == "1";
    hide ListsReady;
    hide SomeReady;
    hide Part;
    hide AllReady;
    hide GroupZone;
    hide Itoa;
    hide LbAll;
  }

  lemma ServiceGroupsAre(zone: string, svc: ServiceRef, slices: seq<EndpointSlice>, pick: EndpointSlice -> bool)
    requires PortsKnown(svc.port, Filter(slices, pick))
    ensures AreGroups(ServiceEndpoints(zone, svc, Filter(slices, pick)).value, svc, zone, slices, pick)
  {
    PriorityGroupIs(svc, zone, slices, pick, true, 0);
    PriorityGroupIs(svc, zone, slices, pick, false, 0);
    PriorityGroupIs(svc, zone, slices, pick, false, 1);
    hide IsGroup;
    hide SomeReady;
    hide Part;
    hide AllReady;
    hide PriorityGroup;
  }

  // ---- localities ----

  /** One locality: the fields copied from the spec, and all ready endpoints of its service. */
  ghost predicate IsLocality(g: LocalityLbEndpoints, loc: Locality, namespace: string, slices: seq<EndpointSlice>) {
    && g.weight == loc.weight && g.priority == loc.priority && g.zone == "" && g.subZone == loc.service.name
    && ListsReady(loc.service.port, slices, OfService(namespace, loc.service), Any(), g.endpoints)
  }

  lemma FlatLocalityIs(loc: Locality, namespace: string, slices: seq<EndpointSlice>)
    requires PortsKnown(loc.service.port, Filter(slices, OfService(namespace, loc.service)))
    ensures var r := FlatLocality(loc.service, Filter(slices, OfService(namespace, loc.service)), loc.weight, loc.priority);
            r.Ok? && IsLocality(r.value, loc, namespace, slices)
  {
    var pick := OfService(namespace, loc.service);
    AnyIsAll(AllReady(loc.service.port, Filter(slices, pick)));
    ListedIsReady(loc.service.port, slices, pick, Any());
    hide ListsReady;
    hide AllReady;
  }

  // ---- resolution ----

  /** Every slice of the service offers the port asked for, and the name is a label value. */
  ghost predicate CanServe(namespace: string, svc: ServiceRef, slices: seq<EndpointSlice>) {
    && ValidLabelValue(svc.name)
    && forall i :: 0 <= i < |slices| && OfService(namespace, svc)(slices[i]) ==>
         exists p :: 0 <= p < |slices[i].ports| && Offers(svc.port, slices[i].ports[p])
  }

  /** An endpoint reference with its target, as stored. */
  predicate Targets(store: Store, ref: Ref, listener: Listener, backend: Backend) {
    && ref.typeUrl == EndpointType && TargetKey(ref).Some?
    && TargetKey(ref).value in store.listeners && store.listeners[TargetKey(ref).value] == listener
    && TargetBackend(ref, listener) == Ok(backend)
  }

  lemma ResolveIsAssignment(store: Store, node: Node, ref: Ref, listener: Listener, backend: Backend)
    requires Targets(store, ref, listener, backend)
    ensures var r := LoadAssignment(node, ParseBackendName(ref.name).value, listener, backend, Reads(store.slices, Queries(listener, backend)));
            && (Resolve(store, node, ref).Some? <==> r.Ok?)
            && (r.Ok? ==> Resolve(store, node, ref).value.resource == Eds(r.value.0)
                          && Resolve(store, node, ref).value.versions == [listener.resourceVersion] + r.value.1)
  {
    hide LoadAssignment;
    hide ParseBackendName;
  }

  /**
   * A service backend resolves exactly when its slices can serve, and then to the groups described by the slices and
   * the zone of the calling node.
   */
  lemma ServiceAssignment(store: Store, node: Node, ref: Ref, listener: Listener, backend: Backend)
    requires Targets(store, ref, listener, backend) && backend.service.Some?
    ensures var svc := backend.service.value;
            var now := Resolve(store, node, ref);
            && (now.Some? <==> CanServe(listener.namespace, svc, store.slices))
            && (now.Some? ==>
                  && now.value.resource.Eds?
                  && AreGroups(now.value.resource.assignment.endpoints, svc,
                               if node.zone.Some? then node.zone.value else "",
                               store.slices, OfService(listener.namespace, svc)))
  {
    var svc := backend.service.value;
    var zone := if node.zone.Some? then node.zone.value else "";
    var pick := OfService(listener.namespace, svc);
    ResolveIsAssignment(store, node, ref, listener, backend);
    SelectIsOfService(listener, svc, store.slices);
    PortsAreOffered(svc.port, store.slices, pick);
    assert Reads(store.slices, Queries(listener, backend))[0] == Filter(store.slices, pick);
    if PortsKnown(svc.port, Filter(store.slices, pick)) {
      ServiceGroupsAre(zone, svc, store.slices, pick);
    }
    hide Resolve;
    hide PortsKnown;
    hide AreGroups;
    hide Grouped;
    hide ValidLabelValue;
    hide BackendName;
    hide ParseBackendName;
    hide Offers;
  }

  /**
   * A backend with localities resolves exactly when there are some and all of them can serve, and then to one entry
   * for each, in order, with its own weight and priority.
   */
  lemma LocalitiesAssignment(store: Store, node: Node, ref: Ref, listener: Listener, backend: Backend)
    requires Targets(store, ref, listener, backend) && backend.service.None?
    ensures var locs := backend.localities;
            var now := Resolve(store, node, ref);
            && (now.Some? <==>
                  locs != [] && forall i :: 0 <= i < |locs| ==> CanServe(listener.namespace, locs[i].service, store.slices))
            && (now.Some? ==>
                  && now.value.resource.Eds?
                  && var entries := now.value.resource.assignment.endpoints;
                     && |entries| == |locs|
                     && forall i :: 0 <= i < |locs| ==> IsLocality(entries[i], locs[i], listener.namespace, store.slices))
  {
    var locs := backend.localities;
    ResolveIsAssignment(store, node, ref, listener, backend);
    var found := Reads(store.slices, Queries(listener, backend));
    forall i | 0 <= i < |locs|
      ensures LocalityResult(locs[i], found[i]).Ok? <==> CanServe(listener.namespace, locs[i].service, store.slices)
      ensures LocalityResult(locs[i], found[i]).Ok? ==>
                IsLocality(LocalityResult(locs[i], found[i]).value, locs[i], listener.namespace, store.slices)
    {
      LocalityIs(locs[i], listener, store.slices);
    }
    hide Resolve;
    hide LocalityResult;
    hide CanServe;
    hide IsLocality;
    hide BackendName;
    hide ParseBackendName;
    hide Select;
  }

  lemma LocalityIs(loc: Locality, listener: Listener, slices: seq<EndpointSlice>)
    ensures var r := LocalityResult(loc, Select(slices, ServiceQuery(listener, loc.service)));
            && (r.Ok? <==> CanServe(listener.namespace, loc.service, slices))
            && (r.Ok? ==> IsLocality(r.value, loc, listener.namespace, slices))
  {
    var pick := OfService(listener.namespace, loc.service);
    SelectIsOfService(listener, loc.service, slices);
    PortsAreOffered(loc.service.port, slices, pick);
    if PortsKnown(loc.service.port, Filter(slices, pick)) {
      FlatLocalityIs(loc, listener.namespace, slices);
    }
    hide IsLocality;
    hide PortsKnown;
    hide Select;
    hide ValidLabelValue;
    hide Offers;
  }
}
