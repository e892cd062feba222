/** Which references a changed object reaches, and why that covers everything resolution reads. */
module Notify {
  import opened Common
  import opened Names
  import opened Spec
  import opened Routes
  import opened Backends
  import opened Resolver

  // ---- a listener changed ----

  function ListenerRef(listener: Listener): Ref {
    Ref(ListenerType, ListenerName(listener.namespace, listener.name))
  }

  function BackendRef(typeUrl: TypeUrl, listener: Listener, r: int, b: int): Ref {
    Ref(typeUrl, BackendName(listener.namespace, listener.name, r, b))
  }

  predicate IsBackendRef(ref: Ref, listener: Listener, r: int, b: int) {
    ref == BackendRef(ClusterType, listener, r, b) || ref == BackendRef(EndpointType, listener, r, b)
  }

  /** The references that belong to a listener object: itself, and a cluster and an assignment per backend. */
  ghost predicate Owns(listener: Listener, ref: Ref) {
    || ref == ListenerRef(listener)
    || exists r, b :: HasBackend(listener, r, b)
                      && IsBackendRef(ref, listener, r, b)
  }

  /** The notifications of one route, in order. */
  function RouteRefs(listener: Listener, r: nat, n: nat): seq<Ref> {
    if n == 0 then []
    else RouteRefs(listener, r, n - 1) +
         [BackendRef(ClusterType, listener, r, n - 1), BackendRef(EndpointType, listener, r, n - 1)]
  }

  /** The notifications for the first `n` routes, in order. */
  function RoutesRefs(listener: Listener, n: nat): seq<Ref>
    requires n <= |listener.routes|
  {
    if n == 0 then [ListenerRef(listener)]
    else RoutesRefs(listener, n - 1) + RouteRefs(listener, n - 1, |listener.routes[n - 1].backends|)
  }

  /** grpcListenerChangedHandler.handle, as the sequence of references it notifies. */
  method HandleListener(listener: Listener) returns (notified: seq<Ref>)
    ensures notified == RoutesRefs(listener, |listener.routes|)
  {
    notified := [ListenerRef(listener)];
    for r := 0 to |listener.routes|
      invariant notified == RoutesRefs(listener, r)
    {
      ghost var before := notified;
      for b := 0 to |listener.routes[r].backends|
        invariant notified == before + RouteRefs(listener, r, b)
      {
        notified := notified + [BackendRef(ClusterType, listener, r, b)];
        notified := notified + [BackendRef(EndpointType, listener, r, b)];
      }
    }
  }

  lemma {:induction false} RouteRefsAreOwned(listener: Listener, r: nat, n: nat, ref: Ref)
    requires r < |listener.routes| && n <= |listener.routes[r].backends|
    ensures ref in RouteRefs(listener, r, n) <==>
            exists b :: 0 <= b < n && IsBackendRef(ref, listener, r, b)
  {
    hide BackendRef;
    if n > 0 {
      RouteRefsAreOwned(listener, r, n - 1, ref);
      var last := n - 1;
      assert RouteRefs(listener, r, n) == RouteRefs(listener, r, last) +
             [BackendRef(ClusterType, listener, r, last), BackendRef(EndpointType, listener, r, last)];
      assert ref in RouteRefs(listener, r, n) <==> ref in RouteRefs(listener, r, last) || IsBackendRef(ref, listener, r, last);
    }
  }

  ghost predicate OwnsWithin(listener: Listener, ref: Ref, n: nat) {
    || ref == ListenerRef(listener)
    || exists r, b :: HasBackend(listener, r, b) && r < n
                      && IsBackendRef(ref, listener, r, b)
  }

  lemma {:induction false} RoutesRefsAreOwned(listener: Listener, n: nat, ref: Ref)
    requires n <= |listener.routes|
    ensures ref in RoutesRefs(listener, n) <==> OwnsWithin(listener, ref, n)
  {
    hide BackendRef;
    hide ListenerRef;
    if n > 0 {
      RoutesRefsAreOwned(listener, n - 1, ref);
      var r := n - 1;
      RouteRefsAreOwned(listener, r, |listener.routes[r].backends|, ref);
      if exists b :: 0 <= b < |listener.routes[r].backends| && IsBackendRef(ref, listener, r, b) {
        var b :| 0 <= b < |listener.routes[r].backends| && IsBackendRef(ref, listener, r, b);
        assert HasBackend(listener, r, b);
      }
    }
  }

  /** A change of a listener notifies exactly the references the new object owns. */
  lemma ListenerChangeReachesOwned(listener: Listener, ref: Ref)
    ensures ref in RoutesRefs(listener, |listener.routes|) <==> Owns(listener, ref)
  {
    RoutesRefsAreOwned(listener, |listener.routes|, ref);
  }

  // ---- an endpoint slice changed ----

  /** The metadata of a slice event: what matchesBackend looks at. */
  datatype SliceMeta = SliceMeta(namespace: string, serviceName: Option<string>)

  function MetaOf(s: EndpointSlice): SliceMeta { SliceMeta(s.namespace, s.serviceName) }

  /** matchesService: a missing label reads as the empty string. */
  predicate MatchesService(m: SliceMeta, listener: Listener, svc: ServiceRef) {
    && (if m.serviceName.Some? then m.serviceName.value else "") == svc.name
    && (listener.namespace == m.namespace || (svc.namespace != "" && svc.namespace == m.namespace))
  }

  predicate MatchesBackend(m: SliceMeta, listener: Listener, backend: Backend) {
    if backend.service.Some? then MatchesService(m, listener, backend.service.value)
    else exists i :: 0 <= i < |backend.localities| && MatchesService(m, listener, backend.localities[i].service)
  }

  /** matchesBackend, with its search loop over localities. */
  method MatchBackend(m: SliceMeta, listener: Listener, backend: Backend) returns (found: bool)
    ensures found == MatchesBackend(m, listener, backend)
  {
    if backend.service.Some? {
      return MatchesService(m, listener, backend.service.value);
    }
    for i := 0 to |backend.localities|
      invariant forall k :: 0 <= k < i ==> !MatchesService(m, listener, backend.localities[k].service)
    {
      if MatchesService(m, listener, backend.localities[i].service) {
        return true;
      }
    }
    return false;
  }

  /** Backend (r, b) matches the event, and `ref` is its assignment. */
  predicate SliceHits(m: SliceMeta, listener: Listener, r: int, b: int, ref: Ref) {
    && HasBackend(listener, r, b) && MatchesBackend(m, listener, listener.routes[r].backends[b])
    && ref == BackendRef(EndpointType, listener, r, b)
  }

  /** The assignments that a slice event reaches through one listener. */
  ghost predicate SliceReaches(m: SliceMeta, listener: Listener, ref: Ref) {
    exists r, b :: SliceHits(m, listener, r, b, ref)
  }

  /** The notifications of one route for a slice event, in order. */
  function SliceRouteRefs(m: SliceMeta, listener: Listener, r: nat, n: nat): seq<Ref>
    requires r < |listener.routes| && n <= |listener.routes[r].backends|
  {
    if n == 0 then []
    else SliceRouteRefs(m, listener, r, n - 1) +
         if MatchesBackend(m, listener, listener.routes[r].backends[n - 1])
         then [BackendRef(EndpointType, listener, r, n - 1)] else []
  }

  function SliceListenerRefs(m: SliceMeta, listener: Listener, n: nat): seq<Ref>
    requires n <= |listener.routes|
  {
    if n == 0 then []
    else SliceListenerRefs(m, listener, n - 1) + SliceRouteRefs(m, listener, n - 1, |listener.routes[n - 1].backends|)
  }

  /** The notifications of a slice event over a listing of the stored listeners, in order. */
  function SliceRefs(m: SliceMeta, listeners: seq<Listener>): seq<Ref> {
    if listeners == [] then []
    else
      var last := listeners[|listeners| - 1];
      SliceRefs(m, listeners[..|listeners| - 1]) + SliceListenerRefs(m, last, |last.routes|)
  }

  /** endpointSliceChangedHandler.handle, over the listeners its lister call returned. */
  method HandleSlice(m: SliceMeta, listeners: seq<Listener>) returns (notified: seq<Ref>)
    ensures notified == SliceRefs(m, listeners)
  {
    notified := [];
    for i := 0 to |listeners|
      invariant notified == SliceRefs(m, listeners[..i])
    {
      var more := HandleSliceFor(m, listeners[i]);
      notified := notified + more;
      assert listeners[..i + 1][..i] == listeners[..i];
    }
    assert listeners[..|listeners|] == listeners;
  }

  method HandleSliceFor(m: SliceMeta, listener: Listener) returns (notified: seq<Ref>)
    ensures notified == SliceListenerRefs(m, listener, |listener.routes|)
  {
    notified := [];
    hide BackendRef;
    hide MatchesBackend;
    for r := 0 to |listener.routes|
      invariant notified == SliceListenerRefs(m, listener, r)
    {
      ghost var before := notified;
      for b := 0 to |listener.routes[r].backends|
        invariant notified == before + SliceRouteRefs(m, listener, r, b)
      {
        var matches := MatchBackend(m, listener, listener.routes[r].backends[b]);
        if matches {
          notified := notified + [BackendRef(EndpointType, listener, r, b)];
        }
      }
    }
  }

  // ---- the dependency test covers what resolution reads ----

  lemma SelectedIsMatched(listener: Listener, backend: Backend, i: nat, s: EndpointSlice)
    requires i < |Queries(listener, backend)| && Selects(Queries(listener, backend)[i], s)
    ensures MatchesBackend(MetaOf(s), listener, backend)
  {
    if backend.service.None? {
      assert MatchesService(MetaOf(s), listener, backend.localities[i].service);
    }
  }

  /** The slices a backend's change test accepts, in store order. */
  function MatchedSlices(slices: seq<EndpointSlice>, listener: Listener, backend: Backend): seq<EndpointSlice> {
    Filter(slices, s => MatchesBackend(MetaOf(s), listener, backend))
  }

  lemma ReadsDependOnMatched(listener: Listener, backend: Backend, s1: seq<EndpointSlice>, s2: seq<EndpointSlice>)
    requires MatchedSlices(s1, listener, backend) == MatchedSlices(s2, listener, backend)
    ensures Reads(s1, Queries(listener, backend)) == Reads(s2, Queries(listener, backend))
  {
    var qs := Queries(listener, backend);
    var outer := (s: EndpointSlice) => MatchesBackend(MetaOf(s), listener, backend);
    forall i | 0 <= i < |qs|
      ensures Select(s1, qs[i]) == Select(s2, qs[i])
    {
      var inner := (s: EndpointSlice) => Selects(qs[i], s);
      forall s | inner(s) ensures outer(s) {
        SelectedIsMatched(listener, backend, i, s);
      }
      FilterFilter(s1, outer, inner);
      FilterFilter(s2, outer, inner);
      SelectIsFilter(s1, qs[i], inner);
      SelectIsFilter(s2, qs[i], inner);
      MatchedIsFilter(s1, listener, backend, outer);
      MatchedIsFilter(s2, listener, backend, outer);
    }
  }

  lemma {:induction false} SelectIsFilter(slices: seq<EndpointSlice>, q: Query, keep: EndpointSlice -> bool)
    requires forall s :: keep(s) == Selects(q, s)
    ensures Select(slices, q) == Filter(slices, keep)
  {
    if slices != [] {
      SelectIsFilter(slices[1..], q, keep);
    }
  }

  lemma {:induction false} MatchedIsFilter(slices: seq<EndpointSlice>, listener: Listener, backend: Backend, keep: EndpointSlice -> bool)
    requires forall s :: keep(s) == MatchesBackend(MetaOf(s), listener, backend)
    ensures MatchedSlices(slices, listener, backend) == Filter(slices, keep)
  {
    if slices != [] {
      MatchedIsFilter(slices[1..], listener, backend, keep);
    }
  }

  /**
   * Dependency frame: two stores that agree on every slice the change test accepts for a backend give the
   * same load assignment.
   */
  lemma DependencyFrame(node: Node, ref: ParsedBackendName, listener: Listener, backend: Backend,
                        s1: seq<EndpointSlice>, s2: seq<EndpointSlice>)
    requires MatchedSlices(s1, listener, backend) == MatchedSlices(s2, listener, backend)
    ensures LoadAssignment(node, ref, listener, backend, Reads(s1, Queries(listener, backend)))
         == LoadAssignment(node, ref, listener, backend, Reads(s2, Queries(listener, backend)))
  {
    ReadsDependOnMatched(listener, backend, s1, s2);
  }

  /** The services a backend refers to, in the order of its lister calls. */
  function ServicesOf(backend: Backend): seq<ServiceRef> {
    if backend.service.Some? then [backend.service.value]
    else seq(|backend.localities|, i requires 0 <= i < |backend.localities| => backend.localities[i].service)
  }

  /** The two ways the change test goes beyond what is read for a service. */
  predicate Spurious(s: EndpointSlice, listener: Listener, svc: ServiceRef) {
    || (s.serviceName.None? && svc.name == "" && (s.namespace == listener.namespace || s.namespace == svc.namespace != ""))
    || (s.serviceName == Some(svc.name) && svc.namespace != "" && svc.namespace != s.namespace
        && s.namespace == listener.namespace)
  }

  ghost predicate IsRead(s: EndpointSlice, listener: Listener, backend: Backend) {
    exists i :: 0 <= i < |Queries(listener, backend)| && Selects(Queries(listener, backend)[i], s)
  }

  lemma SpuriousMatch(s: EndpointSlice, listener: Listener, svc: ServiceRef)
    ensures MatchesService(MetaOf(s), listener, svc) <==>
            Selects(ServiceQuery(listener, svc), s) || Spurious(s, listener, svc)
    ensures !(Selects(ServiceQuery(listener, svc), s) && Spurious(s, listener, svc))
  {}

  /**
   * The change test accepts a slice exactly when resolution reads it or one of two situations holds for a
   * service of the backend: a missing label read as an empty service name, or a same-named slice in the
   * listener's namespace while the service names another one.
   */
  lemma MatchedIsReadOrSpurious(s: EndpointSlice, listener: Listener, backend: Backend)
    ensures MatchesBackend(MetaOf(s), listener, backend) <==>
            || IsRead(s, listener, backend)
            || exists i :: 0 <= i < |ServicesOf(backend)| && Spurious(s, listener, ServicesOf(backend)[i])
  {
    var services, qs := ServicesOf(backend), Queries(listener, backend);
    assert |qs| == |services| && forall i :: 0 <= i < |qs| ==> qs[i] == ServiceQuery(listener, services[i]);
    assert MatchesBackend(MetaOf(s), listener, backend) <==>
           exists i :: 0 <= i < |services| && MatchesService(MetaOf(s), listener, services[i]) by {
      if backend.service.Some? {
        assert MatchesService(MetaOf(s), listener, services[0]) == MatchesService(MetaOf(s), listener, backend.service.value);
      } else {
        assert forall i :: 0 <= i < |services| ==> services[i] == backend.localities[i].service;
      }
    }
    hide MatchesService;
    hide Selects;
    hide Spurious;
    hide MatchesBackend;
    forall i | 0 <= i < |services|
      ensures MatchesService(MetaOf(s), listener, services[i]) <==> Selects(qs[i], s) || Spurious(s, listener, services[i])
    {
      SpuriousMatch(s, listener, services[i]);
    }
  }

  // ---- replacing one slice ----

  function SliceKey(s: EndpointSlice): Key { (s.namespace, s.name) }

  function Elsewhere(slices: seq<EndpointSlice>, key: Key): seq<EndpointSlice> {
    Filter(slices, s => SliceKey(s) != key)
  }

  predicate Absent(slices: seq<EndpointSlice>, key: Key) {
    forall i :: 0 <= i < |slices| ==> SliceKey(slices[i]) != key
  }

  /** What is stored under `key`, if anything, carries this metadata. */
  predicate AllCarry(slices: seq<EndpointSlice>, key: Key, meta: SliceMeta) {
    forall i :: 0 <= i < |slices| && SliceKey(slices[i]) == key ==> MetaOf(slices[i]) == meta
  }

  /** Resolution of the backend reads the slice stored under `key`. */
  ghost predicate ReadUnder(slices: seq<EndpointSlice>, key: Key, listener: Listener, backend: Backend) {
    exists i :: 0 <= i < |slices| && SliceKey(slices[i]) == key && IsRead(slices[i], listener, backend)
  }

  lemma {:induction false} ElsewhereIsFilter(slices: seq<EndpointSlice>, key: Key, keep: EndpointSlice -> bool)
    requires forall s :: keep(s) == (SliceKey(s) != key)
    ensures Elsewhere(slices, key) == Filter(slices, keep)
  {
    if slices != [] {
      ElsewhereIsFilter(slices[1..], key, keep);
    }
  }

  /** A query that selects nothing under `key` finds the same without it. */
  lemma SelectElsewhere(slices: seq<EndpointSlice>, key: Key, q: Query)
    requires forall i :: 0 <= i < |slices| && SliceKey(slices[i]) == key ==> !Selects(q, slices[i])
    ensures Select(slices, q) == Select(Elsewhere(slices, key), q)
  {
    var outer := (s: EndpointSlice) => SliceKey(s) != key;
    var inner := (s: EndpointSlice) => Selects(q, s);
    forall s | s in slices && inner(s) ensures outer(s) {
      var i :| 0 <= i < |slices| && slices[i] == s;
    }
    FilterFilter(slices, outer, inner);
    ElsewhereIsFilter(slices, key, outer);
    SelectIsFilter(slices, q, inner);
    SelectIsFilter(Elsewhere(slices, key), q, inner);
  }

  lemma RefusedIsNotSelected(slices: seq<EndpointSlice>, key: Key, meta: SliceMeta, listener: Listener, backend: Backend, i: nat)
    requires AllCarry(slices, key, meta) && !MatchesBackend(meta, listener, backend) && i < |Queries(listener, backend)|
    ensures forall k :: 0 <= k < |slices| && SliceKey(slices[k]) == key ==> !Selects(Queries(listener, backend)[i], slices[k])
  {
    hide MatchesBackend;
    hide Queries;
    hide Selects;
    forall k | 0 <= k < |slices| && SliceKey(slices[k]) == key
      ensures !Selects(Queries(listener, backend)[i], slices[k])
    {
      if Selects(Queries(listener, backend)[i], slices[k]) {
        SelectedIsMatched(listener, backend, i, slices[k]);
      }
    }
  }

  /**
   * Handlers look at the new object only. When the slice under `key` is replaced, whatever its old label, by
   * one that the change test of a backend refuses, the backend is affected exactly if it read the old slice.
   */
  lemma RelabelIsMissedExactly(before: seq<EndpointSlice>, after: seq<EndpointSlice>, key: Key, meta: SliceMeta,
                               listener: Listener, backend: Backend)
    requires Elsewhere(after, key) == Elsewhere(before, key) && AllCarry(after, key, meta)
    requires !MatchesBackend(meta, listener, backend)
    ensures Reads(after, Queries(listener, backend)) == Reads(before, Queries(listener, backend)) <==>
            !ReadUnder(before, key, listener, backend)
  {
    var qs := Queries(listener, backend);
    forall i | 0 <= i < |qs|
      ensures Select(after, qs[i]) == Select(Elsewhere(before, key), qs[i])
      ensures forall k :: 0 <= k < |after| && SliceKey(after[k]) == key ==> !Selects(qs[i], after[k])
    {
      RefusedIsNotSelected(after, key, meta, listener, backend, i);
      SelectElsewhere(after, key, qs[i]);
    }
    hide MatchesBackend;
    hide Queries;
    hide Selects;
    hide Elsewhere;
    hide Select;
    if ReadUnder(before, key, listener, backend) {
      var k :| 0 <= k < |before| && SliceKey(before[k]) == key && IsRead(before[k], listener, backend);
      var i :| 0 <= i < |qs| && Selects(qs[i], before[k]);
      SelectMember(before, qs[i], before[k]);
      SelectMember(after, qs[i], before[k]);
      assert Reads(after, qs)[i] != Reads(before, qs)[i];
    } else {
      forall i | 0 <= i < |qs|
        ensures Select(before, qs[i]) == Select(after, qs[i])
      {
        forall k | 0 <= k < |before| && SliceKey(before[k]) == key
          ensures !Selects(qs[i], before[k])
        {
          assert !IsRead(before[k], listener, backend);
        }
        SelectElsewhere(before, key, qs[i]);
      }
    }
  }

  lemma SelectMember(slices: seq<EndpointSlice>, q: Query, s: EndpointSlice)
    ensures s in Select(slices, q) <==> s in slices && Selects(q, s)
  {
    var keep := (x: EndpointSlice) => Selects(q, x);
    SelectIsFilter(slices, q, keep);
    FilterMember(slices, keep, s);
  }

  // ---- the three handlers agree on names ----

  ghost predicate ConfiguresCluster(config: RouteConfig, name: string) {
    exists r, b :: 0 <= r < |config.routes| && 0 <= b < |config.routes[r].weightedClusters.clusters|
                   && config.routes[r].weightedClusters.clusters[b].name == name
  }

  lemma OwnedBackendNames(listener: Listener, name: string)
    ensures Owns(listener, Ref(ClusterType, name)) <==>
            exists r, b :: HasBackend(listener, r, b) && IsBackendRef(Ref(ClusterType, name), listener, r, b)
    ensures Owns(listener, Ref(ClusterType, name)) <==> Owns(listener, Ref(EndpointType, name))
  {
    hide BackendName;
    forall r, b
      ensures IsBackendRef(Ref(ClusterType, name), listener, r, b) <==> IsBackendRef(Ref(EndpointType, name), listener, r, b)
    {}
  }

  lemma ConfiguredName(listenerName: string, listener: Listener, r: int, b: int)
    requires RouteConfigOf(listenerName, listener).Ok? && HasBackend(listener, r, b)
    ensures var config := RouteConfigOf(listenerName, listener).value;
            config.routes[r].weightedClusters.clusters[b].name == BackendName(listener.namespace, listener.name, r, b)
  {
    hide BackendName;
  }

  /**
   * Referential closure: the cluster names of a listener's route configuration, the cluster references and
   * the endpoint references its change notifies are the same names.
   */
  lemma ReferentialClosure(listenerName: string, listener: Listener, name: string)
    requires RouteConfigOf(listenerName, listener).Ok?
    ensures var notified := RoutesRefs(listener, |listener.routes|);
            && (ConfiguresCluster(RouteConfigOf(listenerName, listener).value, name) <==> Ref(ClusterType, name) in notified)
            && (Ref(ClusterType, name) in notified <==> Ref(EndpointType, name) in notified)
  {
    ListenerChangeReachesOwned(listener, Ref(ClusterType, name));
    ListenerChangeReachesOwned(listener, Ref(EndpointType, name));
    hide RoutesRefs;
    var config := RouteConfigOf(listenerName, listener).value;
    OwnedBackendNames(listener, name);
    hide BackendName;
    hide Owns;
    if ConfiguresCluster(config, name) {
      var r, b :| 0 <= r < |config.routes| && 0 <= b < |config.routes[r].weightedClusters.clusters|
                  && config.routes[r].weightedClusters.clusters[b].name == name;
      ConfiguredName(listenerName, listener, r, b);
      assert HasBackend(listener, r, b) && IsBackendRef(Ref(ClusterType, name), listener, r, b);
    }
    if Owns(listener, Ref(ClusterType, name)) {
      var r, b :| HasBackend(listener, r, b) && IsBackendRef(Ref(ClusterType, name), listener, r, b);
      ConfiguredName(listenerName, listener, r, b);
    }
  }

  /** The reference of backend (r, b) targets its own listener and exactly its own backend. */
  lemma BackendRefTargets(typeUrl: TypeUrl, listener: Listener, r: int, b: int)
    requires typeUrl.ClusterType? || typeUrl.EndpointType?
    requires WellNamed(listener) && HasBackend(listener, r, b)
    ensures var ref := BackendRef(typeUrl, listener, r, b);
            && ParseBackendName(ref.name) == Ok(ParsedBackendName(listener.namespace, listener.name, r, b))
            && TargetKey(ref) == Some((listener.namespace, listener.name))
            && TargetBackend(ref, listener) == Ok(listener.routes[r].backends[b])
  {
    BackendNameRoundTrip(listener.namespace, listener.name, r, b);
  }

  /**
   * The cluster resource asks EDS for the very name that the endpoint resource of the same backend carries,
   * which is the name the route configuration uses.
   */
  lemma EdsNameAgrees(store: Store, node: Node, listener: Listener, r: int, b: int)
    requires WellNamed(listener) && HasBackend(listener, r, b)
    requires (listener.namespace, listener.name) in store.listeners
    requires store.listeners[(listener.namespace, listener.name)] == listener
    ensures var cds := Resolve(store, node, BackendRef(ClusterType, listener, r, b));
            var eds := Resolve(store, node, BackendRef(EndpointType, listener, r, b));
            var name := BackendName(listener.namespace, listener.name, r, b);
            && cds == Some(Content(Cds(MakeCluster(name, listener.routes[r].backends[b])), [listener.resourceVersion]))
            && cds.value.resource.cluster.edsServiceName == name
            && (eds.Some? ==> eds.value.resource.Eds? && eds.value.resource.assignment.clusterName == name)
  {
    BackendRefTargets(ClusterType, listener, r, b);
    BackendRefTargets(EndpointType, listener, r, b);
    hide BackendName;
    hide ParseBackendName;
  }
}
