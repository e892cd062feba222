/** What every resource and its versions are, described from the stored objects and the name asked for. */
module Outputs {
  import opened Common
  import opened Text
  import opened Paths
  import opened Names
  import opened Spec
  import opened Endpoints
  import opened Backends
  import opened Routes
  import opened Refusals
  import opened Routing
  import opened Resolver
  import opened Served

  // ---- versions ----

  /** The resource versions of the picked slices, in order. */
  function PickedVersions(pick: EndpointSlice -> bool): EndpointSlice -> seq<string> {
    (s: EndpointSlice) => if pick(s) then [s.resourceVersion] else []
  }

  function LocalityPicks(namespace: string, slices: seq<EndpointSlice>): Locality -> seq<string> {
    (loc: Locality) => FlatMap(slices, PickedVersions(OfService(namespace, loc.service)))
  }

  lemma {:induction false} VersionsOfFilter(slices: seq<EndpointSlice>, pick: EndpointSlice -> bool)
    ensures Versions(Filter(slices, pick)) == FlatMap(slices, PickedVersions(pick))
  {
    if slices != [] {
      var head, rest := if pick(slices[0]) then [slices[0]] else [], slices[1..];
      VersionsOfFilter(rest, pick);
      assert Versions(head + Filter(rest, pick)) == Versions(head) + Versions(Filter(rest, pick));
    }
  }

  lemma {:induction false} LocalityVersionsAre(listener: Listener, locs: seq<Locality>, slices: seq<EndpointSlice>, found: seq<seq<EndpointSlice>>)
    requires |found| == |locs|
    requires forall i :: 0 <= i < |locs| ==> found[i] == Select(slices, ServiceQuery(listener, locs[i].service))
    ensures LocalityVersions(found) == FlatMap(locs, LocalityPicks(listener.namespace, slices))
  {
    hide Select;
    hide ServiceQuery;
    hide Versions;
    if locs != [] {
      var n := |locs| - 1;
      var f := LocalityPicks(listener.namespace, slices);
      LocalityVersionsAre(listener, locs[..n], slices, found[..n]);
      assert locs == locs[..n] + [locs[n]];
      FlatMapAppend(locs[..n], [locs[n]], f);
      FlatMapOne(locs[n], f);
      SelectIsOfService(listener, locs[n].service, slices);
      VersionsOfFilter(slices, OfService(listener.namespace, locs[n].service));
    }
  }

  /** A listener or a cluster feeds the version of the stored listener to the hash, and nothing else. */
  lemma ListenerVersion(store: Store, node: Node, ref: Ref)
    requires Resolve(store, node, ref).Some? && !ref.typeUrl.EndpointType?
    ensures TargetKey(ref).Some? && TargetKey(ref).value in store.listeners
    ensures Resolve(store, node, ref).value.versions == [store.listeners[TargetKey(ref).value].resourceVersion]
  {
    hide RouteConfigOf;
    hide ParseBackendName;
  }

  /** An assignment feeds the version of the stored listener, then those of the slices that each lister call finds. */
  lemma AssignmentVersionsAre(store: Store, node: Node, ref: Ref, listener: Listener, backend: Backend)
    requires Targets(store, ref, listener, backend) && Resolve(store, node, ref).Some?
    ensures Resolve(store, node, ref).value.versions ==
            [listener.resourceVersion] +
            if backend.service.Some? then FlatMap(store.slices, PickedVersions(OfService(listener.namespace, backend.service.value)))
            else FlatMap(backend.localities, LocalityPicks(listener.namespace, store.slices))
  {
    var found := Reads(store.slices, Queries(listener, backend));
    ResolveIsAssignment(store, node, ref, listener, backend);
    if backend.service.Some? {
      var svc := backend.service.value;
      SelectIsOfService(listener, svc, store.slices);
      VersionsOfFilter(store.slices, OfService(listener.namespace, svc));
    } else {
      LocalityVersionsAre(listener, backend.localities, store.slices, found);
    }
    hide Resolve;
    hide ServiceEndpoints;
    hide LocalitiesEndpoints;
    hide ValidLabelValue;
    hide BackendName;
    hide ParseBackendName;
    hide Versions;
    hide LocalityVersions;
    hide FlatMap;
  }

  function HashedBytes(): Content -> string {
    (c: Content) => Flatten(c.versions)
  }

  /** The bytes hashed are all versions of all names, in order. */
  lemma {:induction false} HashInputIs(contents: seq<Content>)
    ensures HashInput(contents) == FlatMap(contents, HashedBytes())
  {
    if contents != [] {
      var n := |contents| - 1;
      HashInputIs(contents[..n]);
      assert contents == contents[..n] + [contents[n]];
      FlatMapAppend(contents[..n], [contents[n]], HashedBytes());
      FlatMapOne(contents[n], HashedBytes());
    }
  }

  /** The version of the listener that a listener name asks for. */
  function StoredVersion(store: Store): string -> string {
    (name: string) =>
      match ParseListenerName(name)
      case Err => ""
      case Ok(key) => if key in store.listeners then store.listeners[key].resourceVersion else ""
  }

  /** The bytes hashed for a listener response are the versions of the listeners asked for, one after the other. */
  lemma {:induction false} ListenerHash(store: Store, node: Node, names: seq<string>)
    requires AllResolve(store, node, ListenerType, names)
    ensures HashInput(ContentsOf(store, node, ListenerType, names)) == FlatMap(names, StoredVersion(store))
  {
    hide Resolve;
    hide StoredVersion;
    hide HashedBytes;
    var contents := ContentsOf(store, node, ListenerType, names);
    HashInputIs(contents);
    hide HashInput;
    if names != [] {
      FirstHash(store, node, names);
      assert ContentsOf(store, node, ListenerType, names[1..]) == contents[1..];
      assert FlatMap(contents, HashedBytes()) == HashedBytes()(contents[0]) + FlatMap(contents[1..], HashedBytes());
      assert FlatMap(names, StoredVersion(store)) == StoredVersion(store)(names[0]) + FlatMap(names[1..], StoredVersion(store));
      hide *;
      HashInputIs(contents[1..]);
      ListenerHash(store, node, names[1..]);
    }
  }

  lemma FirstHash(store: Store, node: Node, names: seq<string>)
    requires names != [] && AllResolve(store, node, ListenerType, names)
    ensures HashedBytes()(ContentsOf(store, node, ListenerType, names)[0]) == StoredVersion(store)(names[0])
  {
    ListenerVersion(store, node, Ref(ListenerType, names[0]));
    FlattenOne(StoredVersion(store)(names[0]));
    hide Resolve;
    hide Flatten;
  }

  lemma FlattenOne(v: string)
    ensures Flatten([v]) == v
  {
    assert [v][1..] == [];
  }

  // ---- clusters ----

  /** A cluster carries the name asked for, twice, and the settings of the backend that the name targets. */
  lemma ClusterResource(store: Store, node: Node, ref: Ref)
    requires ref.typeUrl == ClusterType && Resolve(store, node, ref).Some?
    ensures TargetKey(ref).Some? && TargetKey(ref).value in store.listeners
    ensures var backend := TargetBackend(ref, store.listeners[TargetKey(ref).value]);
            var resource := Resolve(store, node, ref).value.resource;
            && backend.Ok? && resource.Cds?
            && resource.cluster.name == ref.name && resource.cluster.edsServiceName == ref.name
            && resource.cluster.maxRequests == backend.value.maxRequests && resource.cluster.ringHash == backend.value.ringHash
            && resource.cluster.lbPolicy ==
               if SameText(backend.value.lbPolicy, "ringhash") || SameText(backend.value.lbPolicy, "ring_hash") then RING_HASH
               else ROUND_ROBIN
  {
    var backend := TargetBackend(ref, store.listeners[TargetKey(ref).value]).value;
    FoldIsSameText(backend.lbPolicy, "ringhash");
    FoldIsSameText(backend.lbPolicy, "ring_hash");
    hide EqualFold;
    hide SameText;
    hide ParseBackendName;
  }

  // ---- listeners ----

  /** Interceptors come first, each with its configuration; the router is the last filter. */
  predicate AreFilters(chain: seq<Interceptor>, filters: seq<string>) {
    && |filters| == |chain| + 1
    && (forall i :: 0 <= i < |chain| ==> chain[i].Fault? && filters[i] == chain[i].config)
    && filters[|chain|] == "envoy.filters.http.router"
  }

  /** One override, under the fault filter's name and with the last configuration, if there are interceptors. */
  predicate AreOverrides(chain: seq<Interceptor>, overrides: map<string, string>) {
    && (chain == [] ==> overrides == map[])
    && (chain != [] ==> chain[|chain| - 1].Fault?
                        && overrides == map["envoy.filters.http.fault" := chain[|chain| - 1].config])
  }

  lemma OverridesAre(chain: seq<Interceptor>)
    requires WellFormedInterceptors(chain)
    ensures AreOverrides(chain, MakeFilterOverrides(chain).value)
  {}

  /** The routes of a configuration carry the overrides of their own routes and backends. */
  predicate OverridesMatch(listener: Listener, config: RouteConfig) {
    && |config.routes| == |listener.routes|
    && forall r :: 0 <= r < |listener.routes| ==>
         && AreOverrides(listener.routes[r].interceptors, config.routes[r].overrides)
         && |config.routes[r].weightedClusters.clusters| == |listener.routes[r].backends|
         && forall b :: 0 <= b < |listener.routes[r].backends| ==>
              AreOverrides(listener.routes[r].backends[b].interceptors, config.routes[r].weightedClusters.clusters[b].overrides)
  }

  lemma ConfigOverrides(listenerName: string, listener: Listener)
    requires RouteConfigOf(listenerName, listener).Ok?
    ensures OverridesMatch(listener, RouteConfigOf(listenerName, listener).value)
  {
    hide BackendName;
    hide AreOverrides;
    hide MakeFilterOverrides;
    var config := RouteConfigOf(listenerName, listener).value;
    forall r | 0 <= r < |listener.routes|
      ensures AreOverrides(listener.routes[r].interceptors, config.routes[r].overrides)
      ensures |config.routes[r].weightedClusters.clusters| == |listener.routes[r].backends|
    {
      assert Translatable(listener.routes[r]);
      OverridesAre(listener.routes[r].interceptors);
    }
    forall r, b | 0 <= r < |listener.routes| && 0 <= b < |listener.routes[r].backends|
      ensures AreOverrides(listener.routes[r].backends[b].interceptors, config.routes[r].weightedClusters.clusters[b].overrides)
    {
      assert Translatable(listener.routes[r]);
      OverridesAre(listener.routes[r].backends[b].interceptors);
    }
  }

  /**
   * A listener name resolves exactly if its listener is stored, with valid interceptors and routes; the resource then
   * carries the name, a virtual host for the name, and the filters and overrides of the spec.
   */
  lemma ListenerResource(store: Store, node: Node, ref: Ref)
    requires ref.typeUrl == ListenerType
    ensures Resolve(store, node, ref).Some? <==>
            && TargetKey(ref).Some? && TargetKey(ref).value in store.listeners
            && var listener := store.listeners[TargetKey(ref).value];
               AllFaults(listener.interceptors) && forall i :: 0 <= i < |listener.routes| ==> ValidRoute(listener.routes[i])
    ensures Resolve(store, node, ref).Some? ==>
              var listener := store.listeners[TargetKey(ref).value];
              var resource := Resolve(store, node, ref).value.resource;
              && resource.Lds? && resource.name == ref.name && resource.routeConfig.domain == ref.name
              && AreFilters(listener.interceptors, resource.filters)
              && OverridesMatch(listener, resource.routeConfig)
              && RouteConfigOf(ref.name, listener) == Ok(resource.routeConfig)
  {
    var key := TargetKey(ref);
    if key.Some? && key.value in store.listeners {
      var listener := store.listeners[key.value];
      ListenerTranslatesExactly(ref.name, listener);
      ConfigDomain(ref.name, listener);
      if RouteConfigOf(ref.name, listener).Ok? {
        ConfigOverrides(ref.name, listener);
      }
    }
    hide TargetKey;
    hide RouteConfigOf;
    hide OverridesMatch;
    hide ValidRoute;
  }

  /** The names of a configuration and its virtual host, and the one domain the host serves. */
  lemma ConfigDomain(listenerName: string, listener: Listener)
    ensures RouteConfigOf(listenerName, listener).Ok? ==> RouteConfigOf(listenerName, listener).value.domain == listenerName
  {
    hide TranslatableListener;
    hide PathJoin;
  }

  lemma ConfigNames(listenerName: string, listener: Listener)
    requires RouteConfigOf(listenerName, listener).Ok? && RoundTrips(listener.namespace, listener.name)
    ensures var config := RouteConfigOf(listenerName, listener).value;
            && config.name == listener.namespace + "/" + listener.name + "/routeconfig"
            && config.vhostName == listener.namespace + "/" + listener.name + "/vhost"
  {
    JoinedName(listener.namespace, listener.name, "routeconfig");
    JoinedName(listener.namespace, listener.name, "vhost");
    hide PathJoin;
    hide TranslatableListener;
  }

  lemma JoinedName(namespace: string, name: string, word: string)
    requires RoundTrips(namespace, name) && PlainSegment(word)
    ensures PathJoin([namespace, name, word]) == namespace + "/" + name + "/" + word
  {
    var segs := [namespace, name, word];
    PathJoinOfReduced(segs);
    hide PathJoin;
    assert segs[1..] == [name, word] && segs[1..][1..] == [word];
    assert Join([word], '/') == word && Join([name, word], '/') == name + ['/'] + word;
    assert Join(segs, '/') == namespace + ['/'] + (name + ['/'] + word);
  }

  /** A client that dials the listener's name gets the route that the spec picks, and no other name gets one. */
  lemma DialledNameIsRouted(store: Store, node: Node, ref: Ref, call: Call, draws: seq<nat>, rx: Regex)
    requires ref.typeUrl == ListenerType && Resolve(store, node, ref).Some? && "/" <= call.path
    requires TargetKey(ref).Some? && TargetKey(ref).value in store.listeners
    requires var listener := store.listeners[TargetKey(ref).value];
             WellNamed(listener) && |draws| == |listener.routes|
    ensures var listener := store.listeners[TargetKey(ref).value];
            var resource := Resolve(store, node, ref).value.resource;
            && resource.Lds? && |resource.routeConfig.routes| == |draws|
            && (XdsRouteFor(resource.routeConfig, ref.name, call, draws, rx) == SpecRoute(listener, call, draws, rx) <==>
                MisreadingsAreShadowed(listener, call, draws, rx))
            && forall authority :: authority != ref.name ==> XdsRouteFor(resource.routeConfig, authority, call, draws, rx) == None
  {
    var listener := store.listeners[TargetKey(ref).value];
    ListenerResource(store, node, ref);
    RoutingIsPreserved(ref.name, listener, call, draws, rx);
    hide Resolve;
    hide RouteConfigOf;
    hide MisreadingsAreShadowed;
    hide XdsRouteFor;
    hide SpecRoute;
    hide WellNamed;
  }
}
