/** Resolution of resource names against the stored objects: LDS, CDS and EDS. */
module Resolver {
  import opened Common
  import opened Text
  import opened Names
  import opened Backends
  import opened Spec
  import opened Endpoints
  import opened Routes

  // ---- the stored objects, as the listers show them ----

  type Key = (string, string)   // namespace, name

  datatype Store = Store(listeners: map<Key, Listener>, slices: seq<EndpointSlice>)

  // ---- resources and references ----

  datatype TypeUrl = ListenerType | ClusterType | EndpointType | OtherType(url: string)

  datatype Ref = Ref(typeUrl: TypeUrl, name: string)

  datatype LbPolicy = RING_HASH | ROUND_ROBIN

  datatype Cluster = Cluster(
    name: string,
    lbPolicy: LbPolicy,
    edsServiceName: string,
    maxRequests: Option<uint32>,
    ringHash: Option<RingHashConfig>)

  datatype ClusterLoadAssignment = ClusterLoadAssignment(
    clusterName: string, endpoints: seq<LocalityLbEndpoints>)

  datatype Resource =
    | Lds(name: string, routeConfig: RouteConfig, filters: seq<string>)
    | Cds(cluster: Cluster)
    | Eds(assignment: ClusterLoadAssignment)

  /** What one name contributes to a response: its slot and the resource versions it feeds to the hash. */
  datatype Content = Content(resource: Resource, versions: seq<string>)

  // ---- listing slices ----

  /** A lister call: the slices of one namespace whose service-name label has this value. */
  datatype Query = Query(namespace: string, service: string)

  predicate Selects(q: Query, s: EndpointSlice) {
    s.namespace == q.namespace && s.serviceName == Some(q.service)
  }

  function Select(slices: seq<EndpointSlice>, q: Query): seq<EndpointSlice> {
    Filter(slices, s => Selects(q, s))
  }

  function Reads(slices: seq<EndpointSlice>, queries: seq<Query>): (r: seq<seq<EndpointSlice>>)
    ensures |r| == |queries|
    ensures forall i :: 0 <= i < |queries| ==> r[i] == Select(slices, queries[i])
  {
    seq(|queries|, i requires 0 <= i < |queries| => Select(slices, queries[i]))
  }

  predicate LabelChar(c: char) {
    IsDigit(c) || 'a' <= c <= 'z' || 'A' <= c <= 'Z'
  }

  /** Kubernetes' syntax for label values, which labels.NewRequirement enforces. */
  predicate ValidLabelValue(s: string) {
    && |s| <= 63
    && (s != "" ==> LabelChar(s[0]) && LabelChar(s[|s| - 1]))
    && (forall i :: 0 <= i < |s| ==> LabelChar(s[i]) || s[i] == '-' || s[i] == '_' || s[i] == '.')
  }

  function ServiceQuery(listener: Listener, svc: ServiceRef): Query {
    Query(if svc.namespace == "" then listener.namespace else svc.namespace, svc.name)
  }

  /** The lister calls that makeLoadAssignment makes for a backend. */
  function Queries(listener: Listener, backend: Backend): seq<Query> {
    if backend.service.Some? then [ServiceQuery(listener, backend.service.value)]
    else seq(|backend.localities|, i requires 0 <= i < |backend.localities| =>
           ServiceQuery(listener, backend.localities[i].service))
  }

  // ---- EDS ----

  function Versions(slices: seq<EndpointSlice>): seq<string> {
    Map(slices, (s: EndpointSlice) => s.resourceVersion)
  }

  function LocalityResult(loc: Locality, found: seq<EndpointSlice>): Result<LocalityLbEndpoints> {
    if !ValidLabelValue(loc.service.name) then Err
    else FlatLocality(loc.service, found, loc.weight, loc.priority)
  }

  function LocalityVersions(found: seq<seq<EndpointSlice>>): seq<string> {
    if found == [] then [] else LocalityVersions(found[..|found| - 1]) + Versions(found[|found| - 1])
  }

  function LocalitiesEndpoints(locs: seq<Locality>, found: seq<seq<EndpointSlice>>): Result<seq<LocalityLbEndpoints>>
    requires |locs| == |found|
  {
    if forall i :: 0 <= i < |locs| ==> LocalityResult(locs[i], found[i]).Ok? then
      Ok(seq(|locs|, i requires 0 <= i < |locs| => LocalityResult(locs[i], found[i]).value))
    else Err
  }

  /** What makeLoadAssignment returns, given what each of its lister calls returned. */
  function LoadAssignment(node: Node, ref: ParsedBackendName, listener: Listener, backend: Backend,
                          found: seq<seq<EndpointSlice>>)
    : Result<(ClusterLoadAssignment, seq<string>)>
    requires |found| == |Queries(listener, backend)|
  {
    if backend.service.Some? then
      var svc := backend.service.value;
      if !ValidLabelValue(svc.name) then Err
      else
        match ServiceEndpoints(CallerZone(node), svc, found[0])
        case Err => Err
        case Ok(groups) => Ok((ClusterLoadAssignment(ref.Print(), groups), Versions(found[0])))
    else if backend.localities == [] then Err
    else
      match LocalitiesEndpoints(backend.localities, found)
      case Err => Err
      case Ok(endpoints) => Ok((ClusterLoadAssignment(ref.Print(), endpoints), LocalityVersions(found)))
  }

  method SliceVersions(slices: seq<EndpointSlice>) returns (versions: seq<string>)
    ensures versions == Versions(slices)
  {
    versions := [];
    for i := 0 to |slices|
      invariant versions == Versions(slices)[..i]
    {
      versions := versions + [slices[i].resourceVersion];
    }
  }

  /** makeServiceLoadAssignment. */
  method MakeServiceLoadAssignment(node: Node, ref: ParsedBackendName, listener: Listener, backend: Backend,
                                   slices: seq<EndpointSlice>)
    returns (r: Result<(ClusterLoadAssignment, seq<string>)>)
    requires backend.service.Some?
    ensures r == LoadAssignment(node, ref, listener, backend, Reads(slices, Queries(listener, backend)))
  {
    var svc := backend.service.value;
    if !ValidLabelValue(svc.name) {
      return Err;
    }
    var selected := Select(slices, ServiceQuery(listener, svc));
    assert Reads(slices, Queries(listener, backend)) == [selected];
    var groups := MakeServiceEndpoints(node, svc, selected);
    if groups.Err? {
      return Err;
    }
    var versions := SliceVersions(selected);
    r := Ok((ClusterLoadAssignment(ref.Print(), groups.value), versions));
  }

  /** One pass of the loop of makeLocalitiesLoadAssignment: one lister call, one flat locality. */
  method MakeLocality(listener: Listener, loc: Locality, slices: seq<EndpointSlice>)
    returns (r: Result<LocalityLbEndpoints>, versions: seq<string>)
    ensures r == LocalityResult(loc, Select(slices, ServiceQuery(listener, loc.service)))
    ensures versions == Versions(Select(slices, ServiceQuery(listener, loc.service)))
  {
    var selected := Select(slices, ServiceQuery(listener, loc.service));
    versions := SliceVersions(selected);
    if !ValidLabelValue(loc.service.name) {
      return Err, versions;
    }
    r := MakeFlatLocalityLbEndpoints(loc.service, selected, loc.weight, loc.priority);
  }

  ghost predicate AreLocalities(locs: seq<Locality>, found: seq<seq<EndpointSlice>>, eps: seq<LocalityLbEndpoints>)
    requires |locs| == |found|
  {
    && |eps| <= |locs|
    && forall k :: 0 <= k < |eps| ==> LocalityResult(locs[k], found[k]) == Ok(eps[k])
  }

  lemma LocalitiesComplete(locs: seq<Locality>, found: seq<seq<EndpointSlice>>, eps: seq<LocalityLbEndpoints>)
    requires |locs| == |found| && AreLocalities(locs, found, eps)
    ensures |eps| == |locs| ==> LocalitiesEndpoints(locs, found) == Ok(eps)
    ensures |eps| < |locs| && LocalityResult(locs[|eps|], found[|eps|]).Err? ==> LocalitiesEndpoints(locs, found).Err?
  {
    if |eps| == |locs| {
      assert forall k :: 0 <= k < |locs| ==> LocalityResult(locs[k], found[k]).Ok?;
      assert LocalitiesEndpoints(locs, found).value == eps;
    }
  }

  /** The loop of makeLocalitiesLoadAssignment. */
  method CollectLocalities(listener: Listener, locs: seq<Locality>, slices: seq<EndpointSlice>,
                           ghost found: seq<seq<EndpointSlice>>)
    returns (endpoints: Result<seq<LocalityLbEndpoints>>, versions: seq<string>)
    requires |found| == |locs|
    requires forall i :: 0 <= i < |locs| ==> found[i] == Select(slices, ServiceQuery(listener, locs[i].service))
    ensures endpoints == LocalitiesEndpoints(locs, found)
    ensures endpoints.Ok? ==> versions == LocalityVersions(found)
  {
    hide LocalityResult;
    hide LocalitiesEndpoints;
    hide Select;
    hide ServiceQuery;
    hide Versions;
    var eps: seq<LocalityLbEndpoints> := [];
    versions := [];
    for i := 0 to |locs|
      invariant |eps| == i && AreLocalities(locs, found, eps)
      invariant versions == LocalityVersions(found[..i])
    {
      var r, more := MakeLocality(listener, locs[i], slices);
      if r.Err? {
        LocalitiesComplete(locs, found, eps);
        return Err, [];
      }
      eps := eps + [r.value];
      versions := versions + more;
      assert found[..i + 1][..i] == found[..i];
    }
    assert found[..|locs|] == found;
    LocalitiesComplete(locs, found, eps);
    endpoints := Ok(eps);
  }

  /** makeLocalitiesLoadAssignment. */
  method MakeLocalitiesLoadAssignment(node: Node, ref: ParsedBackendName, listener: Listener, backend: Backend,
                                      slices: seq<EndpointSlice>)
    returns (r: Result<(ClusterLoadAssignment, seq<string>)>)
    requires backend.service.None? && backend.localities != []
    ensures r == LoadAssignment(node, ref, listener, backend, Reads(slices, Queries(listener, backend)))
  {
    var endpoints, versions :=
      CollectLocalities(listener, backend.localities, slices, Reads(slices, Queries(listener, backend)));
    if endpoints.Err? {
      return Err;
    }
    r := Ok((ClusterLoadAssignment(ref.Print(), endpoints.value), versions));
  }

  /** makeLoadAssignment. */
  method MakeLoadAssignment(node: Node, ref: ParsedBackendName, listener: Listener, backend: Backend,
                            slices: seq<EndpointSlice>)
    returns (r: Result<(ClusterLoadAssignment, seq<string>)>)
    ensures r == LoadAssignment(node, ref, listener, backend, Reads(slices, Queries(listener, backend)))
  {
    if backend.service.Some? {
      r := MakeServiceLoadAssignment(node, ref, listener, backend, slices);
    } else if |backend.localities| > 0 {
      r := MakeLocalitiesLoadAssignment(node, ref, listener, backend, slices);
    } else {
      r := Err;
    }
  }

  // ---- CDS ----

  function MakeLbPolicy(policy: string): LbPolicy {
    if EqualFold(policy, "ringhash") || EqualFold(policy, "ring_hash") then RING_HASH else ROUND_ROBIN
  }

  function MakeCluster(name: string, backend: Backend): Cluster {
    Cluster(name, MakeLbPolicy(backend.lbPolicy), name, backend.maxRequests, backend.ringHash)
  }

  // ---- LDS ----

  /** makeFilters: the interceptors' filters, the router last; refused when an interceptor is malformed. */
  function MakeFilters(chain: seq<Interceptor>): Result<seq<string>> {
    if !WellFormedInterceptors(chain) then Err
    else Ok(seq(|chain|, i requires 0 <= i < |chain| => chain[i].config) + ["envoy.filters.http.router"])
  }

  function MakeListenerResource(name: string, listener: Listener): Result<Resource> {
    match (MakeFilters(listener.interceptors), RouteConfigOf(name, listener))
    case (Ok(filters), Ok(config)) => Ok(Lds(name, config, filters))
    case _ => Err
  }

  // ---- one name ----

  /** The listener object that resolving a reference reads. */
  function TargetKey(ref: Ref): Option<Key> {
    match ref.typeUrl
    case ListenerType =>
      (match ParseListenerName(ref.name)
       case Err => None
       case Ok(key) => Some(key))
    case OtherType(_) => None
    case _ =>
      (match ParseBackendName(ref.name)
       case Err => None
       case Ok(p) => Some((p.namespace, p.listenerName)))
  }

  /** Resolving the reference gets as far as an index expression that panics. */
  predicate Panics(store: Store, ref: Ref) {
    && (ref.typeUrl.ClusterType? || ref.typeUrl.EndpointType?)
    && TargetKey(ref).Some? && TargetKey(ref).value in store.listeners
    && FindBackendSpec(ParseBackendName(ref.name).value, store.listeners[TargetKey(ref).value]).OutOfRange?
  }

  /** The references that panic in no store: those without a negative id. */
  predicate InDomain(ref: Ref) {
    (ref.typeUrl.ClusterType? || ref.typeUrl.EndpointType?) && ParseBackendName(ref.name).Ok? ==>
      ParseBackendName(ref.name).value.routeId >= 0 && ParseBackendName(ref.name).value.backendId >= 0
  }

  function TargetBackend(ref: Ref, listener: Listener): Result<Backend>
    requires !ref.typeUrl.ListenerType? && TargetKey(ref).Some?
  {
    match FindBackendSpec(ParseBackendName(ref.name).value, listener)
    case Found(backend) => Ok(backend)
    case _ => Err
  }

  /** The slice lister calls that resolving a reference makes, once it has read the listener. */
  function QueriesFor(ref: Ref, listener: Listener): seq<Query> {
    if ref.typeUrl.EndpointType? && TargetKey(ref).Some? && TargetBackend(ref, listener).Ok?
    then Queries(listener, TargetBackend(ref, listener).value)
    else []
  }

  /** The outcome for one name, from the listener read and the slices each lister call returned. */
  function Finish(node: Node, ref: Ref, listener: Listener, found: seq<seq<EndpointSlice>>): Option<Content>
    requires TargetKey(ref).Some?
    requires |found| == |QueriesFor(ref, listener)|
  {
    match ref.typeUrl
    case ListenerType =>
      (match MakeListenerResource(ref.name, listener)
       case Err => None
       case Ok(resource) => Some(Content(resource, [listener.resourceVersion])))
    case ClusterType =>
      (match TargetBackend(ref, listener)
       case Err => None
       case Ok(backend) => Some(Content(Cds(MakeCluster(ref.name, backend)), [listener.resourceVersion])))
    case _ =>
      match TargetBackend(ref, listener)
      case Err => None
      case Ok(backend) =>
        match LoadAssignment(node, ParseBackendName(ref.name).value, listener, backend, found)
        case Err => None
        case Ok((assignment, versions)) => Some(Content(Eds(assignment), [listener.resourceVersion] + versions))
  }

  /** The content of a reference in a store that does not change meanwhile. */
  function Resolve(store: Store, node: Node, ref: Ref): Option<Content> {
    var key := TargetKey(ref);
    if key.None? || key.value !in store.listeners then None
    else
      var listener := store.listeners[key.value];
      Finish(node, ref, listener, Reads(store.slices, QueriesFor(ref, listener)))
  }

  // ---- whole requests ----

  /** The bytes fed to the version hash: every name's versions, in order and without separators. */
  function HashInput(contents: seq<Content>): string {
    if contents == [] then ""
    else HashInput(contents[..|contents| - 1]) + Flatten(contents[|contents| - 1].versions)
  }

  class ResolveResponse {
    const typeUrl: TypeUrl
    const resources: array<Option<Resource>>
    var hashInput: string

    constructor (typeUrl: TypeUrl, count: nat)
      ensures this.typeUrl == typeUrl && fresh(resources) && resources.Length == count && hashInput == ""
      ensures forall i :: 0 <= i < count ==> resources[i] == None
    {
      this.typeUrl := typeUrl;
      resources := new Option<Resource>[count](_ => None);
      hashInput := "";
    }

    method UseResourceVersion(v: string)
      modifies this`hashInput
      ensures hashInput == old(hashInput) + v
    {
      hashInput := hashInput + v;
    }

    method UseResourceVersions(vs: seq<string>)
      modifies this`hashInput
      ensures hashInput == old(hashInput) + Flatten(vs)
    {
      for i := 0 to |vs|
        invariant hashInput == old(hashInput) + Flatten(vs[..i])
      {
        UseResourceVersion(vs[i]);
        FlattenAppend(vs[..i], [vs[i]]);
        assert vs[..i + 1] == vs[..i] + [vs[i]];
        assert [vs[i]][1..] == [];
      }
      assert vs[..|vs|] == vs;
    }

    /** The first slots and the hash input hold exactly these contents. */
    ghost predicate Holds(contents: seq<Content>)
      reads this, resources
    {
      && |contents| <= resources.Length
      && hashInput == HashInput(contents)
      && forall i :: 0 <= i < |contents| ==> resources[i] == Some(contents[i].resource)
    }
    /** Fills the next slot and feeds the versions to the hash. */
    method Fill(i: nat, content: Content, ghost contents: seq<Content>)
      requires i == |contents| < resources.Length && Holds(contents)
      modifies this`hashInput, resources
      ensures Holds(contents + [content])
    {
      resources[i] := Some(content.resource);
      UseResourceVersions(content.versions);
      assert (contents + [content])[..i] == contents;
    }
  }

  /** The body of a handler's loop for one name: its slot and its versions. */
  method ResolveOne(store: Store, node: Node, ref: Ref) returns (r: Option<Content>)
    requires !ref.typeUrl.OtherType? && !Panics(store, ref)
    ensures r == Resolve(store, node, ref)
  {
    if ref.typeUrl.ListenerType? {
      var key := ParseListenerName(ref.name);
      if key.Err? || key.value !in store.listeners {
        return None;
      }
      var listener := store.listeners[key.value];
      var filters := MakeFilters(listener.interceptors);
      if filters.Err? {
        return None;
      }
      var config := MakeRouteConfig(ref.name, listener);
      if config.Err? {
        return None;
      }
      r := Some(Content(Lds(ref.name, config.value, filters.value), [listener.resourceVersion]));
      return;
    }
    var parsed := ParseBackendName(ref.name);
    if parsed.Err? || (parsed.value.namespace, parsed.value.listenerName) !in store.listeners {
      return None;
    }
    var listener := store.listeners[(parsed.value.namespace, parsed.value.listenerName)];
    var lookup := FindBackendSpec(parsed.value, listener);
    if lookup.NotFound? {
      return None;
    }
    var backend := lookup.backend;
    if ref.typeUrl.ClusterType? {
      r := Some(Content(Cds(MakeCluster(ref.name, backend)), [listener.resourceVersion]));
      return;
    }
    var assignment := MakeLoadAssignment(node, parsed.value, listener, backend, store.slices);
    if assignment.Err? {
      return None;
    }
    r := Some(Content(Eds(assignment.value.0), [listener.resourceVersion] + assignment.value.1));
  }

  predicate AllResolve(store: Store, node: Node, typeUrl: TypeUrl, names: seq<string>) {
    forall i :: 0 <= i < |names| ==> Resolve(store, node, Ref(typeUrl, names[i])).Some?
  }

  /** What the names resolve to, in request order. */
  function ContentsOf(store: Store, node: Node, typeUrl: TypeUrl, names: seq<string>): seq<Content>
    requires AllResolve(store, node, typeUrl, names)
  {
    seq(|names|, i requires 0 <= i < |names| => Resolve(store, node, Ref(typeUrl, names[i])).value)
  }

  lemma ContentsStep(store: Store, node: Node, typeUrl: TypeUrl, names: seq<string>, i: nat, c: Content)
    requires i < |names| && AllResolve(store, node, typeUrl, names[..i])
    requires Resolve(store, node, Ref(typeUrl, names[i])) == Some(c)
    ensures AllResolve(store, node, typeUrl, names[..i + 1])
    ensures ContentsOf(store, node, typeUrl, names[..i + 1]) == ContentsOf(store, node, typeUrl, names[..i]) + [c]
  {
    hide Resolve;
    var upTo := names[..i + 1];
    assert forall k :: 0 <= k < i ==> upTo[k] == names[..i][k];
  }

  /**
   * resolveResource: dispatch by type, then one slot per name in request order. Any name that does not
   * resolve fails the whole request.
   */
  method ResolveResource(store: Store, node: Node, typeUrl: TypeUrl, names: seq<string>)
    returns (r: Result<ResolveResponse>)
    requires forall i :: 0 <= i < |names| ==> !Panics(store, Ref(typeUrl, names[i]))
    ensures r.Ok? <==> !typeUrl.OtherType? && AllResolve(store, node, typeUrl, names)
    ensures r.Ok? ==> r.value.typeUrl == typeUrl && r.value.resources.Length == |names|
    ensures r.Ok? ==> r.value.Holds(ContentsOf(store, node, typeUrl, names))
  {
    hide Resolve;
    hide Panics;
    if typeUrl.OtherType? {
      return Err;
    }
    var response := new ResolveResponse(typeUrl, |names|);
    for i := 0 to |names|
      invariant AllResolve(store, node, typeUrl, names[..i])
      invariant response.Holds(ContentsOf(store, node, typeUrl, names[..i]))
    {
      var content := ResolveOne(store, node, Ref(typeUrl, names[i]));
      if content.None? {
        return Err;
      }
      response.Fill(i, content.value, ContentsOf(store, node, typeUrl, names[..i]));
      ContentsStep(store, node, typeUrl, names, i, content.value);
    }
    assert names[..|names|] == names;
    r := Ok(response);
  }
}
