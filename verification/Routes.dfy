/** Translation of a GRPCListener's routes into an xDS route configuration. */
module Routes {
  import opened Common
  import opened Paths
  import opened Names
  import opened Spec

  // ---- the xDS side ----

  datatype PathSpecifier = Path(path: string) | Prefix(prefix: string)

  datatype HeaderSpecifier =
    | ExactMatch(exact: string)
    | SafeRegexMatch(regex: string)
    | RangeMatch(start: int64, end: int64)
    | PresentMatch(present: bool)
    | PrefixMatch(prefix: string)
    | SuffixMatch(suffix: string)

  datatype HeaderMatcher = HeaderMatcher(name: string, invert: bool, specifier: HeaderSpecifier)

  datatype Denominator = HUNDRED | TEN_THOUSAND | MILLION

  datatype FractionalPercent = FractionalPercent(numerator: uint32, denominator: Denominator)

  datatype RouteMatch = RouteMatch(
    path: PathSpecifier, headers: seq<HeaderMatcher>, runtimeFraction: Option<FractionalPercent>)

  datatype HashPolicySpecifier =
    | Header(headerName: string, terminal: bool)
    | FilterState(key: string, terminal: bool)

  datatype ClusterWeight = ClusterWeight(name: string, weight: uint32, overrides: map<string, string>)

  datatype WeightedCluster = WeightedCluster(totalWeight: uint32, clusters: seq<ClusterWeight>)

  datatype XdsRoute = XdsRoute(
    routeMatch: RouteMatch,
    overrides: map<string, string>,
    hashPolicy: seq<HashPolicySpecifier>,
    weightedClusters: WeightedCluster)

  datatype RouteConfig = RouteConfig(name: string, vhostName: string, domain: string, routes: seq<XdsRoute>)

  const FAULT_FILTER := "envoy.filters.http.fault"

  // ---- matchers ----

  function MethodPath(m: MethodMatcher): string {
    "/" + PathJoin([m.namespace + "." + m.service, m.methodName])
  }

  function ServicePrefix(m: ServiceMatcher): string {
    "/" + m.namespace + "." + m.service
  }

  function PathSpecifierOf(m: RouteMatcher): PathSpecifier {
    if m.methodMatcher.Some? then Path(MethodPath(m.methodMatcher.value))
    else if m.serviceMatcher.Some? then Prefix(ServicePrefix(m.serviceMatcher.value))
    else if m.namespaceMatcher.Some? then Prefix("/" + m.namespaceMatcher.value)
    else Prefix("/")
  }

  function UpperCase(s: string): string {
    Map(s, (c: char) => if 'a' <= c <= 'z' then (c as int - 32) as char else c)
  }

  function MakeFractionalPercent(f: Fraction): Result<FractionalPercent> {
    var d := UpperCase(f.denominator);
    if d == "HUNDRED" then Ok(FractionalPercent(f.numerator, HUNDRED))
    else if d == "TEN_THOUSAND" then Ok(FractionalPercent(f.numerator, TEN_THOUSAND))
    else if d == "MILLION" then Ok(FractionalPercent(f.numerator, MILLION))
    else Err
  }

  function MakeMetadataMatcher(m: MetadataMatcher): Result<HeaderMatcher> {
    if m.exact.Some? then Ok(HeaderMatcher(m.name, m.invert, ExactMatch(m.exact.value)))
    else if m.regex.Some? then
      if m.regex.value.engine != "re2" || m.regex.value.regex == "" then Err
      else Ok(HeaderMatcher(m.name, m.invert, SafeRegexMatch(m.regex.value.regex)))
    else if m.range.Some? then Ok(HeaderMatcher(m.name, m.invert, RangeMatch(m.range.value.start, m.range.value.end)))
    else if m.present.Some? then Ok(HeaderMatcher(m.name, m.invert, PresentMatch(m.present.value)))
    else if m.prefix.Some? then Ok(HeaderMatcher(m.name, m.invert, PrefixMatch(m.prefix.value)))
    else if m.suffix.Some? then Ok(HeaderMatcher(m.name, m.invert, SuffixMatch(m.suffix.value)))
    else Err
  }

  /** `routeMatch` is a faithful translation of `spec`; the failure cases are those of its parts. */
  predicate TranslatesMatch(spec: Route, r: Result<RouteMatch>) {
    match spec.matcher
    case None => r == Ok(RouteMatch(Prefix("/"), [], None))
    case Some(m) =>
      var fractionOk := m.fraction.Some? ==> MakeFractionalPercent(m.fraction.value).Ok?;
      var headersOk := forall i :: 0 <= i < |m.metadata| ==> MakeMetadataMatcher(m.metadata[i]).Ok?;
      && (r.Ok? <==> fractionOk && headersOk)
      && (r.Ok? ==>
            && r.value.path == PathSpecifierOf(m)
            && r.value.runtimeFraction == (if m.fraction.Some? then Some(MakeFractionalPercent(m.fraction.value).value)
                                           else None)
            && |r.value.headers| == |m.metadata|
            && forall i :: 0 <= i < |m.metadata| ==> Ok(r.value.headers[i]) == MakeMetadataMatcher(m.metadata[i]))
  }

  /** makeRouteMatch. */
  method MakeRouteMatch(spec: Route) returns (r: Result<RouteMatch>)
    ensures TranslatesMatch(spec, r)
  {
    if spec.matcher.None? {
      return Ok(RouteMatch(Prefix("/"), [], None));
    }
    var m := spec.matcher.value;
    var fraction := None;
    if m.fraction.Some? {
      var f := MakeFractionalPercent(m.fraction.value);
      if f.Err? {
        return Err;
      }
      fraction := Some(f.value);
    }
    var headers: seq<HeaderMatcher> := [];
    for i := 0 to |m.metadata|
      invariant |headers| == i
      invariant forall k :: 0 <= k < i ==> Ok(headers[k]) == MakeMetadataMatcher(m.metadata[k])
    {
      var h := MakeMetadataMatcher(m.metadata[i]);
      if h.Err? {
        return Err;
      }
      headers := headers + [h.value];
    }
    r := Ok(RouteMatch(PathSpecifierOf(m), headers, fraction));
  }

  // ---- filters ----

  predicate WellFormedInterceptors(chain: seq<Interceptor>) {
    forall i :: 0 <= i < |chain| ==> chain[i].Fault?
  }

  /** makeFilterOverrides: one entry per filter name, the last interceptor winning. */
  function MakeFilterOverrides(chain: seq<Interceptor>): Result<map<string, string>> {
    if !WellFormedInterceptors(chain) then Err
    else if chain == [] then Ok(map[])
    else Ok(map[FAULT_FILTER := chain[|chain| - 1].config])
  }

  // ---- weighted clusters ----

  function WeightSum(backends: seq<Backend>): nat {
    if backends == [] then 0
    else WeightSum(backends[..|backends| - 1]) + backends[|backends| - 1].weight as nat
  }

  predicate WellFormedBackends(backends: seq<Backend>) {
    forall i :: 0 <= i < |backends| ==> WellFormedInterceptors(backends[i].interceptors)
  }

  function ClusterWeightOf(namespace: string, name: string, routeId: nat, backendId: nat, b: Backend): ClusterWeight
    requires WellFormedInterceptors(b.interceptors)
  {
    ClusterWeight(BackendName(namespace, name, routeId, backendId), b.weight, MakeFilterOverrides(b.interceptors).value)
  }

  lemma EmptyWeightSum()
    ensures WeightSum([]) == 0
  {}

  lemma WeightSumStep(backends: seq<Backend>, i: nat)
    requires i < |backends|
    ensures WeightSum(backends[..i + 1]) == WeightSum(backends[..i]) + backends[i].weight as nat
  {
    assert backends[..i + 1][..i] == backends[..i];
  }

  /** Adding to a 32-bit counter that wraps around. */
  lemma AddModulo(sum: int, weight: int)
    ensures (sum % UINT32_MODULUS + weight) % UINT32_MODULUS == (sum + weight) % UINT32_MODULUS
  {}

  /** makeWeightedClusters: 32-bit total, one entry per backend in order. */
  method MakeWeightedClusters(namespace: string, name: string, routeId: nat, route: Route)
    returns (r: Result<WeightedCluster>)
    ensures r.Ok? <==> WellFormedBackends(route.backends)
    ensures r.Ok? ==>
              && r.value.totalWeight as int == WeightSum(route.backends) % UINT32_MODULUS
              && (r.value.totalWeight as int == WeightSum(route.backends) <==> WeightSum(route.backends) < UINT32_MODULUS)
              && |r.value.clusters| == |route.backends|
              && forall i :: 0 <= i < |route.backends| ==>
                   r.value.clusters[i] == ClusterWeightOf(namespace, name, routeId, i, route.backends[i])
  {
    hide BackendName;
    hide WeightSum;
    var backends := route.backends;
    assert WeightSum(backends[..0]) == 0 by { EmptyWeightSum(); }
    var total: uint32 := 0;
    var clusters: seq<ClusterWeight> := [];
    for i := 0 to |backends|
      invariant |clusters| == i
      invariant WellFormedBackends(backends[..i])
      invariant total as int == WeightSum(backends[..i]) % UINT32_MODULUS
      invariant forall k :: 0 <= k < i ==>
                  WellFormedInterceptors(backends[k].interceptors) &&
                  clusters[k] == ClusterWeightOf(namespace, name, routeId, k, backends[k])
    {
      var overrides := MakeFilterOverrides(backends[i].interceptors);
      if overrides.Err? {
        return Err;
      }
      ghost var before := WeightSum(backends[..i]);
      total := ((total as int + backends[i].weight as int) % UINT32_MODULUS) as uint32;
      AddModulo(before, backends[i].weight as int);
      WeightSumStep(backends, i);
      clusters := clusters + [ClusterWeight(BackendName(namespace, name, routeId, i), backends[i].weight, overrides.value)];
    }
    assert backends[..|backends|] == backends;
    r := Ok(WeightedCluster(total, clusters));
  }

  /** Where backend `k`'s share of the weights starts. */
  function CutPoint(backends: seq<Backend>, k: nat): nat
    requires k <= |backends|
  {
    WeightSum(backends[..k])
  }

  predicate OwnsDraw(backends: seq<Backend>, k: nat, u: nat)
    requires k < |backends|
  {
    CutPoint(backends, k) <= u < CutPoint(backends, k + 1)
  }

  lemma CutPointStep(backends: seq<Backend>, k: nat)
    requires k < |backends|
    ensures CutPoint(backends, k + 1) == CutPoint(backends, k) + backends[k].weight as nat
  {
    WeightSumStep(backends, k);
  }

  lemma {:induction false} CutPointsAscend(backends: seq<Backend>, j: nat, k: nat)
    requires j <= k <= |backends|
    ensures CutPoint(backends, j) <= CutPoint(backends, k)
    decreases k - j
  {
    if j < k {
      CutPointStep(backends, j);
      CutPointsAscend(backends, j + 1, k);
    }
  }

  lemma {:induction false} FindOwner(backends: seq<Backend>, u: nat, n: nat) returns (k: nat)
    requires n <= |backends| && u < CutPoint(backends, n)
    ensures k < n && OwnsDraw(backends, k, u)
  {
    if u >= CutPoint(backends, n - 1) {
      k := n - 1;
    } else {
      k := FindOwner(backends, u, n - 1);
    }
  }

  /** The cut points divide [0, sum) into one interval per backend, each as long as the backend's weight. */
  lemma {:induction false} WeightsCutTheLine(backends: seq<Backend>, u: nat)
    ensures CutPoint(backends, 0) == 0 && CutPoint(backends, |backends|) == WeightSum(backends)
    ensures forall k :: 0 <= k < |backends| ==>
              CutPoint(backends, k + 1) == CutPoint(backends, k) + backends[k].weight as nat
    ensures u < WeightSum(backends) <==> exists k :: 0 <= k < |backends| && OwnsDraw(backends, k, u)
    ensures forall j, k :: 0 <= j < k < |backends| ==> !(OwnsDraw(backends, j, u) && OwnsDraw(backends, k, u))
  {
    assert backends[..|backends|] == backends;
    forall k | 0 <= k < |backends|
      ensures CutPoint(backends, k + 1) == CutPoint(backends, k) + backends[k].weight as nat
      ensures OwnsDraw(backends, k, u) ==> u < WeightSum(backends)
    {
      CutPointStep(backends, k);
      CutPointsAscend(backends, k + 1, |backends|);
    }
    if u < WeightSum(backends) {
      var k := FindOwner(backends, u, |backends|);
    }
    forall j, k | 0 <= j < k < |backends|
      ensures !(OwnsDraw(backends, j, u) && OwnsDraw(backends, k, u))
    {
      CutPointsAscend(backends, j + 1, k);
    }
  }

  // ---- hash policies ----

  function HashPolicySpecifierOf(p: HashPolicy): Result<HashPolicySpecifier> {
    if p.metadata != "" then Ok(Header(p.metadata, p.terminal))
    else if p.channel == Some(true) then Ok(FilterState("io.grpc.channel_id", p.terminal))
    else Err
  }

  /** makeHashPolicy. */
  method MakeHashPolicy(policies: seq<HashPolicy>) returns (r: Result<seq<HashPolicySpecifier>>)
    ensures r.Ok? <==> forall i :: 0 <= i < |policies| ==> HashPolicySpecifierOf(policies[i]).Ok?
    ensures r.Ok? <==> forall i :: 0 <= i < |policies| ==> policies[i].metadata != "" || policies[i].channel == Some(true)
    ensures r.Ok? ==> |r.value| == |policies|
                      && forall i :: 0 <= i < |policies| ==> Ok(r.value[i]) == HashPolicySpecifierOf(policies[i])
  {
    var result: seq<HashPolicySpecifier> := [];
    for i := 0 to |policies|
      invariant |result| == i
      invariant forall k :: 0 <= k < i ==> Ok(result[k]) == HashPolicySpecifierOf(policies[k])
    {
      var p := HashPolicySpecifierOf(policies[i]);
      if p.Err? {
        return Err;
      }
      result := result + [p.value];
    }
    r := Ok(result);
  }

  // ---- whole routes ----

  predicate TranslatableMatch(spec: Route) {
    spec.matcher.Some? ==>
      && (spec.matcher.value.fraction.Some? ==> MakeFractionalPercent(spec.matcher.value.fraction.value).Ok?)
      && (forall i :: 0 <= i < |spec.matcher.value.metadata| ==>
            MakeMetadataMatcher(spec.matcher.value.metadata[i]).Ok?)
  }

  /** The routes that translate; everything else is refused as a whole. */
  predicate Translatable(spec: Route) {
    && TranslatableMatch(spec)
    && WellFormedInterceptors(spec.interceptors)
    && WellFormedBackends(spec.backends)
    && (forall i :: 0 <= i < |spec.hashPolicy| ==> HashPolicySpecifierOf(spec.hashPolicy[i]).Ok?)
  }

  function RouteMatchOf(spec: Route): (r: RouteMatch)
    requires TranslatableMatch(spec)
    ensures TranslatesMatch(spec, Ok(r))
  {
    match spec.matcher
    case None => RouteMatch(Prefix("/"), [], None)
    case Some(m) =>
      RouteMatch(
        PathSpecifierOf(m),
        seq(|m.metadata|, i requires 0 <= i < |m.metadata| => MakeMetadataMatcher(m.metadata[i]).value),
        if m.fraction.Some? then Some(MakeFractionalPercent(m.fraction.value).value) else None)
  }

  function WeightedClustersOf(namespace: string, name: string, routeId: nat, backends: seq<Backend>): WeightedCluster
    requires WellFormedBackends(backends)
  {
    WeightedCluster(
      (WeightSum(backends) % UINT32_MODULUS) as uint32,
      seq(|backends|, i requires 0 <= i < |backends| => ClusterWeightOf(namespace, name, routeId, i, backends[i])))
  }

  function RouteOf(namespace: string, name: string, routeId: nat, spec: Route): XdsRoute
    requires Translatable(spec)
  {
    XdsRoute(
      RouteMatchOf(spec),
      MakeFilterOverrides(spec.interceptors).value,
      seq(|spec.hashPolicy|, i requires 0 <= i < |spec.hashPolicy| => HashPolicySpecifierOf(spec.hashPolicy[i]).value),
      WeightedClustersOf(namespace, name, routeId, spec.backends))
  }

  predicate TranslatableListener(listener: Listener) {
    forall i :: 0 <= i < |listener.routes| ==> Translatable(listener.routes[i])
  }

  function RouteConfigOf(listenerName: string, listener: Listener): Result<RouteConfig> {
    if !TranslatableListener(listener) then Err
    else Ok(RouteConfig(
              PathJoin([listener.namespace, listener.name, "routeconfig"]),
              PathJoin([listener.namespace, listener.name, "vhost"]),
              listenerName,
              seq(|listener.routes|, i requires 0 <= i < |listener.routes| =>
                RouteOf(listener.namespace, listener.name, i, listener.routes[i]))))
  }

  /** One pass of the loop of makeRouteConfig. */
  method MakeRoute(namespace: string, name: string, routeId: nat, spec: Route) returns (r: Result<XdsRoute>)
    ensures r == if Translatable(spec) then Ok(RouteOf(namespace, name, routeId, spec)) else Err
  {
    var m := MakeRouteMatch(spec);
    if m.Err? {
      return Err;
    }
    var overrides := MakeFilterOverrides(spec.interceptors);
    if overrides.Err? {
      return Err;
    }
    var clusters := MakeWeightedClusters(namespace, name, routeId, spec);
    if clusters.Err? {
      return Err;
    }
    var hashPolicy := MakeHashPolicy(spec.hashPolicy);
    if hashPolicy.Err? {
      return Err;
    }
    r := Ok(XdsRoute(m.value, overrides.value, hashPolicy.value, clusters.value));
    assert m.value.headers == RouteMatchOf(spec).headers;
    assert clusters.value.clusters == WeightedClustersOf(namespace, name, routeId, spec.backends).clusters;
    assert r.value == RouteOf(namespace, name, routeId, spec);
  }

  /** makeRouteConfig. */
  method MakeRouteConfig(listenerName: string, listener: Listener) returns (r: Result<RouteConfig>)
    ensures r == RouteConfigOf(listenerName, listener)
    ensures r.Ok? ==> r.value.domain == listenerName && |r.value.routes| == |listener.routes|
  {
    var routes: seq<XdsRoute> := [];
    for i := 0 to |listener.routes|
      invariant |routes| == i
      invariant forall k :: 0 <= k < i ==>
                  Translatable(listener.routes[k]) &&
                  routes[k] == RouteOf(listener.namespace, listener.name, k, listener.routes[k])
    {
      var route := MakeRoute(listener.namespace, listener.name, i, listener.routes[i]);
      if route.Err? {
        return Err;
      }
      routes := routes + [route.value];
    }
    r := Ok(RouteConfig(
              PathJoin([listener.namespace, listener.name, "routeconfig"]),
              PathJoin([listener.namespace, listener.name, "vhost"]),
              listenerName,
              routes));
    assert r.value.routes == RouteConfigOf(listenerName, listener).value.routes;
  }
}
