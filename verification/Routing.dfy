/** Routing meaning: which route a call takes, by the spec and by the translated configuration. */
module Routing {
  import opened Common
  import opened Text
  import opened Paths
  import opened Names
  import opened Backends
  import opened Spec
  import opened Routes
  import opened Refusals

  /** An outgoing call. Each route draws a number below one million for its fraction. */
  datatype Call = Call(path: string, metadata: map<string, string>)

  const DRAW_RANGE := 1_000_000

  /** Regular expression evaluation is a parameter: regex, value -> matches. */
  type Regex = (string, string) -> bool

  function FirstTrue(verdicts: seq<bool>): (r: Option<nat>)
    ensures r.None? ==> forall i :: 0 <= i < |verdicts| ==> !verdicts[i]
    ensures r.Some? ==> r.value < |verdicts| && verdicts[r.value]
                        && forall i :: 0 <= i < r.value ==> !verdicts[i]
  {
    if verdicts == [] then None
    else if verdicts[0] then Some(0)
    else
      match FirstTrue(verdicts[1..])
      case None => assert forall i :: 0 < i < |verdicts| ==> verdicts[i] == verdicts[1..][i - 1]; None
      case Some(n) => assert forall i :: 0 < i <= n + 1 ==> verdicts[i] == verdicts[1..][i - 1]; Some(n + 1)
  }

  predicate HasSuffix(s: string, suffix: string) {
    |suffix| <= |s| && s[|s| - |suffix|..] == suffix
  }

  predicate InRange(s: string, start: int64, end: int64) {
    Atoi(s).Some? && start as int <= Atoi(s).value < end as int
  }

  // ---- by the spec ----

  predicate SpecPathMatches(m: RouteMatcher, path: string) {
    if m.methodMatcher.Some? then
      path == "/" + m.methodMatcher.value.namespace + "." + m.methodMatcher.value.service
              + "/" + m.methodMatcher.value.methodName
    else if m.serviceMatcher.Some? then
      "/" + m.serviceMatcher.value.namespace + "." + m.serviceMatcher.value.service <= path
    else if m.namespaceMatcher.Some? then "/" + m.namespaceMatcher.value <= path
    else true
  }

  /** The first criterion that is set decides; a missing header only satisfies a presence test. */
  predicate SpecMetadataMatches(m: MetadataMatcher, metadata: map<string, string>, rx: Regex) {
    if m.name !in metadata then
      m.exact.None? && m.regex.None? && m.range.None? && m.present.Some? && (!m.present.value) != m.invert
    else
      var v := metadata[m.name];
      m.invert !=
      (if m.exact.Some? then v == m.exact.value
       else if m.regex.Some? then rx(m.regex.value.regex, v)
       else if m.range.Some? then InRange(v, m.range.value.start, m.range.value.end)
       else if m.present.Some? then m.present.value
       else if m.prefix.Some? then m.prefix.value <= v
       else m.suffix.Some? && HasSuffix(v, m.suffix.value))
  }

  function SpecDenominator(name: string): nat {
    if SameText(name, "HUNDRED") then 100 else if SameText(name, "TEN_THOUSAND") then 10_000 else 1_000_000
  }

  /** The conditions of a matcher beyond the path. */
  predicate SpecConditions(m: RouteMatcher, call: Call, draw: nat, rx: Regex) {
    && (forall i :: 0 <= i < |m.metadata| ==> SpecMetadataMatches(m.metadata[i], call.metadata, rx))
    && (m.fraction.Some? ==>
          draw * SpecDenominator(m.fraction.value.denominator) < m.fraction.value.numerator as nat * DRAW_RANGE)
  }

  predicate SpecMatches(route: Route, call: Call, draw: nat, rx: Regex) {
    route.matcher.Some? ==>
      SpecPathMatches(route.matcher.value, call.path) && SpecConditions(route.matcher.value, call, draw, rx)
  }

  function SpecVerdicts(listener: Listener, call: Call, draws: seq<nat>, rx: Regex): seq<bool>
    requires |draws| == |listener.routes|
  {
    seq(|draws|, i requires 0 <= i < |draws| => SpecMatches(listener.routes[i], call, draws[i], rx))
  }

  function SpecRoute(listener: Listener, call: Call, draws: seq<nat>, rx: Regex): Option<nat>
    requires |draws| == |listener.routes|
  {
    FirstTrue(SpecVerdicts(listener, call, draws, rx))
  }

  // ---- by the xDS configuration, as gRFC A28 reads it ----

  predicate XdsPathMatches(p: PathSpecifier, path: string) {
    match p
    case Path(exact) => path == exact
    case Prefix(prefix) => prefix <= path
  }

  predicate HeaderValueMatches(spec: HeaderSpecifier, v: string, rx: Regex) {
    match spec
    case ExactMatch(exact) => v == exact
    case SafeRegexMatch(regex) => rx(regex, v)
    case RangeMatch(start, end) => InRange(v, start, end)
    case PresentMatch(present) => present
    case PrefixMatch(prefix) => prefix <= v
    case SuffixMatch(suffix) => HasSuffix(v, suffix)
  }

  predicate XdsHeaderMatches(h: HeaderMatcher, metadata: map<string, string>, rx: Regex) {
    if h.name in metadata then HeaderValueMatches(h.specifier, metadata[h.name], rx) != h.invert
    else h.specifier.PresentMatch? && (!h.specifier.present) != h.invert
  }

  function DenominatorValue(d: Denominator): nat {
    match d
    case HUNDRED => 100
    case TEN_THOUSAND => 10_000
    case MILLION => 1_000_000
  }

  predicate XdsMatches(m: RouteMatch, call: Call, draw: nat, rx: Regex) {
    && XdsPathMatches(m.path, call.path)
    && (forall i :: 0 <= i < |m.headers| ==> XdsHeaderMatches(m.headers[i], call.metadata, rx))
    && (m.runtimeFraction.Some? ==>
          draw * DenominatorValue(m.runtimeFraction.value.denominator)
          < m.runtimeFraction.value.numerator as nat * DRAW_RANGE)
  }

  function XdsVerdicts(config: RouteConfig, call: Call, draws: seq<nat>, rx: Regex): seq<bool>
    requires |draws| == |config.routes|
  {
    seq(|draws|, i requires 0 <= i < |draws| => XdsMatches(config.routes[i].routeMatch, call, draws[i], rx))
  }

  /** A client that dialled `authority` looks for a virtual host with that domain, then for the first route. */
  function XdsRouteFor(config: RouteConfig, authority: string, call: Call, draws: seq<nat>, rx: Regex): Option<nat>
    requires |draws| == |config.routes|
  {
    if config.domain != authority then None else FirstTrue(XdsVerdicts(config, call, draws, rx))
  }

  // ---- the translation preserves the meaning ----

  function MethodText(m: MethodMatcher): string {
    m.namespace + "." + m.service + "/" + m.methodName
  }

  /** Method matchers go through path.Join, which leaves exactly the clean texts alone. */
  predicate CleanMethod(route: Route) {
    route.matcher.Some? && route.matcher.value.methodMatcher.Some? ==>
      IsClean(MethodText(route.matcher.value.methodMatcher.value))
  }

  lemma MethodPathIsClean(m: MethodMatcher)
    ensures MethodPath(m) == "/" + Clean(MethodText(m))
  {
    var svc := m.namespace + "." + m.service;
    var elems := [svc, m.methodName];
    assert svc[|m.namespace|] == '.';
    assert elems[1..] == [m.methodName] && elems[1..][1..] == [];
    assert JoinRaw(elems, "") == JoinRaw([m.methodName], svc) == svc + "/" + m.methodName;
    assert elems[0] != "";
    assert svc + "/" + m.methodName == MethodText(m);
  }

  /** A method matcher means its own text exactly when that text is a clean path. */
  lemma MethodPathExact(m: MethodMatcher)
    ensures MethodPath(m) == "/" + MethodText(m) <==> IsClean(MethodText(m))
  {
    MethodPathIsClean(m);
    CleanFixesExactlyCleanPaths(MethodText(m));
    assert MethodPath(m)[1..] == Clean(MethodText(m));
    assert ("/" + MethodText(m))[1..] == MethodText(m);
  }

  /** An unclean method matcher is read as another path: its own text is lost, the cleaned one taken over. */
  predicate Misread(m: RouteMatcher, path: string) {
    && m.methodMatcher.Some?
    && var text := MethodText(m.methodMatcher.value);
       !IsClean(text) && (path == "/" + text || path == "/" + Clean(text))
  }

  lemma PathPreserved(m: RouteMatcher, path: string)
    requires "/" <= path
    ensures (XdsPathMatches(PathSpecifierOf(m), path) <==> SpecPathMatches(m, path)) <==> !Misread(m, path)
  {
    if m.methodMatcher.Some? {
      var mm := m.methodMatcher.value;
      MethodPathExact(mm);
      MethodPathIsClean(mm);
      assert "/" + MethodText(mm) == "/" + mm.namespace + "." + mm.service + "/" + mm.methodName;
    }
  }

  lemma HeaderPreserved(m: MetadataMatcher, metadata: map<string, string>, rx: Regex)
    requires MakeMetadataMatcher(m).Ok?
    ensures XdsHeaderMatches(MakeMetadataMatcher(m).value, metadata, rx) <==> SpecMetadataMatches(m, metadata, rx)
  {}

  predicate MisreadRoute(route: Route, call: Call, draw: nat, rx: Regex) {
    && route.matcher.Some? && Misread(route.matcher.value, call.path)
    && SpecConditions(route.matcher.value, call, draw, rx)
  }

  /** The two verdicts on a route agree exactly unless its method matcher is misread for this call. */
  lemma FractionPreserved(f: Fraction)
    requires MakeFractionalPercent(f).Ok?
    ensures MakeFractionalPercent(f).value.numerator == f.numerator
    ensures DenominatorValue(MakeFractionalPercent(f).value.denominator) == SpecDenominator(f.denominator)
  {
    FractionIs(f);
    hide SameText;
  }

  lemma MatchPreserved(route: Route, call: Call, draw: nat, rx: Regex)
    requires TranslatableMatch(route) && "/" <= call.path
    ensures (XdsMatches(RouteMatchOf(route), call, draw, rx) <==> SpecMatches(route, call, draw, rx))
       <==> !MisreadRoute(route, call, draw, rx)
  {
    if route.matcher.Some? {
      var m := route.matcher.value;
      var r := RouteMatchOf(route);
      PathPreserved(m, call.path);
      if m.fraction.Some? {
        FractionPreserved(m.fraction.value);
      }
      forall i | 0 <= i < |m.metadata|
        ensures XdsHeaderMatches(r.headers[i], call.metadata, rx) <==> SpecMetadataMatches(m.metadata[i], call.metadata, rx)
      {
        HeaderPreserved(m.metadata[i], call.metadata, rx);
      }
      hide Misread;
      hide PathSpecifierOf;
      hide SpecMetadataMatches;
      hide XdsHeaderMatches;
      hide SpecPathMatches;
      hide XdsPathMatches;
      hide MakeFractionalPercent;
      hide SpecDenominator;
      hide DenominatorValue;
    }
  }

  /** Every cluster name of route `i` leads back to the backend the spec lists at that position. */
  predicate ClustersLeadBack(listener: Listener, config: RouteConfig, i: nat)
    requires i < |listener.routes| && i < |config.routes|
  {
    var clusters := config.routes[i].weightedClusters.clusters;
    && |clusters| == |listener.routes[i].backends|
    && forall k :: 0 <= k < |clusters| ==>
         var parsed := ParseBackendName(clusters[k].name);
         && parsed == Ok(ParsedBackendName(listener.namespace, listener.name, i, k))
         && FindBackendSpec(parsed.value, listener) == Found(listener.routes[i].backends[k])
         && clusters[k].weight == listener.routes[i].backends[k].weight
  }

  lemma ClusterNamesLeadBack(listenerName: string, listener: Listener, i: nat)
    requires WellNamed(listener) && TranslatableListener(listener) && i < |listener.routes|
    ensures ClustersLeadBack(listener, RouteConfigOf(listenerName, listener).value, i)
  {
    var config := RouteConfigOf(listenerName, listener).value;
    var clusters := config.routes[i].weightedClusters.clusters;
    forall k | 0 <= k < |clusters|
      ensures ParseBackendName(clusters[k].name) == Ok(ParsedBackendName(listener.namespace, listener.name, i, k))
    {
      BackendNameRoundTrip(listener.namespace, listener.name, i, k);
    }
  }

  lemma FirstTrueAgrees(a: seq<bool>, b: seq<bool>)
    requires |a| == |b|
    ensures FirstTrue(a) == FirstTrue(b) <==>
            forall i :: 0 <= i < |a| && a[i] != b[i] ==> exists j :: 0 <= j < i && a[j] && b[j]
  {
    if FirstTrue(a) == FirstTrue(b) {
      forall i | 0 <= i < |a| && a[i] != b[i]
        ensures exists j :: 0 <= j < i && a[j] && b[j]
      {
        var f := FirstTrue(a).value;
        assert a[f] && b[f] && f < i;
      }
    } else {
      var fa, fb := FirstTrue(a), FirstTrue(b);
      var i := if fb.None? || (fa.Some? && fa.value < fb.value) then fa.value else fb.value;
      assert a[i] != b[i] && forall j :: 0 <= j < i ==> !a[j] && !b[j];
    }
  }

  /** Whenever a route is misread, an earlier route that is read rightly has already taken the call. */
  predicate MisreadingsAreShadowed(listener: Listener, call: Call, draws: seq<nat>, rx: Regex)
    requires |draws| == |listener.routes|
  {
    forall i :: 0 <= i < |draws| && MisreadRoute(listener.routes[i], call, draws[i], rx) ==>
      exists j :: 0 <= j < i && SpecMatches(listener.routes[j], call, draws[j], rx)
                  && !MisreadRoute(listener.routes[j], call, draws[j], rx)
  }

  /**
   * Routing meaning is preserved: for every translated listener and every call to the name it was asked for by,
   * the configuration picks the route the spec picks exactly unless an unclean method matcher is misread before any other route takes the
   * call; and the clusters of every route are the spec's backends, in order.
   */
  lemma RoutingIsPreserved(listenerName: string, listener: Listener, call: Call, draws: seq<nat>, rx: Regex)
    requires RouteConfigOf(listenerName, listener).Ok? && WellNamed(listener)
    requires |draws| == |listener.routes| && "/" <= call.path
    ensures var config := RouteConfigOf(listenerName, listener).value;
            && |config.routes| == |listener.routes|
            && (forall authority :: authority != listenerName ==> XdsRouteFor(config, authority, call, draws, rx) == None)
            && (XdsRouteFor(config, listenerName, call, draws, rx) == SpecRoute(listener, call, draws, rx) <==>
                MisreadingsAreShadowed(listener, call, draws, rx))
            && forall i :: 0 <= i < |listener.routes| ==> ClustersLeadBack(listener, config, i)
  {
    var config := RouteConfigOf(listenerName, listener).value;
    var xds, spec := XdsVerdicts(config, call, draws, rx), SpecVerdicts(listener, call, draws, rx);
    forall i | 0 <= i < |listener.routes|
      ensures spec[i] == SpecMatches(listener.routes[i], call, draws[i], rx)
      ensures xds[i] != spec[i] <==> MisreadRoute(listener.routes[i], call, draws[i], rx)
      ensures ClustersLeadBack(listener, config, i)
    {
      MatchPreserved(listener.routes[i], call, draws[i], rx);
      ClusterNamesLeadBack(listenerName, listener, i);
    }
    FirstTrueAgrees(xds, spec);
    hide MisreadRoute;
    hide SpecMatches;
    hide XdsMatches;
    hide ClustersLeadBack;
  }

  /** With clean method texts only, no call is routed differently. */
  lemma CleanMethodsRouteAlike(listenerName: string, listener: Listener, call: Call, draws: seq<nat>, rx: Regex)
    requires RouteConfigOf(listenerName, listener).Ok? && WellNamed(listener)
    requires |draws| == |listener.routes| && "/" <= call.path
    requires forall i :: 0 <= i < |listener.routes| ==> CleanMethod(listener.routes[i])
    ensures XdsRouteFor(RouteConfigOf(listenerName, listener).value, listenerName, call, draws, rx) == SpecRoute(listener, call, draws, rx)
  {
    RoutingIsPreserved(listenerName, listener, call, draws, rx);
  }

  /** Any unclean method text loses a call: alone in a listener, the spec's own path takes no route. */
  lemma UncleanMethodIsLost(listenerName: string, listener: Listener, metadata: map<string, string>, rx: Regex)
    requires RouteConfigOf(listenerName, listener).Ok? && WellNamed(listener) && |listener.routes| == 1
    requires var route := listener.routes[0];
             && !CleanMethod(route) && route.matcher.value.metadata == [] && route.matcher.value.fraction.None?
    ensures var call := Call("/" + MethodText(listener.routes[0].matcher.value.methodMatcher.value), metadata);
            && SpecRoute(listener, call, [0], rx) == Some(0)
            && XdsRouteFor(RouteConfigOf(listenerName, listener).value, listenerName, call, [0], rx) == None
  {
    var mm := listener.routes[0].matcher.value.methodMatcher.value;
    MethodPathExact(mm);
    assert "/" + MethodText(mm) == "/" + mm.namespace + "." + mm.service + "/" + mm.methodName;
    var call := Call("/" + MethodText(mm), metadata);
    assert SpecVerdicts(listener, call, [0], rx) == [true];
    assert XdsVerdicts(RouteConfigOf(listenerName, listener).value, call, [0], rx) == [false];
  }

  // ---- nesting of matchers ----

  /** `broad` has no further condition and names the namespace or service that `narrow` lives in. */
  predicate Encloses(broad: RouteMatcher, narrow: RouteMatcher) {
    && broad.metadata == [] && broad.fraction.None?
    && (if broad.methodMatcher.Some? then false
        else if broad.serviceMatcher.Some? then
          var s := broad.serviceMatcher.value;
          if narrow.methodMatcher.Some?
          then narrow.methodMatcher.value.namespace == s.namespace && narrow.methodMatcher.value.service == s.service
          else narrow.serviceMatcher == Some(s)
        else if broad.namespaceMatcher.Some? then
          var n := broad.namespaceMatcher.value;
          if narrow.methodMatcher.Some? then narrow.methodMatcher.value.namespace == n
          else if narrow.serviceMatcher.Some? then narrow.serviceMatcher.value.namespace == n
          else narrow.namespaceMatcher == Some(n)
        else true)
  }

  lemma EnclosingAcceptsMore(broad: RouteMatcher, narrow: RouteMatcher, path: string)
    requires Encloses(broad, narrow) && "/" <= path
    requires narrow.methodMatcher.Some? ==> IsClean(MethodText(narrow.methodMatcher.value))
    requires XdsPathMatches(PathSpecifierOf(narrow), path)
    ensures XdsPathMatches(PathSpecifierOf(broad), path)
  {
    if narrow.methodMatcher.Some? {
      var m := narrow.methodMatcher.value;
      MethodPathExact(m);
      NestedTexts(m.namespace, m.service, m.methodName);
      hide MethodPath;
      hide IsClean;
      hide MethodText;
      hide ServicePrefix;
      PrefixTransitive("/" + m.namespace, ServicePrefix(ServiceMatcher(m.namespace, m.service)), path);
    } else if narrow.serviceMatcher.Some? {
      var s := narrow.serviceMatcher.value;
      NestedTexts(s.namespace, s.service, "");
      hide ServicePrefix;
      PrefixTransitive("/" + s.namespace, ServicePrefix(s), path);
    }
  }

  /** A method's text extends its service's, which extends its namespace's. */
  lemma NestedTexts(namespace: string, service: string, name: string)
    ensures var svc := ServicePrefix(ServiceMatcher(namespace, service));
            "/" + namespace <= svc && svc <= "/" + MethodText(MethodMatcher(namespace, service, name))
  {
    var svc := "/" + namespace + "." + service;
    assert svc == ("/" + namespace) + ("." + service);
    assert "/" + MethodText(MethodMatcher(namespace, service, name)) == svc + ("/" + name);
  }

  lemma PrefixTransitive(a: string, b: string, c: string)
    ensures a <= b && b <= c ==> a <= c
  {}

  /** An earlier unconditional broader route shadows every later narrower one, for every call. */
  lemma BroaderRouteShadows(
    listenerName: string, listener: Listener, i: nat, j: nat, call: Call, draws: seq<nat>, rx: Regex)
    requires RouteConfigOf(listenerName, listener).Ok? && |draws| == |listener.routes| && "/" <= call.path
    requires i < j < |listener.routes| && CleanMethod(listener.routes[j])
    requires listener.routes[j].matcher.Some?
    requires listener.routes[i].matcher.None? || Encloses(listener.routes[i].matcher.value, listener.routes[j].matcher.value)
    ensures XdsRouteFor(RouteConfigOf(listenerName, listener).value, listenerName, call, draws, rx) != Some(j)
  {
    var config := RouteConfigOf(listenerName, listener).value;
    var narrow := listener.routes[j].matcher.value;
    if XdsMatches(config.routes[j].routeMatch, call, draws[j], rx) && listener.routes[i].matcher.Some? {
      EnclosingAcceptsMore(listener.routes[i].matcher.value, narrow, call.path);
    }
    var verdicts := XdsVerdicts(config, call, draws, rx);
    assert verdicts[j] ==> verdicts[i];
  }
}
