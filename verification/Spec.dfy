/** The API objects the control plane reads: GRPCListener specs and Kubernetes EndpointSlices. */
module Spec {
  import opened Common

  newtype int32 = x: int | -0x8000_0000 <= x < 0x8000_0000
  newtype int64 = x: int | -0x8000_0000_0000_0000 <= x < 0x8000_0000_0000_0000

  // ---- GRPCListener ----

  datatype PortRef = PortRef(number: int32, name: string)

  datatype ServiceRef = ServiceRef(name: string, namespace: string, port: PortRef)

  datatype Locality = Locality(weight: uint32, priority: uint32, service: ServiceRef)

  datatype RingHashConfig = RingHashConfig(minRingSize: nat, maxRingSize: nat)

  /** An interceptor is opaque: either one that translates to a filter configuration, or a malformed one. */
  datatype Interceptor = Fault(config: string) | Malformed

  datatype Backend = Backend(
    weight: uint32,
    maxRequests: Option<uint32>,
    lbPolicy: string,
    ringHash: Option<RingHashConfig>,
    interceptors: seq<Interceptor>,
    service: Option<ServiceRef>,
    localities: seq<Locality>)

  datatype RegexMatcher = RegexMatcher(regex: string, engine: string)

  datatype RangeMatcher = RangeMatcher(start: int64, end: int64)

  datatype MetadataMatcher = MetadataMatcher(
    name: string,
    exact: Option<string>,
    regex: Option<RegexMatcher>,
    range: Option<RangeMatcher>,
    present: Option<bool>,
    prefix: Option<string>,
    suffix: Option<string>,
    invert: bool)

  datatype MethodMatcher = MethodMatcher(namespace: string, service: string, methodName: string)

  datatype ServiceMatcher = ServiceMatcher(namespace: string, service: string)

  datatype Fraction = Fraction(numerator: uint32, denominator: string)

  datatype RouteMatcher = RouteMatcher(
    methodMatcher: Option<MethodMatcher>,
    serviceMatcher: Option<ServiceMatcher>,
    namespaceMatcher: Option<string>,
    metadata: seq<MetadataMatcher>,
    fraction: Option<Fraction>)

  datatype HashPolicy = HashPolicy(metadata: string, channel: Option<bool>, terminal: bool)

  datatype Route = Route(
    matcher: Option<RouteMatcher>,
    interceptors: seq<Interceptor>,
    hashPolicy: seq<HashPolicy>,
    backends: seq<Backend>)

  datatype Listener = Listener(
    namespace: string,
    name: string,
    resourceVersion: string,
    interceptors: seq<Interceptor>,
    routes: seq<Route>)

  // ---- EndpointSlice ----

  datatype EndpointPort = EndpointPort(name: Option<string>, port: Option<int32>)

  datatype Endpoint = Endpoint(
    addresses: seq<string>,
    ready: Option<bool>,
    hints: Option<seq<string>>,
    zone: Option<string>)

  datatype EndpointSlice = EndpointSlice(
    namespace: string,
    name: string,
    resourceVersion: string,
    serviceName: Option<string>,   // the kubernetes.io/service-name label
    ports: seq<EndpointPort>,
    endpoints: seq<Endpoint>)

  // ---- the xDS node of a request ----

  datatype Node = Node(zone: Option<string>)   // None: the node carries no locality
}
