/** The backends of a listener, and how a parsed name is looked up among them. */
module Backends {
  import opened Text
  import opened Names
  import opened Spec

  /** A listener as the API server stores it: a name that prints, and lengths that are Go ints. */
  predicate WellNamed(listener: Listener) {
    && RoundTrips(listener.namespace, listener.name)
    && |listener.routes| <= MAX_INT
    && forall i :: 0 <= i < |listener.routes| ==> |listener.routes[i].backends| <= MAX_INT
  }

  predicate HasBackend(listener: Listener, r: int, b: int) {
    0 <= r < |listener.routes| && 0 <= b < |listener.routes[r].backends|
  }

  /** `OutOfRange` is an index expression that panics. */
  datatype Lookup = Found(backend: Backend) | NotFound | OutOfRange

  /** findBackendSpec: both ids are compared with the upper bound only, and then used as indices. */
  function FindBackendSpec(ref: ParsedBackendName, listener: Listener): Lookup {
    if ref.routeId > |listener.routes| - 1 then NotFound
    else if ref.routeId < 0 then OutOfRange
    else
      var backends := listener.routes[ref.routeId].backends;
      if ref.backendId > |backends| - 1 then NotFound
      else if ref.backendId < 0 then OutOfRange
      else Found(backends[ref.backendId])
  }

  /** The look-up finds exactly the listed backends, and panics exactly on these negative ids. */
  lemma LookupIsExact(ref: ParsedBackendName, listener: Listener)
    ensures FindBackendSpec(ref, listener).Found? <==> HasBackend(listener, ref.routeId, ref.backendId)
    ensures HasBackend(listener, ref.routeId, ref.backendId) ==>
              FindBackendSpec(ref, listener).backend == listener.routes[ref.routeId].backends[ref.backendId]
    ensures FindBackendSpec(ref, listener).OutOfRange? <==>
            ref.routeId < 0 || (ref.routeId < |listener.routes| && ref.backendId < 0)
  {}
}
