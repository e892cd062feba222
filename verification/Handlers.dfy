/** The event handlers notify each reference that an event reaches, and each of them once. */
module Handlers {
  import opened Names
  import opened Spec
  import opened Backends
  import opened Resolver
  import opened Notify
  import opened Protocol
  import opened Freshness

  /** How often a sequence of notifications contains a reference. */
  function Times(refs: seq<Ref>, ref: Ref): nat {
    if refs == [] then 0 else Times(refs[..|refs| - 1], ref) + if refs[|refs| - 1] == ref then 1 else 0
  }

  lemma {:induction false} TimesAppend(a: seq<Ref>, b: seq<Ref>, ref: Ref)
    ensures Times(a + b, ref) == Times(a, ref) + Times(b, ref)
  {
    if b == [] {
      assert a + b == a;
    } else {
      assert (a + b)[..|a + b| - 1] == a + b[..|b| - 1];
      TimesAppend(a, b[..|b| - 1], ref);
    }
  }

  lemma {:induction false} TimesMember(refs: seq<Ref>, ref: Ref)
    ensures Times(refs, ref) > 0 <==> ref in refs
  {
    if refs != [] {
      TimesMember(refs[..|refs| - 1], ref);
      assert refs == refs[..|refs| - 1] + [refs[|refs| - 1]];
    }
  }

  /** Appending keeps "at most once" when the two parts have nothing in common. */
  lemma OnceAppend(a: seq<Ref>, b: seq<Ref>, ref: Ref)
    requires Times(a, ref) <= 1 && Times(b, ref) <= 1 && !(ref in a && ref in b)
    ensures Times(a + b, ref) <= 1
  {
    TimesAppend(a, b, ref);
    TimesMember(a, ref);
    TimesMember(b, ref);
  }

  lemma TimesOfOne(x: Ref, ref: Ref)
    ensures Times([x], ref) <= 1
  {
    assert [x][..0] == [];
  }

  lemma PairOnce(x: Ref, y: Ref, ref: Ref)
    requires x != y
    ensures Times([x, y], ref) <= 1 && Times([x], ref) <= 1
  {
    assert [x, y][..1] == [x] && [x][..0] == [];
    assert Times([x], ref) == Times([], ref) + if x == ref then 1 else 0;
    assert Times([x, y], ref) == Times([x], ref) + if y == ref then 1 else 0;
  }

  lemma BackendRefsDiffer(listener: Listener, r1: int, b1: int, r2: int, b2: int, t1: TypeUrl, t2: TypeUrl)
    requires WellNamed(listener) && HasBackend(listener, r1, b1) && HasBackend(listener, r2, b2)
    requires BackendRef(t1, listener, r1, b1) == BackendRef(t2, listener, r2, b2)
    ensures t1 == t2 && r1 == r2 && b1 == b2
  {
    BackendNameInjective(ParsedBackendName(listener.namespace, listener.name, r1, b1),
                         ParsedBackendName(listener.namespace, listener.name, r2, b2));
  }

  // ---- a listener event ----

  lemma {:induction false} RouteRefsOnce(listener: Listener, r: nat, n: nat, ref: Ref)
    requires WellNamed(listener) && r < |listener.routes| && n <= |listener.routes[r].backends|
    ensures Times(RouteRefs(listener, r, n), ref) <= 1
  {
    hide BackendRef;
    hide WellNamed;
    if n > 0 {
      var last := n - 1;
      RouteRefsOnce(listener, r, last, ref);
      RouteRefsAreOwned(listener, r, last, ref);
      var c, e := BackendRef(ClusterType, listener, r, last), BackendRef(EndpointType, listener, r, last);
      assert RouteRefs(listener, r, n) == RouteRefs(listener, r, last) + [c, e];
      if c == e {
        BackendRefsDiffer(listener, r, last, r, last, ClusterType, EndpointType);
      }
      PairOnce(c, e, ref);
      if ref in RouteRefs(listener, r, last) && IsBackendRef(ref, listener, r, last) {
        var b :| 0 <= b < last && IsBackendRef(ref, listener, r, b);
        var t1 := if ref == BackendRef(ClusterType, listener, r, b) then ClusterType else EndpointType;
        var t2 := if ref == c then ClusterType else EndpointType;
        BackendRefsDiffer(listener, r, b, r, last, t1, t2);
      }
      hide RouteRefs;
      hide Times;
      OnceAppend(RouteRefs(listener, r, last), [c, e], ref);
    }
  }

  lemma {:induction false} RoutesRefsOnce(listener: Listener, n: nat, ref: Ref)
    requires WellNamed(listener) && n <= |listener.routes|
    ensures Times(RoutesRefs(listener, n), ref) <= 1
  {
    hide BackendRef;
    hide WellNamed;
    hide Times;
    hide RouteRefs;
    if n == 0 {
      TimesOfOne(ListenerRef(listener), ref);
    } else {
      var r := n - 1;
      var k := |listener.routes[r].backends|;
      RoutesRefsOnce(listener, r, ref);
      RouteRefsOnce(listener, r, k, ref);
      RoutesRefsAreOwned(listener, r, ref);
      RouteRefsAreOwned(listener, r, k, ref);
      if ref in RoutesRefs(listener, r) && ref in RouteRefs(listener, r, k) {
        var b :| 0 <= b < k && IsBackendRef(ref, listener, r, b);
        if ref == ListenerRef(listener) {
          ListenerRefIsNoBackend(listener, r, b);
        } else {
          var r2, b2 :| HasBackend(listener, r2, b2) && r2 < r && IsBackendRef(ref, listener, r2, b2);
          var t1 := if ref == BackendRef(ClusterType, listener, r, b) then ClusterType else EndpointType;
          var t2 := if ref == BackendRef(ClusterType, listener, r2, b2) then ClusterType else EndpointType;
          assert HasBackend(listener, r, b);
          BackendRefsDiffer(listener, r, b, r2, b2, t1, t2);
        }
      }
      OnceAppend(RoutesRefs(listener, r), RouteRefs(listener, r, k), ref);
    }
  }

  lemma ListenerRefIsNoBackend(listener: Listener, r: int, b: int)
    ensures !IsBackendRef(ListenerRef(listener), listener, r, b)
  {
    hide BackendName;
  }

  // ---- a slice event ----

  lemma {:induction false} SliceRouteRefsOnce(m: SliceMeta, listener: Listener, r: nat, n: nat, ref: Ref)
    requires WellNamed(listener) && r < |listener.routes| && n <= |listener.routes[r].backends|
    ensures Times(SliceRouteRefs(m, listener, r, n), ref) <= 1
    ensures ref in SliceRouteRefs(m, listener, r, n) <==> exists b :: 0 <= b < n && SliceHits(m, listener, r, b, ref)
  {
    hide BackendRef;
    hide WellNamed;
    hide MatchesBackend;
    if n > 0 {
      hide Times;
      var last := n - 1;
      var mine := BackendRef(EndpointType, listener, r, last);
      var more := if MatchesBackend(m, listener, listener.routes[r].backends[last]) then [mine] else [];
      assert SliceRouteRefs(m, listener, r, n) == SliceRouteRefs(m, listener, r, last) + more;
      assert ref in more <==> SliceHits(m, listener, r, last, ref);
      hide SliceRouteRefs;
      SliceRouteRefsOnce(m, listener, r, last, ref);
      if ref in SliceRouteRefs(m, listener, r, last) && ref in more {
        var b :| 0 <= b < last && SliceHits(m, listener, r, b, ref);
        BackendRefsDiffer(listener, r, b, r, last, EndpointType, EndpointType);
      }
      hide SliceHits;
      TimesOfOne(mine, ref);
      TimesMember([], ref);
      OnceAppend(SliceRouteRefs(m, listener, r, last), more, ref);
    }
  }

  ghost predicate SliceReachesWithin(m: SliceMeta, listener: Listener, ref: Ref, n: nat) {
    exists r, b :: r < n && SliceHits(m, listener, r, b, ref)
  }

  lemma {:induction false} SliceListenerRefsOnce(m: SliceMeta, listener: Listener, n: nat, ref: Ref)
    requires WellNamed(listener) && n <= |listener.routes|
    ensures Times(SliceListenerRefs(m, listener, n), ref) <= 1
    ensures ref in SliceListenerRefs(m, listener, n) <==> SliceReachesWithin(m, listener, ref, n)
  {
    hide BackendRef;
    hide WellNamed;
    hide MatchesBackend;
    hide SliceRouteRefs;
    if n == 0 {
      assert !SliceReachesWithin(m, listener, ref, 0);
    } else {
      hide Times;
      var r := n - 1;
      var k := |listener.routes[r].backends|;
      var some, more := SliceListenerRefs(m, listener, r), SliceRouteRefs(m, listener, r, k);
      assert SliceListenerRefs(m, listener, n) == some + more;
      SliceListenerRefsOnce(m, listener, r, ref);
      SliceRouteRefsOnce(m, listener, r, k, ref);
      hide SliceListenerRefs;
      if ref in more && ref in some {
        var b :| 0 <= b < k && SliceHits(m, listener, r, b, ref);
        var r2, b2 :| r2 < r && SliceHits(m, listener, r2, b2, ref);
        BackendRefsDiffer(listener, r, b, r2, b2, EndpointType, EndpointType);
      }
      WithinStep(m, listener, ref, r);
      OnceAppend(some, more, ref);
    }
  }

  lemma WithinStep(m: SliceMeta, listener: Listener, ref: Ref, r: nat)
    requires r < |listener.routes|
    ensures SliceReachesWithin(m, listener, ref, r + 1) <==>
            SliceReachesWithin(m, listener, ref, r) ||
            exists b :: 0 <= b < |listener.routes[r].backends| && SliceHits(m, listener, r, b, ref)
  {
    hide BackendRef;
    hide MatchesBackend;
    if SliceReachesWithin(m, listener, ref, r + 1) {
      var r2, b2 :| r2 < r + 1 && SliceHits(m, listener, r2, b2, ref);
    }
  }

  /** The listing holds well-named listeners with distinct keys. */
  ghost predicate DistinctListing(listeners: seq<Listener>) {
    && (forall i :: 0 <= i < |listeners| ==> WellNamed(listeners[i]))
    && (forall i, j :: 0 <= i < j < |listeners| ==> KeyOf(listeners[i]) != KeyOf(listeners[j]))
  }

  lemma {:induction false} SliceRefsOnce(m: SliceMeta, listeners: seq<Listener>, ref: Ref)
    requires DistinctListing(listeners)
    ensures Times(SliceRefs(m, listeners), ref) <= 1
    ensures ref in SliceRefs(m, listeners) <==> exists i :: 0 <= i < |listeners| && SliceReaches(m, listeners[i], ref)
  {
    hide WellNamed;
    hide SliceReaches;
    hide SliceListenerRefs;
    if listeners != [] {
      hide Times;
      var n := |listeners| - 1;
      var rest, last := listeners[..n], listeners[n];
      var more := SliceListenerRefs(m, last, |last.routes|);
      SliceRefsOnce(m, rest, ref);
      SliceListenerRefsOnce(m, last, |last.routes|, ref);
      ReachesWithinAll(m, last, ref);
      assert ref in more <==> SliceReaches(m, last, ref);
      hide SliceReachesWithin;
      if ref in SliceRefs(m, rest) {
        var i :| 0 <= i < |rest| && SliceReaches(m, rest[i], ref);
        assert listeners[i] == rest[i];
        if ref in more {
          OneListenerReached(m, listeners[i], last, ref);
        }
      }
      assert forall i :: 0 <= i < n ==> listeners[i] == rest[i];
      assert SliceRefs(m, listeners) == SliceRefs(m, rest) + more;
      OnceAppend(SliceRefs(m, rest), more, ref);
    }
  }

  lemma OneListenerReached(m: SliceMeta, l1: Listener, l2: Listener, ref: Ref)
    requires WellNamed(l1) && WellNamed(l2) && SliceReaches(m, l1, ref) && SliceReaches(m, l2, ref)
    ensures KeyOf(l1) == KeyOf(l2)
  {
    SliceReachesOwned(m, l1, ref);
    SliceReachesOwned(m, l2, ref);
    hide WellNamed;
    hide SliceReaches;
    OwnerIsTarget(l1, ref);
    OwnerIsTarget(l2, ref);
  }

  lemma ReachesWithinAll(m: SliceMeta, listener: Listener, ref: Ref)
    ensures SliceReachesWithin(m, listener, ref, |listener.routes|) <==> SliceReaches(m, listener, ref)
  {
    hide BackendRef;
    hide MatchesBackend;
  }

  // ---- the protocol's handler step is what the handlers do ----

  /** What the handler of an event notifies, in order, when the lister returns `listing`. */
  function Notified(e: Event, listing: seq<Listener>): seq<Ref> {
    match e
    case ListenerEvent(listener) => RoutesRefs(listener, |listener.routes|)
    case SliceEvent(meta) => SliceRefs(meta, listing)
  }

  ghost predicate Lists(store: Store, listing: seq<Listener>) {
    && DistinctListing(listing)
    && forall listener :: listener in listing <==> (KeyOf(listener) in store.listeners && store.listeners[KeyOf(listener)] == listener)
  }

  /**
   * Whatever order the lister uses, the handler of an event notifies each of the protocol step's references
   * exactly once and no other.
   */
  lemma HandlersNotifyExactlyOnce(store: Store, e: Event, listing: seq<Listener>, ref: Ref)
    requires StoreOk(store) && Lists(store, listing) && (e.ListenerEvent? ==> WellNamed(e.listener))
    ensures Times(Notified(e, listing), ref) == if ref in HandlerRefs(store, e) then 1 else 0
  {
    hide WellNamed;
    hide Times;
    TimesMember(Notified(e, listing), ref);
    match e
    case ListenerEvent(listener) =>
      RoutesRefsOnce(listener, |listener.routes|, ref);
    case SliceEvent(meta) =>
      SliceRefsOnce(meta, listing, ref);
      HandlerRefsOfSlice(store, meta, ref);
      hide SliceReaches;
      hide HandlerRefs;
      if exists i :: 0 <= i < |listing| && SliceReaches(meta, listing[i], ref) {
        var i :| 0 <= i < |listing| && SliceReaches(meta, listing[i], ref);
        assert listing[i] in listing;
      }
  }

  lemma HandlerRefsOfSlice(store: Store, meta: SliceMeta, ref: Ref)
    ensures ref in HandlerRefs(store, SliceEvent(meta)) <==>
            exists key :: key in store.listeners && SliceReaches(meta, store.listeners[key], ref)
  {
    hide BackendRef;
    hide MatchesBackend;
    if exists key :: key in store.listeners && SliceReaches(meta, store.listeners[key], ref) {
      var key :| key in store.listeners && SliceReaches(meta, store.listeners[key], ref);
      var r, b :| SliceHits(meta, store.listeners[key], r, b, ref);
    }
    if ref in HandlerRefs(store, SliceEvent(meta)) {
      var key, r, b :| key in store.listeners && HasBackend(store.listeners[key], r, b)
                       && MatchesBackend(meta, store.listeners[key], store.listeners[key].routes[r].backends[b])
                       && ref == BackendRef(EndpointType, store.listeners[key], r, b);
      assert SliceHits(meta, store.listeners[key], r, b, ref);
      assert SliceReaches(meta, store.listeners[key], ref);
    }
  }
}
