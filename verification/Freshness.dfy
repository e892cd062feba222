/** No change is lost: the invariant, and what each store change means for it. */
module Freshness {
  import opened Common
  import opened Text
  import opened Names
  import opened Spec
  import opened Endpoints
  import opened Backends
  import opened Resolver
  import opened Notify
  import opened Protocol

  // ---- what a reference resolves from ----

  /** The listener and the slices that resolving a reference reads in a store. */
  datatype View = View(listener: Listener, found: seq<seq<EndpointSlice>>)

  function ViewOf(store: Store, ref: Ref): Option<View> {
    var key := TargetKey(ref);
    if key.None? || key.value !in store.listeners then None
    else
      var listener := store.listeners[key.value];
      Some(View(listener, Reads(store.slices, QueriesFor(ref, listener))))
  }

  function FromView(node: Node, ref: Ref, view: Option<View>): Option<Content> {
    if view.None? || TargetKey(ref).None? || |view.value.found| != |QueriesFor(ref, view.value.listener)| then None
    else Finish(node, ref, view.value.listener, view.value.found)
  }

  lemma ResolveIsFromView(store: Store, node: Node, ref: Ref)
    ensures Resolve(store, node, ref) == FromView(node, ref, ViewOf(store, ref))
  {
    hide Finish;
    hide TargetKey;
    hide QueriesFor;
  }

  /** Whether a reference resolves does not depend on the node that asks. */
  predicate Resolves(store: Store, ref: Ref) {
    Resolve(store, Node(None), ref).Some?
  }

  lemma ResolvesForEveryNode(store: Store, node: Node, ref: Ref)
    ensures Resolve(store, node, ref).Some? <==> Resolves(store, ref)
  {
    hide TargetKey;
    hide BackendName;
    hide ParseBackendName;
    hide MakeListenerResource;
    hide Grouped;
    hide LocalitiesEndpoints;
    hide PortsKnown;
  }

  // ---- stored objects own references ----

  ghost predicate StoreOk(store: Store) {
    && (forall key :: key in store.listeners ==> KeyOf(store.listeners[key]) == key && WellNamed(store.listeners[key]))
    && UniqueKeys(store.slices)
  }

  lemma InDomainNeverPanics(store: Store, ref: Ref)
    requires InDomain(ref)
    ensures !Panics(store, ref)
  {
    if Panics(store, ref) {
      LookupIsExact(ParseBackendName(ref.name).value, store.listeners[TargetKey(ref).value]);
    }
  }

  /** A reference that a stored listener can have panics in no store exactly when it has no negative id. */
  lemma DomainIsExact(ref: Ref)
    requires (ref.typeUrl.ClusterType? || ref.typeUrl.EndpointType?) && ParseBackendName(ref.name).Ok?
    requires var p := ParseBackendName(ref.name).value;
             RoundTrips(p.namespace, p.listenerName) && p.routeId < MAX_INT
    ensures (forall store :: StoreOk(store) ==> !Panics(store, ref)) <==> InDomain(ref)
  {
    var p := ParseBackendName(ref.name).value;
    hide ParseBackendName;
    if InDomain(ref) {
      forall store | StoreOk(store) ensures !Panics(store, ref) {
        InDomainNeverPanics(store, ref);
      }
    } else {
      var routes := if p.routeId < 0 then [] else seq(p.routeId + 1, _ => Route(None, [], [], []));
      var listener := Listener(p.namespace, p.listenerName, "", [], routes);
      var store := Store(map[KeyOf(listener) := listener], []);
      LookupIsExact(p, listener);
      assert WellNamed(listener);
      assert StoreOk(store) && Panics(store, ref);
    }
  }

  ghost predicate OwnedAt(store: Store, key: Key, ref: Ref) {
    key in store.listeners && Owns(store.listeners[key], ref)
  }

  /** Some stored listener owns the reference, so its change events notify it. */
  ghost predicate Present(store: Store, ref: Ref) {
    exists key :: OwnedAt(store, key, ref)
  }

  lemma OwnerIsTarget(listener: Listener, ref: Ref)
    requires WellNamed(listener) && Owns(listener, ref)
    ensures TargetKey(ref) == Some(KeyOf(listener))
    ensures ref.typeUrl == EndpointType ==>
              exists r, b :: HasBackend(listener, r, b) && ref == BackendRef(EndpointType, listener, r, b)
                             && TargetBackend(ref, listener) == Ok(listener.routes[r].backends[b])
  {
    if ref == ListenerRef(listener) {
      ListenerNameInverse("", listener.namespace, listener.name);
    } else {
      var r, b :| HasBackend(listener, r, b) && IsBackendRef(ref, listener, r, b);
      BackendRefTargets(ref.typeUrl, listener, r, b);
      hide BackendName;
      hide ParseBackendName;
      assert ref.typeUrl == EndpointType ==> ref == BackendRef(EndpointType, listener, r, b);
    }
  }

  lemma OwnerIsUnique(store: Store, k1: Key, k2: Key, ref: Ref)
    requires StoreOk(store) && OwnedAt(store, k1, ref) && OwnedAt(store, k2, ref)
    ensures k1 == k2 && TargetKey(ref) == Some(k1)
  {
    OwnerIsTarget(store.listeners[k1], ref);
    OwnerIsTarget(store.listeners[k2], ref);
  }

  // ---- traffic that still has to reach a watch ----

  ghost predicate EventReaches(store: Store, e: Event, ref: Ref) {
    match e
    case ListenerEvent(listener) =>
      OwnedAt(store, KeyOf(listener), ref) && store.listeners[KeyOf(listener)] == listener
    case SliceEvent(meta) =>
      exists key :: key in store.listeners && SliceReaches(meta, store.listeners[key], ref)
  }

  /** An event for the current objects, a notification or a delivery for this watch and reference is pending. */
  ghost predicate Dirty(store: Store, t: Traffic, wid: Wid, ref: Ref) {
    || (exists e :: e in t.events && EventReaches(store, e, ref))
    || Looking(ref) in t.notifications
    || (exists o :: Fanning(ref, o) in t.notifications)
    || Delivery(wid, ref) in t.deliveries
  }

  lemma HandlerCoversEvent(store: Store, e: Event, ref: Ref)
    requires EventReaches(store, e, ref)
    ensures ref in HandlerRefs(store, e)
  {
    hide BackendName;
    match e
    case ListenerEvent(listener) => ListenerChangeReachesOwned(listener, ref);
    case SliceEvent(meta) =>
      var key :| key in store.listeners && SliceReaches(meta, store.listeners[key], ref);
      var listener := store.listeners[key];
      var r, b :| SliceHits(meta, listener, r, b, ref);
  }

  lemma SliceReachesOwned(meta: SliceMeta, listener: Listener, ref: Ref)
    requires SliceReaches(meta, listener, ref)
    ensures Owns(listener, ref)
  {
    hide BackendName;
    hide MatchesBackend;
    var r, b :| SliceHits(meta, listener, r, b, ref);
    assert IsBackendRef(ref, listener, r, b);
  }

  // ---- changing a listener ----

  /** Only the object under `key` differs. */
  ghost predicate ListenersAgreeElsewhere(store: Store, after: Store, key: Key) {
    && after.slices == store.slices
    && forall k :: k != key ==>
         (k in after.listeners <==> k in store.listeners) &&
         (k in store.listeners ==> after.listeners[k] == store.listeners[k])
  }

  /** A reference not owned by the changed object keeps its view and the events that reach it. */
  lemma ListenerChangeFrame(store: Store, after: Store, key: Key, ref: Ref)
    requires StoreOk(store) && StoreOk(after) && ListenersAgreeElsewhere(store, after, key)
    requires Present(after, ref) && !OwnedAt(after, key, ref)
    ensures Present(store, ref) && ViewOf(after, ref) == ViewOf(store, ref)
    ensures forall e :: EventReaches(store, e, ref) ==> EventReaches(after, e, ref)
  {
    hide Owns;
    hide WellNamed;
    hide TargetKey;
    hide QueriesFor;
    hide SliceReaches;
    var k :| OwnedAt(after, k, ref);
    assert OwnedAt(store, k, ref);
    OwnerIsUnique(store, k, k, ref);
    forall e | EventReaches(store, e, ref)
      ensures EventReaches(after, e, ref)
    {
      match e
      case ListenerEvent(listener) => OwnerIsUnique(store, k, KeyOf(listener), ref);
      case SliceEvent(meta) =>
        var k2 :| k2 in store.listeners && SliceReaches(meta, store.listeners[k2], ref);
        SliceReachesOwned(meta, store.listeners[k2], ref);
        OwnerIsUnique(store, k, k2, ref);
    }
  }

  // ---- changing a slice ----

  /** An update of the slice under `key` that the reference's backend reads, with an event it does not match. */
  ghost predicate Misses(store: Store, key: Key, meta: SliceMeta, ref: Ref) {
    && ref.typeUrl == EndpointType && TargetKey(ref).Some? && TargetKey(ref).value in store.listeners
    && var listener := store.listeners[TargetKey(ref).value];
       && TargetBackend(ref, listener).Ok?
       && ReadUnder(store.slices, key, listener, TargetBackend(ref, listener).value)
       && !MatchesBackend(meta, listener, TargetBackend(ref, listener).value)
  }

  /** A reference that the slice event does not reach keeps its view exactly when the update is not missed. */
  lemma SliceChangeFrame(store: Store, slices: seq<EndpointSlice>, key: Key, meta: SliceMeta, ref: Ref)
    requires StoreOk(store) && Present(store, ref) && SliceUpdate(store.slices, slices, key, meta)
    requires !EventReaches(store, SliceEvent(meta), ref)
    ensures ViewOf(store.(slices := slices), ref) == ViewOf(store, ref) <==> !Misses(store, key, meta, ref)
  {
    var k :| OwnedAt(store, k, ref);
    var listener := store.listeners[k];
    OwnerIsTarget(listener, ref);
    hide BackendName;
    hide ParseBackendName;
    hide TargetKey;
    hide WellNamed;
    hide AllCarry;
    hide UniqueKeys;
    hide Elsewhere;
    hide MatchesBackend;
    hide Queries;
    hide ReadUnder;
    if ref.typeUrl == EndpointType {
      var r, b :| HasBackend(listener, r, b) && ref == BackendRef(EndpointType, listener, r, b)
                  && TargetBackend(ref, listener) == Ok(listener.routes[r].backends[b]);
      var backend := listener.routes[r].backends[b];
      assert SliceHits(meta, listener, r, b, ref) || !MatchesBackend(meta, listener, backend);
      hide TargetBackend;
      RelabelIsMissedExactly(store.slices, slices, key, meta, listener, backend);
    }
  }

  /** A missed update is one whose event does not reach the reference. */
  lemma MissedIsUnreached(store: Store, key: Key, meta: SliceMeta, ref: Ref)
    requires StoreOk(store) && Misses(store, key, meta, ref)
    ensures !EventReaches(store, SliceEvent(meta), ref)
  {
    if EventReaches(store, SliceEvent(meta), ref) {
      var k :| k in store.listeners && SliceReaches(meta, store.listeners[k], ref);
      var listener := store.listeners[k];
      var r, b :| SliceHits(meta, listener, r, b, ref);
      BackendRefTargets(EndpointType, listener, r, b);
    }
  }

  // ---- what a watch holds about a name ----

  ghost predicate Agrees(cur: Reading, view: Option<View>)
  {
    cur.Read? ==>
      && view.Some? && view.value.listener == cur.listener
      && |cur.found| <= |view.value.found| && cur.found == view.value.found[..|cur.found|]
  }

  /** The request has one distinct name, unknown to the stream, so no other name can withhold it. */
  predicate Solo(w: Watch) {
    && |w.req.names| > 0 && w.req.names[0] !in w.known
    && forall i :: 0 <= i < |w.req.names| ==> w.req.names[i] == w.req.names[0]
  }

  /** The names a watch answers for: those it has sent, and the only one it was asked for. */
  predicate Answers(w: Watch, name: string) {
    name in w.lastSent || (Solo(w) && name in w.req.names)
  }

  ghost predicate SentIsCurrent(w: Watch, name: string, now: Option<Content>) {
    Answers(w, name) && now.Some? ==> name in w.lastSent && now.value == w.lastSent[name]
  }

  ghost predicate ContentsCurrent(names: seq<string>, contents: seq<Content>, name: string, now: Option<Content>) {
    forall j :: 0 <= j < |contents| && j < |names| && names[j] == name ==> now == Some(contents[j])
  }

  /** Everything the watch read, is sending or last sent for the name is what the view gives. */
  ghost predicate Current(w: Watch, name: string, view: Option<View>) {
    var now := FromView(w.req.node, w.RefOf(name), view);
    match w.phase
    case Deciding => true
    case Resolving(_, names, done, cur) =>
      if name in names then
        && ContentsCurrent(names, done, name, now)
        && (|done| < |names| && names[|done|] == name ==> Agrees(cur, view))
      else SentIsCurrent(w, name, now)
    case Sending(_, names, contents) =>
      if name in names then ContentsCurrent(names, contents, name, now) else SentIsCurrent(w, name, now)
    case _ => SentIsCurrent(w, name, now)
  }

  /** Current, as long as the name resolves at all. */
  ghost predicate UpToDate(w: Watch, name: string, view: Option<View>) {
    FromView(w.req.node, w.RefOf(name), view).Some? ==> Current(w, name, view)
  }

  /** The watch is past subscribing, not cancelled and not being released. */
  predicate Tracked(w: Watch) {
    !w.cancelled && (w.phase.Deciding? || w.phase.Resolving? || w.phase.Sending? || w.phase.Idle?)
  }

  ghost predicate Fresh(store: Store, t: Traffic, wid: Wid, w: Watch, name: string) {
    var ref := w.RefOf(name);
    Dirty(store, t, wid, ref) || !Present(store, ref) || UpToDate(w, name, ViewOf(store, ref))
  }

  /** The watch is live and was asked for the reference. */
  predicate Tracks(w: Watch, ref: Ref) {
    Tracked(w) && ref.typeUrl == w.req.typeUrl && ref.name in w.req.names
  }

  ghost predicate FreshFor(s: State, ref: Ref) {
    !s.shutdown ==>
      forall wid :: wid in s.watches && Tracks(s.watches[wid], ref) ==>
        Fresh(s.store, s.traffic, wid, s.watches[wid], ref.name)
  }
}
