/**
 * Exactly which names updates follow. For every other spelling of a backend name there is a run, built here,
 * after which a live watch holds stale content and nothing is pending that could refresh it.
 */
module LostUpdate {
  import opened Common
  import opened Text
  import opened Names
  import opened Spec
  import opened Endpoints
  import opened Backends
  import opened Resolver
  import opened Protocol
  import opened Freshness
  import opened NoLostChange
  import opened Spelling
  import opened Settling
  import opened Building

  /** Names of a backend that some stored listener can have. */
  predicate CanTarget(name: string) {
    && ParseBackendName(name).Ok?
    && var p := ParseBackendName(name).value;
       && RoundTrips(p.namespace, p.listenerName)
       && 0 <= p.routeId < MAX_INT && 0 <= p.backendId < MAX_INT
  }

  // ---- two versions of a listener that differ in every backend ----

  const SERVICE := ServiceRef("a", "", PortRef(1, ""))
  const OLD_BACKEND := Backend(1, None, "", None, [], Some(SERVICE), [])
  const NEW_BACKEND := Backend(1, Some(1), "", None, [], None, [Locality(1, 0, SERVICE)])

  function Uniform(p: ParsedBackendName, version: string, backend: Backend): Listener
    requires p.routeId >= 0 && p.backendId >= 0
  {
    Listener(p.namespace, p.listenerName, version, [],
             seq(p.routeId + 1, _ => Route(None, [], [], seq(p.backendId + 1, _ => backend))))
  }

  function OldListener(name: string): Listener
    requires CanTarget(name)
  {
    Uniform(ParseBackendName(name).value, "1", OLD_BACKEND)
  }

  function NewListener(name: string): Listener
    requires CanTarget(name)
  {
    Uniform(ParseBackendName(name).value, "2", NEW_BACKEND)
  }

  function StoreWith(listener: Listener): Store {
    Store(map[KeyOf(listener) := listener], [])
  }

  lemma ListenersAreWellNamed(name: string)
    requires CanTarget(name)
    ensures WellNamed(OldListener(name)) && WellNamed(NewListener(name))
    ensures KeyOf(OldListener(name)) == KeyOf(NewListener(name))
  {
    hide ParseBackendName;
  }

  lemma Targets(typeUrl: TypeUrl, name: string)
    requires CanTarget(name) && (typeUrl.ClusterType? || typeUrl.EndpointType?)
    ensures var ref := Ref(typeUrl, name);
            && TargetKey(ref) == Some(KeyOf(OldListener(name)))
            && TargetBackend(ref, OldListener(name)) == Ok(OLD_BACKEND)
            && TargetBackend(ref, NewListener(name)) == Ok(NEW_BACKEND)
  {}

  lemma NoSlices(node: Node, p: ParsedBackendName, l0: Listener, l1: Listener)
    ensures Reads([], Queries(l0, OLD_BACKEND)) == [[]] && Reads([], Queries(l1, NEW_BACKEND)) == [[]]
    ensures LoadAssignment(node, p, l0, OLD_BACKEND, [[]]) == Ok((ClusterLoadAssignment(p.Print(), []), []))
    ensures LoadAssignment(node, p, l1, NEW_BACKEND, [[]]).Ok?
    ensures |LoadAssignment(node, p, l1, NEW_BACKEND, [[]]).value.0.endpoints| == 1
  {
    hide BackendName;
    assert ValidLabelValue("a") by { assert "a"[0] == 'a'; }
    var zone := CallerZone(node);
    var none: seq<EndpointSlice> := [];
    assert AllReady(SERVICE.port, none) == [];
    var all := AllReady(SERVICE.port, none);
    assert Part(all, zone, true) == [] && Part(all, zone, false) == [];
    assert ServiceEndpoints(zone, SERVICE, none) == Ok(PriorityGroup(SERVICE, [], 0) + PriorityGroup(SERVICE, [], 0));
    assert PriorityGroup(SERVICE, [], 0) + PriorityGroup(SERVICE, [], 0) == [];
    assert Versions(none) == [];
    hide ServiceEndpoints;
    hide ValidLabelValue;
    assert [none][0] == none;
    assert LocalityResult(Locality(1, 0, SERVICE), none).Ok?;
  }

  /** The contents before and after, in a store that holds nothing else. */
  lemma EdsVersionsDiffer(name: string, node: Node)
    requires CanTarget(name)
    ensures var ref := Ref(EndpointType, name);
            && QueriesFor(ref, OldListener(name)) == [Query(OldListener(name).namespace, "a")]
            && Resolve(StoreWith(OldListener(name)), node, ref) == Finish(node, ref, OldListener(name), [[]])
            && Resolve(StoreWith(OldListener(name)), node, ref).Some?
            && Resolve(StoreWith(NewListener(name)), node, ref).Some?
            && Resolve(StoreWith(OldListener(name)), node, ref) != Resolve(StoreWith(NewListener(name)), node, ref)
  {
    var ref := Ref(EndpointType, name);
    var p := ParseBackendName(name).value;
    var l0, l1 := OldListener(name), NewListener(name);
    Targets(EndpointType, name);
    ListenersAreWellNamed(name);
    NoSlices(node, p, l0, l1);
    hide ParseBackendName;
    hide TargetKey;
    hide TargetBackend;
    hide BackendName;
    hide OldListener;
    hide NewListener;
    hide CanTarget;
    hide LoadAssignment;
    assert QueriesFor(ref, l0) == Queries(l0, OLD_BACKEND) && QueriesFor(ref, l1) == Queries(l1, NEW_BACKEND);
  }

  lemma CdsVersionsDiffer(name: string, node: Node)
    requires CanTarget(name)
    ensures var ref := Ref(ClusterType, name);
            && QueriesFor(ref, OldListener(name)) == []
            && Resolve(StoreWith(OldListener(name)), node, ref) == Finish(node, ref, OldListener(name), [])
            && Resolve(StoreWith(OldListener(name)), node, ref).Some?
            && Resolve(StoreWith(NewListener(name)), node, ref).Some?
            && Resolve(StoreWith(OldListener(name)), node, ref) != Resolve(StoreWith(NewListener(name)), node, ref)
  {
    Targets(ClusterType, name);
    ListenersAreWellNamed(name);
    hide ParseBackendName;
    hide TargetKey;
    hide TargetBackend;
    hide OldListener;
    hide NewListener;
    hide CanTarget;
  }

  // ---- the lost update ----

  /** A watch of the old version, asleep after its initial response. */
  lemma WatchesOldVersion(ref: Ref, node: Node) returns (s: State)
    requires CanTarget(ref.name) && (ref.typeUrl.ClusterType? || ref.typeUrl.EndpointType?)
    ensures Reached(s, ref) && s.store == StoreWith(OldListener(ref.name)) && !s.shutdown && 0 in s.watches
    ensures var w := s.watches[0];
            && w.req == Request(ref.typeUrl, [ref.name], node) && w.phase.Idle? && !w.cancelled && ref.name in w.lastSent
            && Some(w.lastSent[ref.name]) == Resolve(StoreWith(OldListener(ref.name)), node, ref)
  {
    OldStoreIsOk(ref);
    if ref.typeUrl.EndpointType? {
      EdsVersionsDiffer(ref.name, node);
    } else {
      CdsVersionsDiffer(ref.name, node);
    }
    assert ref == Ref(ref.typeUrl, ref.name);
    hide CanTarget;
    hide InDomain;
    hide StoreOk;
    hide StoreWith;
    hide QueriesFor;
    hide Finish;
    hide Reached;
    hide OldListener;
    hide NewListener;
    hide Resolve;
    var s0 := ReachStore(ref, StoreWith(OldListener(ref.name)));
    s := WatchSettles(s0, ref, 0, node);
  }

  lemma OldStoreIsOk(ref: Ref)
    requires CanTarget(ref.name)
    ensures StoreOk(StoreWith(OldListener(ref.name))) && InDomain(ref)
  {
    ListenersAreWellNamed(ref.name);
    hide OldListener;
    hide WellNamed;
    hide ParseBackendName;
  }

  /** Replacing the only listener leaves the sleeping watch of another spelling stale, with nothing pending for it. */
  lemma ReplacementIsMissed(s: State, l1: Listener, ref: Ref) returns (s': State)
    requires Reached(s, ref) && WellNamed(l1) && s.store.listeners.Keys == {KeyOf(l1)} && s.store.slices == []
    requires !s.shutdown && 0 in s.watches && !Canonical(ref)
    requires var w := s.watches[0];
             && w.req.typeUrl == ref.typeUrl && w.phase.Idle? && !w.cancelled && ref.name in w.lastSent
             && Resolve(StoreWith(l1), w.req.node, ref).Some?
             && Resolve(StoreWith(l1), w.req.node, ref).value != w.lastSent[ref.name]
    ensures Reached(s', ref) && s'.watches == s.watches && !NotLost(s', 0, ref.name)
  {
    hide Resolve;
    hide WellNamed;
    hide Canonical;
    hide ViewOf;
    hide Current;
    hide Dirty;
    s' := PutListener(s, ref, l1);
    assert s'.store == StoreWith(l1);
    var steps :| ValidRun(Init(), steps) && Follows(Init(), steps, ref) && Run(Init(), steps) == s';
    OtherSpellingIsNeverDirty(steps, 0, ref);
    hide Reached;
    hide Run;
    hide ValidRun;
    hide Follows;
    assert s'.watches[0].RefOf(ref.name) == ref;
  }

  /** For every other spelling of a backend name there is a run that loses an update. */
  lemma OtherSpellingLosesUpdates(ref: Ref, node: Node) returns (s: State)
    requires CanTarget(ref.name) && (ref.typeUrl.ClusterType? || ref.typeUrl.EndpointType?) && !CanonicalBackendName(ref.name)
    ensures Reached(s, ref) && 0 in s.watches && s.watches[0].req == Request(ref.typeUrl, [ref.name], node)
    ensures !NotLost(s, 0, ref.name)
  {
    var s0 := WatchesOldVersion(ref, node);
    ListenersAreWellNamed(ref.name);
    if ref.typeUrl.EndpointType? {
      EdsVersionsDiffer(ref.name, node);
    } else {
      CdsVersionsDiffer(ref.name, node);
    }
    assert !Canonical(ref);
    hide CanTarget;
    hide OldListener;
    hide NewListener;
    hide Resolve;
    hide WellNamed;
    hide CanonicalBackendName;
    hide Canonical;
    hide Reached;
    hide NotLost;
    s := ReplacementIsMissed(s0, NewListener(ref.name), ref);
  }

  /** Any other name never resolves. */
  lemma ResolvedCanTarget(store: Store, node: Node, ref: Ref)
    requires StoreOk(store) && (ref.typeUrl.ClusterType? || ref.typeUrl.EndpointType?)
    requires Resolve(store, node, ref).Some?
    ensures CanTarget(ref.name)
  {
    assert WellNamed(store.listeners[TargetKey(ref).value]);
    hide LoadAssignment;
    hide ParseBackendName;
  }

  lemma NothingToLose(s: State, wid: Wid, ref: Ref)
    requires Reached(s, ref) && wid in s.watches && !CanTarget(ref.name) && s.watches[wid].req.typeUrl == ref.typeUrl
    requires ref.typeUrl.ClusterType? || ref.typeUrl.EndpointType?
    ensures NotLost(s, wid, ref.name)
  {
    ReachedInv(s, ref);
    hide Reached;
    hide CanTarget;
    hide Resolve;
    hide ViewOf;
    hide UnderWay;
    hide Dirty;
    if Resolve(s.store, s.watches[wid].req.node, s.watches[wid].RefOf(ref.name)).Some? {
      ResolvedCanTarget(s.store, s.watches[wid].req.node, s.watches[wid].RefOf(ref.name));
    }
  }

  /**
   * Updates follow a backend name exactly when it is spelled canonically: no interleaving loses a change of
   * a canonical name, and for every other spelling that some stored backend can have some interleaving does.
   */
  lemma UpdatesFollowExactlyCanonicalNames(ref: Ref, node: Node)
    requires ref.typeUrl.ClusterType? || ref.typeUrl.EndpointType?
    ensures (forall s, wid :: Reached(s, ref) && wid in s.watches && s.watches[wid].req.typeUrl == ref.typeUrl ==>
               NotLost(s, wid, ref.name))
       <==> CanonicalBackendName(ref.name) || !CanTarget(ref.name)
  {
    hide *;
    if !CanTarget(ref.name) {
      forall s, wid | Reached(s, ref) && wid in s.watches && s.watches[wid].req.typeUrl == ref.typeUrl
        ensures NotLost(s, wid, ref.name)
      {
        NothingToLose(s, wid, ref);
      }
    } else if CanonicalBackendName(ref.name) {
      forall s, wid | Reached(s, ref) && wid in s.watches && s.watches[wid].req.typeUrl == ref.typeUrl
        ensures NotLost(s, wid, ref.name)
      {
        CanonicalRef(ref);
        ReachedIsNotLost(s, wid, ref);
      }
    } else {
      var s := OtherSpellingLosesUpdates(ref, node);
    }
  }

  lemma CanonicalRef(ref: Ref)
    ensures CanonicalBackendName(ref.name) ==> Canonical(ref)
  {
    hide CanonicalBackendName;
  }
}
