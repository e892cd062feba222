/**
 * Exactly which updates of a slice are followed. An update that moves a slice away from a service, with an event
 * that the backend's change test refuses, loses a change in some run whenever the name resolves afterwards.
 */
module Relabel {
  import opened Common
  import opened Names
  import opened Spec
  import opened Endpoints
  import opened Backends
  import opened Resolver
  import opened Notify
  import opened Assignments
  import opened Protocol
  import opened Freshness
  import opened NoLostChange
  import opened Progress
  import opened Settling
  import opened Building
  import opened Silence
  import opened Handlers

  // ---- a missed update changes the versions ----

  lemma {:induction false} FewerVersions(before: seq<seq<EndpointSlice>>, after: seq<seq<EndpointSlice>>)
    requires |before| == |after| && forall i :: 0 <= i < |before| ==> |after[i]| <= |before[i]|
    ensures |LocalityVersions(after)| <= |LocalityVersions(before)|
    ensures (exists i :: 0 <= i < |before| && |after[i]| < |before[i]|) ==>
              |LocalityVersions(after)| < |LocalityVersions(before)|
  {
    if before != [] {
      var n := |before| - 1;
      var b, a := before[..n], after[..n];
      assert |LocalityVersions(before)| == |LocalityVersions(b)| + |before[n]|;
      assert |LocalityVersions(after)| == |LocalityVersions(a)| + |after[n]|;
      hide *;
      assert forall i :: 0 <= i < n ==> b[i] == before[i] && a[i] == after[i];
      FewerVersions(b, a);
    }
  }

  lemma FewerSelected(before: seq<EndpointSlice>, after: seq<EndpointSlice>, key: Key, q: Query)
    requires Elsewhere(after, key) == Elsewhere(before, key)
    requires forall k :: 0 <= k < |after| && SliceKey(after[k]) == key ==> !Selects(q, after[k])
    ensures |Select(after, q)| <= |Select(before, q)|
    ensures (exists k :: 0 <= k < |before| && SliceKey(before[k]) == key && Selects(q, before[k])) ==>
              |Select(after, q)| < |Select(before, q)|
  {
    var outer := (s: EndpointSlice) => SliceKey(s) != key;
    var inner := (s: EndpointSlice) => Selects(q, s);
    SelectElsewhere(after, key, q);
    ElsewhereIsFilter(before, key, outer);
    SelectIsFilter(before, q, inner);
    SelectIsFilter(Elsewhere(before, key), q, inner);
    FilterShorter(before, outer, inner);
    if k :| 0 <= k < |before| && SliceKey(before[k]) == key && Selects(q, before[k]) {
      assert before[k] in before && inner(before[k]) && !outer(before[k]);
    }
  }

  lemma FewerRead(before: seq<EndpointSlice>, after: seq<EndpointSlice>, key: Key, meta: SliceMeta,
                  listener: Listener, backend: Backend)
    requires Elsewhere(after, key) == Elsewhere(before, key) && AllCarry(after, key, meta)
    requires !MatchesBackend(meta, listener, backend) && ReadUnder(before, key, listener, backend)
    ensures var qs := Queries(listener, backend);
            && (forall i :: 0 <= i < |qs| ==> |Select(after, qs[i])| <= |Select(before, qs[i])|)
            && exists i :: 0 <= i < |qs| && |Select(after, qs[i])| < |Select(before, qs[i])|
  {
    var qs := Queries(listener, backend);
    hide MatchesBackend;
    hide Queries;
    hide Selects;
    hide Elsewhere;
    hide Select;
    forall i | 0 <= i < |qs|
      ensures |Select(after, qs[i])| <= |Select(before, qs[i])|
      ensures (exists k :: 0 <= k < |before| && SliceKey(before[k]) == key && Selects(qs[i], before[k])) ==>
                |Select(after, qs[i])| < |Select(before, qs[i])|
    {
      RefusedIsNotSelected(after, key, meta, listener, backend, i);
      FewerSelected(before, after, key, qs[i]);
    }
    var k :| 0 <= k < |before| && SliceKey(before[k]) == key && IsRead(before[k], listener, backend);
    var i :| 0 <= i < |qs| && Selects(qs[i], before[k]);
    assert |Select(after, qs[i])| < |Select(before, qs[i])|;
  }

  lemma AssignmentVersions(node: Node, p: ParsedBackendName, listener: Listener, backend: Backend, found: seq<seq<EndpointSlice>>)
    requires |found| == |Queries(listener, backend)| && LoadAssignment(node, p, listener, backend, found).Ok?
    ensures LoadAssignment(node, p, listener, backend, found).value.1 == LocalityVersions(found)
  {
    hide ServiceEndpoints;
    hide LocalitiesEndpoints;
    hide BackendName;
    if backend.service.Some? {
      assert found[..|found| - 1] == [];
      assert LocalityVersions([]) == [];
    }
  }

  /** The parts of an assignment's content. */
  lemma EdsContent(store: Store, node: Node, ref: Ref)
    requires ref.typeUrl == EndpointType && Resolve(store, node, ref).Some?
    ensures TargetKey(ref).Some? && TargetKey(ref).value in store.listeners
    ensures var listener := store.listeners[TargetKey(ref).value];
            && TargetBackend(ref, listener).Ok?
            && var backend := TargetBackend(ref, listener).value;
               var found := Reads(store.slices, Queries(listener, backend));
               var p := ParseBackendName(ref.name).value;
               && LoadAssignment(node, p, listener, backend, found).Ok?
               && Resolve(store, node, ref).value.resource == Eds(LoadAssignment(node, p, listener, backend, found).value.0)
               && Resolve(store, node, ref).value.versions ==
                  [listener.resourceVersion] + LoadAssignment(node, p, listener, backend, found).value.1
  {
    hide LoadAssignment;
    hide ParseBackendName;
  }

  /** A missed update never leaves the content of the name as it was: fewer versions are fed to the hash. */
  lemma MissedChangesContent(store: Store, slices: seq<EndpointSlice>, key: Key, meta: SliceMeta, node: Node, ref: Ref)
    requires SliceUpdate(store.slices, slices, key, meta) && Misses(store, key, meta, ref)
    requires Resolve(store.(slices := slices), node, ref).Some?
    ensures Resolve(store, node, ref) != Resolve(store.(slices := slices), node, ref)
  {
    if Resolve(store, node, ref).Some? {
      var listener := store.listeners[TargetKey(ref).value];
      var backend := TargetBackend(ref, listener).value;
      var p := ParseBackendName(ref.name).value;
      var qs := Queries(listener, backend);
      EdsContent(store, node, ref);
      EdsContent(store.(slices := slices), node, ref);
      FewerRead(store.slices, slices, key, meta, listener, backend);
      AssignmentVersions(node, p, listener, backend, Reads(store.slices, qs));
      AssignmentVersions(node, p, listener, backend, Reads(slices, qs));
      hide *;
      FewerVersions(Reads(store.slices, qs), Reads(slices, qs));
    }
  }

  // ---- such updates exist ----

  /**
   * Moving a slice that a service backend reads to any other service is a missed update; and if it was the only
   * slice stored, the name resolves afterwards.
   */
  lemma MovingAwayIsMissed(store: Store, node: Node, ref: Ref, slice: EndpointSlice, newName: string)
    requires ref.typeUrl == EndpointType && TargetKey(ref).Some? && TargetKey(ref).value in store.listeners
    requires TargetBackend(ref, store.listeners[TargetKey(ref).value]).Ok? && store.slices == [slice]
    requires var listener := store.listeners[TargetKey(ref).value];
             var backend := TargetBackend(ref, listener).value;
             && backend.service.Some? && Selects(ServiceQuery(listener, backend.service.value), slice)
             && newName != backend.service.value.name && ValidLabelValue(backend.service.value.name)
    ensures var moved := slice.(serviceName := Some(newName));
            && SliceUpdate(store.slices, [moved], SliceKey(slice), MetaOf(moved))
            && Misses(store, SliceKey(slice), MetaOf(moved), ref)
            && Resolve(store.(slices := [moved]), node, ref).Some?
  {
    var listener := store.listeners[TargetKey(ref).value];
    var backend := TargetBackend(ref, listener).value;
    var moved := slice.(serviceName := Some(newName));
    MoveIsUpdate(slice, newName);
    ServiceMoves(node, ParseBackendName(ref.name).value, listener, backend, slice, newName);
    assert ReadUnder(store.slices, SliceKey(slice), listener, backend) by {
      assert store.slices[0] == slice;
    }
    hide TargetKey;
    hide TargetBackend;
    hide ParseBackendName;
    hide SliceUpdate;
    hide LoadAssignment;
    hide Queries;
    hide ReadUnder;
    hide MatchesBackend;
  }

  lemma MoveIsUpdate(slice: EndpointSlice, newName: string)
    ensures var moved := slice.(serviceName := Some(newName));
            SliceUpdate([slice], [moved], SliceKey(slice), MetaOf(moved))
  {
    var moved := slice.(serviceName := Some(newName));
    var key := SliceKey(slice);
    var keep := (s: EndpointSlice) => SliceKey(s) != key;
    FilterOne(slice, keep);
    FilterOne(moved, keep);
    ElsewhereIsFilter([slice], key, keep);
    ElsewhereIsFilter([moved], key, keep);
    assert SliceKey([moved][0]) == key;
  }

  lemma ServiceMoves(node: Node, p: ParsedBackendName, listener: Listener, backend: Backend, slice: EndpointSlice, newName: string)
    requires backend.service.Some? && Selects(ServiceQuery(listener, backend.service.value), slice)
    requires newName != backend.service.value.name && ValidLabelValue(backend.service.value.name)
    ensures var moved := slice.(serviceName := Some(newName));
            && IsRead(slice, listener, backend) && !MatchesBackend(MetaOf(moved), listener, backend)
            && LoadAssignment(node, p, listener, backend, Reads([moved], Queries(listener, backend))).Ok?
  {
    var moved := slice.(serviceName := Some(newName));
    var q := ServiceQuery(listener, backend.service.value);
    var keep := (s: EndpointSlice) => Selects(q, s);
    SelectIsFilter([moved], q, keep);
    FilterOne(moved, keep);
    assert Queries(listener, backend)[0] == q && Selects(q, slice);
    assert Reads([moved], Queries(listener, backend))[0] == [];
    hide BackendName;
    hide ValidLabelValue;
    hide Select;
  }

  // ---- the lost update ----

  function OtherVersion(listener: Listener): Listener {
    listener.(resourceVersion := listener.resourceVersion + "'")
  }

  /** A load assignment that can be made at all can be made from no slices. */
  lemma NoSlicesSucceed(node: Node, p: ParsedBackendName, listener: Listener, backend: Backend,
                        found: seq<seq<EndpointSlice>>, none: seq<seq<EndpointSlice>>)
    requires |found| == |none| == |Queries(listener, backend)| && forall i :: 0 <= i < |none| ==> none[i] == []
    requires LoadAssignment(node, p, listener, backend, found).Ok?
    ensures LoadAssignment(node, p, OtherVersion(listener), backend, none).Ok?
  {
    hide BackendName;
    if backend.service.None? {
      forall i | 0 <= i < |backend.localities|
        ensures LocalityResult(backend.localities[i], none[i]).Ok?
      {
        assert LocalityResult(backend.localities[i], found[i]).Ok?;
      }
    }
  }

  /** Another version of the listener and no slices: the name resolves there, to a content with that version. */
  function OtherStore(store: Store, key: Key): Store
    requires key in store.listeners
  {
    Store(store.listeners[key := OtherVersion(store.listeners[key])], [])
  }

  lemma OtherStoreIsOk(store: Store, key: Key)
    requires StoreOk(store) && key in store.listeners
    ensures var other := OtherStore(store, key);
            && StoreOk(other) && other.slices == [] && other.listeners.Keys == store.listeners.Keys
            && other.listeners[key := store.listeners[key]] == store.listeners
            && forall slices :: OtherStore(store.(slices := slices), key) == other
  {}

  lemma {:induction false} OtherStoreResolves(store: Store, node: Node, ref: Ref)
    requires ref.typeUrl == EndpointType && Resolve(store, node, ref).Some?
    ensures TargetKey(ref).Some? && TargetKey(ref).value in store.listeners
    ensures var other := OtherStore(store, TargetKey(ref).value);
            Resolve(other, node, ref).Some? && Resolve(other, node, ref) != Resolve(store, node, ref)
  {
    EdsContent(store, node, ref);
    var key := TargetKey(ref).value;
    var other := OtherStore(store, key);
    var listener := store.listeners[key];
    var l0 := OtherVersion(listener);
    assert other.listeners[key] == l0 && other.slices == [] && l0.resourceVersion != listener.resourceVersion;
    hide *;
    OtherVersionResolves(store, other, node, ref, listener);
    EdsContent(other, node, ref);
    assert Resolve(other, node, ref).value.versions[0] == l0.resourceVersion;
    assert Resolve(store, node, ref).value.versions[0] == listener.resourceVersion;
  }

  lemma OtherVersionResolves(store: Store, other: Store, node: Node, ref: Ref, listener: Listener)
    requires ref.typeUrl == EndpointType && TargetKey(ref).Some? && TargetKey(ref).value in other.listeners
    requires other.listeners[TargetKey(ref).value] == OtherVersion(listener) && other.slices == []
    requires TargetBackend(ref, listener).Ok?
    requires var backend := TargetBackend(ref, listener).value;
             LoadAssignment(node, ParseBackendName(ref.name).value, listener, backend,
                            Reads(store.slices, Queries(listener, backend))).Ok?
    ensures Resolve(other, node, ref).Some?
  {
    var l0 := OtherVersion(listener);
    var backend := TargetBackend(ref, listener).value;
    var p := ParseBackendName(ref.name).value;
    assert TargetBackend(ref, l0) == TargetBackend(ref, listener);
    assert Queries(l0, backend) == Queries(listener, backend);
    var qs := Queries(listener, backend);
    NoSlicesSucceed(node, p, listener, backend, Reads(store.slices, qs), Reads([], qs));
    hide LoadAssignment;
    hide ParseBackendName;
    hide TargetBackend;
    hide Queries;
    hide Select;
    hide OtherVersion;
  }

  /** A watch that sleeps on this store with content that differs from `later`, which the name is about to resolve to. */
  lemma SleepsWithOther(store: Store, node: Node, ref: Ref, later: Content, other: Store) returns (s: State)
    requires StoreOk(store) && StoreOk(other) && Canonical(ref) && InDomain(ref) && other.slices == []
    requires TargetKey(ref).Some? && TargetKey(ref).value in store.listeners
    requires var key := TargetKey(ref).value;
             other.listeners.Keys == store.listeners.Keys && other.listeners[key := store.listeners[key]] == store.listeners
    requires Resolve(other, node, ref).Some? && Resolve(other, node, ref) != Some(later) && Resolve(store, node, ref) != Some(later)
    ensures Reached(s, ref) && Settled(s) && s.store == store && !s.shutdown && 0 in s.watches
    ensures var w := s.watches[0];
            && w.req == Request(ref.typeUrl, [ref.name], node) && !w.cancelled
            && ref.name in w.lastSent && w.lastSent[ref.name] != later
  {
    hide Reached;
    hide Resolve;
    hide InDomain;
    hide TargetKey;
    hide Canonical;
    var key := TargetKey(ref).value;
    var s0 := ReachStore(ref, other);
    var s1 := WatchSettles(s0, ref, 0, node);
    assert WellNamed(store.listeners[key]) && KeyOf(store.listeners[key]) == key;
    hide WellNamed;
    var s2 := PutListener(s1, ref, store.listeners[key]);
    var s3 := PutSlices(s2, ref, store.slices);
    assert s3.store == store && s3.watches == s1.watches;
    assert s3.watches[0].phase.Idle? && s3.watches[0].RefOf(ref.name) == ref;
    if Resolve(store, node, ref).None? {
      ResolveIsFromView(store, node, ref);
      assert CurrentIn(s3, 0, ref.name) by { hide FromView; hide ViewOf; }
      s := SettleWatch(s3, ref, 0, ref.name);
    } else {
      s := SettleAll(s3, ref);
      ReachedIsNotLost(s, 0, ref);
      assert s.watches[0].RefOf(ref.name) == ref;
      assert Answers(s.watches[0], ref.name);
      hide ViewOf;
      hide EventReaches;
      assert !Dirty(s.store, s.traffic, 0, ref);
    }
  }

  /** For every missed update after which the name resolves there is a run in which the update is lost. */
  lemma MissedUpdateIsLost(store: Store, slices: seq<EndpointSlice>, key: Key, meta: SliceMeta, node: Node, ref: Ref)
    returns (s: State)
    requires StoreOk(store) && SliceUpdate(store.slices, slices, key, meta) && Canonical(ref)
    requires Misses(store, key, meta, ref) && Resolve(store.(slices := slices), node, ref).Some?
    ensures Reached(s, ref) && s.store == store && 0 in s.watches && s.watches[0].req == Request(ref.typeUrl, [ref.name], node)
    ensures !NotLost(Apply(s, UpdateSlice(key, slices, meta)), 0, ref.name)
  {
    var after := store.(slices := slices);
    var target := TargetKey(ref).value;
    assert !ref.typeUrl.ListenerType? && ref.typeUrl == EndpointType && TargetBackend(ref, store.listeners[target]).Ok?;
    hide *;
    var other := OtherStore(store, target);
    var later := Resolve(after, node, ref).value;
    MissedChangesContent(store, slices, key, meta, node, ref);
    OtherStoreResolves(after, node, ref);
    OtherStoreIsOk(store, target);
    TargetIsInDomain(ref, store.listeners[target]);
    s := SleepsWithOther(store, node, ref, later, other);
    MissedStaysStale(s, slices, key, meta, node, ref);
  }

  lemma TargetIsInDomain(ref: Ref, listener: Listener)
    requires !ref.typeUrl.ListenerType? && TargetKey(ref).Some? && TargetBackend(ref, listener).Ok?
    ensures InDomain(ref)
  {
    LookupIsExact(ParseBackendName(ref.name).value, listener);
  }

  /** The event of a missed update reaches nobody who waits for the name. */
  lemma MissedStaysStale(s: State, slices: seq<EndpointSlice>, key: Key, meta: SliceMeta, node: Node, ref: Ref)
    requires StoreOk(s.store) && Settled(s) && !s.shutdown && 0 in s.watches
    requires SliceUpdate(s.store.slices, slices, key, meta) && Misses(s.store, key, meta, ref)
    requires var w := s.watches[0];
             && w.req == Request(ref.typeUrl, [ref.name], node) && !w.cancelled
             && ref.name in w.lastSent && Resolve(s.store.(slices := slices), node, ref).Some?
             && w.lastSent[ref.name] != Resolve(s.store.(slices := slices), node, ref).value
    ensures !NotLost(Apply(s, UpdateSlice(key, slices, meta)), 0, ref.name)
  {
    var s' := Apply(s, UpdateSlice(key, slices, meta));
    MissedIsUnreached(s.store, key, meta, ref);
    hide SliceUpdate;
    hide Misses;
    hide StoreOk;
    hide Resolve;
    hide NotLost;
    assert s'.store == s.store.(slices := slices) && s'.watches == s.watches && s'.shutdown == s.shutdown;
    assert s'.traffic == Traffic(multiset{SliceEvent(meta)}, multiset{}, multiset{});
    assert !EventReaches(s'.store, SliceEvent(meta), ref) by { hide SliceReaches; }
    hide EventReaches;
    hide Apply;
    hide Enabled;
    StaleIsLost(s', meta, node, ref);
  }

  lemma StaleIsLost(s: State, meta: SliceMeta, node: Node, ref: Ref)
    requires s.traffic == Traffic(multiset{SliceEvent(meta)}, multiset{}, multiset{})
    requires !EventReaches(s.store, SliceEvent(meta), ref) && !s.shutdown && 0 in s.watches
    requires var w := s.watches[0];
             && w.req == Request(ref.typeUrl, [ref.name], node) && !w.cancelled && w.phase.Idle?
             && ref.name in w.lastSent && Resolve(s.store, node, ref).Some?
             && w.lastSent[ref.name] != Resolve(s.store, node, ref).value
    ensures !NotLost(s, 0, ref.name)
  {
    hide EventReaches;
    hide Resolve;
    hide ViewOf;
    hide Current;
    assert s.watches[0].RefOf(ref.name) == ref;
    assert !Dirty(s.store, s.traffic, 0, ref);
  }

  /**
   * An update of a slice is followed, in every state of every run that the name has followed so far, exactly when
   * it is not missed or the name does not resolve afterwards. A content with an outdated version counts as stale.
   */
  lemma UpdatesAreFollowedExactly(store: Store, slices: seq<EndpointSlice>, key: Key, meta: SliceMeta, node: Node, ref: Ref)
    requires StoreOk(store) && SliceUpdate(store.slices, slices, key, meta) && Canonical(ref)
    ensures (forall s, wid :: Reached(s, ref) && s.store == store && wid in s.watches
                              && s.watches[wid].req.typeUrl == ref.typeUrl && s.watches[wid].req.node == node ==>
               NotLost(Apply(s, UpdateSlice(key, slices, meta)), wid, ref.name))
       <==> !(Misses(store, key, meta, ref) && Resolves(store.(slices := slices), ref))
  {
    ResolvesForEveryNode(store.(slices := slices), node, ref);
    hide Misses;
    hide Resolve;
    hide Resolves;
    hide Reached;
    hide Canonical;
    hide SliceUpdate;
    hide StoreOk;
    hide NotLost;
    if Misses(store, key, meta, ref) && Resolves(store.(slices := slices), ref) {
      var s := MissedUpdateIsLost(store, slices, key, meta, node, ref);
    } else {
      forall s, wid | Reached(s, ref) && s.store == store && wid in s.watches
                      && s.watches[wid].req.typeUrl == ref.typeUrl && s.watches[wid].req.node == node
        ensures NotLost(Apply(s, UpdateSlice(key, slices, meta)), wid, ref.name)
      {
        var step := UpdateSlice(key, slices, meta);
        ReachedStep(s, step, ref);
        ReachedIsNotLost(Apply(s, step), wid, ref);
      }
    }
  }

  // ---- stale assignments ----

  /** The backend that the reference targets reads a ready endpoint from the slice under `key`. */
  ghost predicate ServesFrom(store: Store, key: Key, ref: Ref) {
    && ref.typeUrl == EndpointType && TargetKey(ref).Some? && TargetKey(ref).value in store.listeners
    && var listener := store.listeners[TargetKey(ref).value];
       TargetBackend(ref, listener).Ok? && ReadsReady(store.slices, key, listener, TargetBackend(ref, listener).value)
  }

  /** A missed update changes the assignment itself exactly when the old slice had a ready endpoint. */
  lemma MissedChangesAssignment(store: Store, slices: seq<EndpointSlice>, key: Key, meta: SliceMeta, node: Node, ref: Ref)
    requires SliceUpdate(store.slices, slices, key, meta) && Misses(store, key, meta, ref) && Addressed(store.slices)
    requires Resolve(store, node, ref).Some? && Resolve(store.(slices := slices), node, ref).Some?
    ensures Resolve(store, node, ref).value.resource == Resolve(store.(slices := slices), node, ref).value.resource <==>
            !ServesFrom(store, key, ref)
  {
    var listener := store.listeners[TargetKey(ref).value];
    var backend := TargetBackend(ref, listener).value;
    var p := ParseBackendName(ref.name).value;
    EdsContent(store, node, ref);
    EdsContent(store.(slices := slices), node, ref);
    AssignmentChangesExactly(node, p, listener, backend, store.slices, slices, key, meta);
    hide Resolve;
    hide LoadAssignment;
    hide ParseBackendName;
    hide TargetKey;
    hide TargetBackend;
    hide ReadsReady;
    hide Addressed;
  }

  /** The backend that the reference targets feeds a version of the slice under `key` to the hash. */
  ghost predicate HashesFrom(store: Store, key: Key, ref: Ref) {
    && ref.typeUrl == EndpointType && TargetKey(ref).Some? && TargetKey(ref).value in store.listeners
    && var listener := store.listeners[TargetKey(ref).value];
       TargetBackend(ref, listener).Ok? && ReadsVersion(store.slices, key, listener, TargetBackend(ref, listener).value)
  }

  lemma FlattenCons(v: string, vs: seq<string>)
    ensures Flatten([v] + vs) == v + Flatten(vs)
  {
    assert ([v] + vs)[1..] == vs;
  }

  lemma SameAfter(v: string, a: string, b: string)
    ensures v + a == v + b <==> a == b
  {
    assert (v + a)[|v|..] == a && (v + b)[|v|..] == b;
  }

  /**
   * A missed update leaves the response as it was, its resource and the bytes its version is hashed from, exactly
   * when the old slice contributed neither a ready endpoint nor a version.
   */
  lemma MissedChangesResponse(store: Store, slices: seq<EndpointSlice>, key: Key, meta: SliceMeta, node: Node, ref: Ref)
    requires SliceUpdate(store.slices, slices, key, meta) && Misses(store, key, meta, ref) && Addressed(store.slices)
    requires Resolve(store, node, ref).Some? && Resolve(store.(slices := slices), node, ref).Some?
    ensures var before, after := Resolve(store, node, ref).value, Resolve(store.(slices := slices), node, ref).value;
            && (before.resource == after.resource <==> !ServesFrom(store, key, ref))
            && (HashInput([before]) == HashInput([after]) <==> !HashesFrom(store, key, ref))
  {
    var before, after := Resolve(store, node, ref).value, Resolve(store.(slices := slices), node, ref).value;
    var listener := store.listeners[TargetKey(ref).value];
    var backend := TargetBackend(ref, listener).value;
    var p := ParseBackendName(ref.name).value;
    var fb, fa := Reads(store.slices, Queries(listener, backend)), Reads(slices, Queries(listener, backend));
    MissedChangesAssignment(store, slices, key, meta, node, ref);
    EdsContent(store, node, ref);
    EdsContent(store.(slices := slices), node, ref);
    AssignmentVersions(node, p, listener, backend, fb);
    AssignmentVersions(node, p, listener, backend, fa);
    BytesChangeExactly(listener, backend, store.slices, slices, key, meta);
    assert HashesFrom(store, key, ref) == ReadsVersion(store.slices, key, listener, backend);
    assert AllBytes(fb) == Flatten(LocalityVersions(fb)) && AllBytes(fa) == Flatten(LocalityVersions(fa));
    hide *;
    OneHashInput(before);
    OneHashInput(after);
    FlattenCons(listener.resourceVersion, LocalityVersions(fb));
    FlattenCons(listener.resourceVersion, LocalityVersions(fa));
    SameAfter(listener.resourceVersion, Flatten(LocalityVersions(fb)), Flatten(LocalityVersions(fa)));
  }

  lemma OneHashInput(c: Content)
    ensures HashInput([c]) == Flatten(c.versions)
  {
    assert [c][..0] == [];
  }

  /** What a settled watch holds when an update is missed. */
  lemma SettledHoldsCurrent(s: State, wid: Wid, ref: Ref)
    requires Reached(s, ref) && Settled(s) && !s.shutdown && Canonical(ref)
    requires wid in s.watches && !s.watches[wid].cancelled && s.watches[wid].req.typeUrl == ref.typeUrl
    requires Answers(s.watches[wid], ref.name) && Resolve(s.store, s.watches[wid].req.node, ref).Some?
    ensures ref.name in s.watches[wid].lastSent
    ensures Some(s.watches[wid].lastSent[ref.name]) == Resolve(s.store, s.watches[wid].req.node, ref)
  {
    ReachedIsNotLost(s, wid, ref);
    assert s.watches[wid].RefOf(ref.name) == ref;
    hide Reached;
    hide Canonical;
    hide Resolve;
    hide Answers;
    hide ViewOf;
    hide Current;
    hide EventReaches;
    assert !Dirty(s.store, s.traffic, wid, ref);
  }

  lemma MissedIsSilent(s: State, slices: seq<EndpointSlice>, key: Key, meta: SliceMeta, ref: Ref)
    requires StoreOk(s.store) && Settled(s)
    requires SliceUpdate(s.store.slices, slices, key, meta) && Misses(s.store, key, meta, ref)
    ensures Silent(Apply(s, UpdateSlice(key, slices, meta)), ref)
  {
    var s' := Apply(s, UpdateSlice(key, slices, meta));
    MissedIsUnreached(s.store, key, meta, ref);
    hide Misses;
    hide SliceUpdate;
    hide StoreOk;
    assert s'.store == s.store.(slices := slices);
    assert s'.traffic == Traffic(multiset{SliceEvent(meta)}, multiset{}, multiset{});
    assert !EventReaches(s'.store, SliceEvent(meta), ref) by { hide SliceReaches; }
    HandlerRefsOfSlice(s'.store, meta, ref);
    hide HandlerRefs;
    hide SliceReaches;
  }

  /**
   * A settled watch that answers for the name holds a stale assignment after a missed update, on every schedule
   * until the environment moves, exactly if the backend read a ready endpoint from the old slice.
   */
  lemma AssignmentIsStaleExactly(s: State, wid: Wid, slices: seq<EndpointSlice>, key: Key, meta: SliceMeta, ref: Ref, steps: seq<Step>)
    requires Reached(s, ref) && Settled(s) && !s.shutdown && Canonical(ref) && Addressed(s.store.slices)
    requires wid in s.watches && !s.watches[wid].cancelled && s.watches[wid].req.typeUrl == ref.typeUrl
    requires Answers(s.watches[wid], ref.name)
    requires SliceUpdate(s.store.slices, slices, key, meta) && Misses(s.store, key, meta, ref)
    requires Resolves(s.store, ref) && Resolves(s.store.(slices := slices), ref)
    requires InternalRun(Apply(s, UpdateSlice(key, slices, meta)), steps)
    ensures wid in Run(Apply(s, UpdateSlice(key, slices, meta)), steps).watches
    ensures var w := Run(Apply(s, UpdateSlice(key, slices, meta)), steps).watches[wid];
            var now := Resolve(s.store.(slices := slices), s.watches[wid].req.node, ref);
            && now.Some? && ref.name in w.lastSent
            && (w.lastSent[ref.name].resource == now.value.resource <==> !ServesFrom(s.store, key, ref))
  {
    var s', node := Apply(s, UpdateSlice(key, slices, meta)), s.watches[wid].req.node;
    assert ValidRun(s', steps);
    hide *;
    AfterMissed(s, wid, slices, key, meta, ref);
    ResolvesForEveryNode(s.store, node, ref);
    ResolvesForEveryNode(s.store.(slices := slices), node, ref);
    SettledHoldsCurrent(s, wid, ref);
    MissedChangesAssignment(s.store, slices, key, meta, node, ref);
    SilentRunHolds(s', steps, wid, ref.name);
    HeldIs(s'.watches[wid], Run(s', steps).watches[wid], ref.name);
  }

  lemma AfterMissed(s: State, wid: Wid, slices: seq<EndpointSlice>, key: Key, meta: SliceMeta, ref: Ref)
    requires Reached(s, ref) && Settled(s) && SliceUpdate(s.store.slices, slices, key, meta) && Misses(s.store, key, meta, ref)
    requires wid in s.watches && !s.watches[wid].cancelled && s.watches[wid].req.typeUrl == ref.typeUrl
    ensures var s' := Apply(s, UpdateSlice(key, slices, meta));
            && Inv(s') && s'.watches == s.watches
            && Leaves(s'.watches[wid], ref.name) && Silent(s', s'.watches[wid].RefOf(ref.name))
  {
    var step := UpdateSlice(key, slices, meta);
    SleepersLeave(s, wid, slices, key, meta, ref.name);
    ReachedInv(s, ref);
    assert StoreOk(s.store) && Enabled(s, step) && s.watches[wid].RefOf(ref.name) == ref;
    hide *;
    MissedIsSilent(s, slices, key, meta, ref);
    StepKeepsInv(s, step);
  }

  /** The update of a slice touches no watch, and a settled live one is asleep. */
  lemma SleepersLeave(s: State, wid: Wid, slices: seq<EndpointSlice>, key: Key, meta: SliceMeta, name: string)
    requires Settled(s) && SliceUpdate(s.store.slices, slices, key, meta) && wid in s.watches && !s.watches[wid].cancelled
    ensures var s' := Apply(s, UpdateSlice(key, slices, meta));
            s'.watches == s.watches && Leaves(s'.watches[wid], name)
  {
    hide SliceUpdate;
  }

  lemma HeldIs(w: Watch, w': Watch, name: string)
    requires SameHeld(w, w', name) && name in w.lastSent
    ensures name in w'.lastSent && w'.lastSent[name] == w.lastSent[name]
  {}

  /** On every store there is such a watch. */
  lemma SomeWatchIsSettled(store: Store, node: Node, ref: Ref) returns (s: State)
    requires StoreOk(store) && InDomain(ref)
    ensures Reached(s, ref) && Settled(s) && !s.shutdown && s.store == store && 0 in s.watches
    ensures var w := s.watches[0];
            !w.cancelled && w.req == Request(ref.typeUrl, [ref.name], node) && Answers(w, ref.name)
  {
    hide Reached;
    hide Resolve;
    hide InDomain;
    hide StoreOk;
    var s0 := ReachStore(ref, store);
    s := WatchSettles(s0, ref, 0, node);
    assert Solo(s.watches[0]);
  }
}
