/** Building runs: every well-formed store is reached, and a watch started on it settles. */
module Building {
  import opened Common
  import opened Spec
  import opened Backends
  import opened Resolver
  import opened Notify
  import opened Protocol
  import opened Freshness
  import opened NoLostChange
  import opened Progress
  import opened Settling

  // ---- stores ----

  lemma InitReached(ref: Ref)
    ensures Reached(Init(), ref)
  {
    assert ValidRun(Init(), []) && Follows(Init(), [], ref) && Run(Init(), []) == Init();
  }

  /** Storing one listener. */
  lemma PutListener(s: State, ref: Ref, listener: Listener) returns (s': State)
    requires Reached(s, ref) && WellNamed(listener)
    ensures Reached(s', ref) && s'.watches == s.watches && s'.shutdown == s.shutdown
    ensures s'.store == s.store.(listeners := s.store.listeners[KeyOf(listener) := listener])
  {
    hide Reached;
    hide WellNamed;
    var step := UpdateListener(KeyOf(listener), Some(listener));
    ReachedStep(s, step, ref);
    s' := Apply(s, step);
  }

  lemma {:induction false} PutListeners(ref: Ref, listeners: map<Key, Listener>) returns (s: State)
    requires StoreOk(Store(listeners, []))
    ensures Reached(s, ref) && s.store == Store(listeners, []) && s.watches == map[] && !s.shutdown
    decreases |listeners|
  {
    hide Reached;
    hide WellNamed;
    if listeners == map[] {
      InitReached(ref);
      s := Init();
    } else {
      var key :| key in listeners;
      var fewer := listeners - {key};
      assert fewer.Keys == listeners.Keys - {key};
      assert |fewer.Keys| < |listeners.Keys|;
      assert StoreOk(Store(fewer, []));
      var s0 := PutListeners(ref, fewer);
      s := PutListener(s0, ref, listeners[key]);
      assert fewer[key := listeners[key]] == listeners;
    }
  }

  lemma AppendIsUpdate(slices: seq<EndpointSlice>)
    requires slices != [] && UniqueKeys(slices)
    ensures var n := |slices| - 1;
            SliceUpdate(slices[..n], slices, SliceKey(slices[n]), MetaOf(slices[n])) && Absent(slices[..n], SliceKey(slices[n]))
  {
    var n := |slices| - 1;
    var key := SliceKey(slices[n]);
    var keep := (s: EndpointSlice) => SliceKey(s) != key;
    assert slices == slices[..n] + [slices[n]];
    FilterAppend(slices[..n], [slices[n]], keep);
    assert [slices[n]][1..] == [];
    assert Filter([slices[n]], keep) == [];
    ElsewhereIsFilter(slices, key, keep);
    ElsewhereIsFilter(slices[..n], key, keep);
  }

  lemma AbsentIsFollowed(store: Store, key: Key, meta: SliceMeta, ref: Ref)
    requires Absent(store.slices, key)
    ensures !Misses(store, key, meta, ref)
  {
    hide TargetKey;
    hide TargetBackend;
    hide MatchesBackend;
  }

  /** Adding slices one by one, each of which every reference follows. */
  lemma {:induction false} PutSlices(s: State, ref: Ref, slices: seq<EndpointSlice>) returns (s': State)
    requires Reached(s, ref) && s.store.slices == [] && UniqueKeys(slices)
    ensures Reached(s', ref) && s'.watches == s.watches && s'.shutdown == s.shutdown
    ensures s'.store == s.store.(slices := slices)
    decreases |slices|
  {
    hide Reached;
    if slices == [] {
      s' := s;
    } else {
      var n := |slices| - 1;
      var key, meta := SliceKey(slices[n]), MetaOf(slices[n]);
      AppendIsUpdate(slices);
      hide UniqueKeys;
      assert UniqueKeys(slices[..n]) by { UniquePrefix(slices, n); }
      var s0 := PutSlices(s, ref, slices[..n]);
      var step := UpdateSlice(key, slices, meta);
      AbsentIsFollowed(s0.store, key, meta, ref);
      hide SliceUpdate;
      hide Misses;
      ReachedStep(s0, step, ref);
      s' := Apply(s0, step);
    }
  }

  lemma UniquePrefix(slices: seq<EndpointSlice>, n: nat)
    requires UniqueKeys(slices) && n <= |slices|
    ensures UniqueKeys(slices[..n])
  {}

  /** Every well-formed store is reached, by a run that every reference follows. */
  lemma ReachStore(ref: Ref, store: Store) returns (s: State)
    requires StoreOk(store)
    ensures Reached(s, ref) && s.store == store && s.watches == map[] && !s.shutdown
  {
    hide Reached;
    var s0 := PutListeners(ref, store.listeners);
    s := PutSlices(s0, ref, store.slices);
  }

  // ---- watches ----

  lemma StartWatch(s: State, ref: Ref, wid: Wid, req: Request) returns (s': State)
    requires Reached(s, ref) && wid !in s.watches && AsksInDomain(req)
    ensures Reached(s', ref) && s'.store == s.store && s'.shutdown == s.shutdown && s'.traffic == s.traffic
    ensures s'.watches.Keys == s.watches.Keys + {wid}
    ensures s'.watches[wid] == Watch(req, {}, if req.names == [] then Deciding else Subscribing(0, Lookup), {}, map[], [], false)
  {
    hide Reached;
    hide AsksInDomain;
    var step := Start(wid, req, {});
    ReachedStep(s, step, ref);
    s' := Apply(s, step);
  }

  /** A watch started for one name goes to sleep holding what the name resolves to. */
  lemma WatchSettles(s: State, ref: Ref, wid: Wid, node: Node) returns (s': State)
    requires Reached(s, ref) && wid !in s.watches && InDomain(ref)
    ensures Reached(s', ref) && Settled(s') && s'.store == s.store && s'.shutdown == s.shutdown && wid in s'.watches
    ensures var w := s'.watches[wid];
            && w.req == Request(ref.typeUrl, [ref.name], node) && w.known == {} && !w.cancelled
            && (Resolve(s.store, node, ref).Some? ==>
                  ref.name in w.lastSent && Some(w.lastSent[ref.name]) == Resolve(s.store, node, ref))
  {
    hide Reached;
    var req := Request(ref.typeUrl, [ref.name], node);
    var s1 := StartWatch(s, ref, wid, req);
    s' := SettleWatch(s1, ref, wid, ref.name);
    ResolveIsFromView(s.store, node, ref);
    var w := s'.watches[wid];
    assert w.req == req && w.known == {};
    assert Solo(w) && Answers(w, ref.name);
    hide Resolve;
    hide FromView;
    hide ViewOf;
  }
}
