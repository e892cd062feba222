/** The theorems about every run of the watch and notify protocol. */
module NoLostChange {
  import opened Common
  import opened Names
  import opened Spec
  import opened Backends
  import opened Resolver
  import opened Notify
  import opened Protocol
  import opened RegistryInvariant
  import opened Responses
  import opened Freshness
  import opened FreshnessSteps

  ghost predicate Inv(s: State) {
    RegistryInv(s) && ResponsesInv(s) && StoreOk(s.store)
  }

  /** An update of a slice is not missed by the reference, or leaves it without anything to resolve to. */
  ghost predicate StepFollows(s: State, step: Step, ref: Ref) {
    step.UpdateSlice? ==> !(Misses(s.store, step.key, step.meta, ref) && Resolves(s.store.(slices := step.slices), ref))
  }

  // ---- freshness is kept by every step ----

  lemma StoreStaysOk(s: State, step: Step)
    requires StoreOk(s.store) && Possible(s, step)
    ensures StoreOk(Happen(s, step).store)
  {
    hide WellNamed;
    hide HandlerRefs;
    hide UniqueKeys;
    hide Elsewhere;
    hide AllCarry;
    hide Absent;
  }

  ghost predicate IsTraffic(step: Step) {
    step.UpdateListener? || step.UpdateSlice? || step.HandleEvent? || step.NotifyLookup? || step.NotifyFan?
  }

  lemma TrafficStepKeepsFresh(s: State, step: Step, ref: Ref)
    requires Inv(s) && FreshFor(s, ref) && Possible(s, step) && IsTraffic(step) && StepFollows(s, step, ref)
    ensures FreshFor(Happen(s, step), ref)
  {
    hide RegistryInv;
    hide ResponsesInv;
    hide StepFollows;
    hide StoreOk;
    hide Fresh;
    hide HandlerRefs;
    hide SliceUpdate;
    var s' := Happen(s, step);
    assert s'.watches == s.watches && s'.shutdown == s.shutdown;
    if !s.shutdown {
      forall wid | wid in s.watches && Tracks(s.watches[wid], ref)
        ensures Fresh(s'.store, s'.traffic, wid, s.watches[wid], ref.name)
      {
        TrafficStepKeepsOne(s, step, wid, ref);
      }
    }
  }

  lemma TrafficStepKeepsOne(s: State, step: Step, wid: Wid, ref: Ref)
    requires Inv(s) && FreshFor(s, ref) && Possible(s, step) && !s.shutdown && IsTraffic(step) && StepFollows(s, step, ref)
    requires wid in s.watches && Tracks(s.watches[wid], ref)
    ensures var s' := Happen(s, step);
            Fresh(s'.store, s'.traffic, wid, s.watches[wid], ref.name)
  {
    hide RegistryInv;
    hide ResponsesInv;
    hide StoreOk;
    hide Fresh;
    hide Misses;
    hide Resolves;
    hide HandlerRefs;
    hide Possible;
    var name := ref.name;
    assert s.watches[wid].RefOf(name) == ref;
    match step
    case UpdateListener(key, now) => ListenerUpdateKeepsOne(s, key, now, wid, s.watches[wid], name);
    case UpdateSlice(_, _, _) => SliceUpdateKeepsOne(s, step, wid, s.watches[wid], name);
    case HandleEvent(e) => HandlingKeepsOne(s, e, wid, s.watches[wid], name);
    case NotifyLookup(about) => LookupKeepsOne(s, about, wid, name);
    case NotifyFan(about, o) => FanKeepsOne(s, about, o, wid, name);
  }

  lemma ReceiveKeepsFresh(s: State, wid0: Wid, about: Ref, ref: Ref)
    requires Inv(s) && FreshFor(s, ref) && Possible(s, Receive(wid0, about))
    ensures FreshFor(Happen(s, Receive(wid0, about)), ref)
  {
    hide RegistryInv;
    hide ResponsesInv;
    hide Fresh;
    hide StoreOk;
    var s' := Happen(s, Receive(wid0, about));
    var gone := Delivery(wid0, about);
    var w0 := s.watches[wid0].(phase := Resolving(about.typeUrl, [about.name], [], Unread));
    assert s' == s.(traffic := s.traffic.(deliveries := s.traffic.deliveries - multiset{gone}),
                    log := s'.log, watches := s.watches[wid0 := w0]);
    if !s.shutdown {
      forall wid | wid in s'.watches && Tracks(s'.watches[wid], ref)
        ensures Fresh(s'.store, s'.traffic, wid, s'.watches[wid], ref.name)
      {
        if wid == wid0 {
          ReceiveKeepsOne(s, about, wid, ref.name);
        } else {
          OtherDeliveryGone(s.store, s.traffic, gone, wid, s.watches[wid], ref.name);
        }
      }
    }
  }

  lemma DropKeepsFresh(s: State, step: Step, ref: Ref)
    requires Inv(s) && FreshFor(s, ref) && Possible(s, step) && (step.DropDone? || step.DropCtx?)
    ensures FreshFor(Happen(s, step), ref)
  {
    hide RegistryInv;
    hide ResponsesInv;
    hide Fresh;
    hide StoreOk;
    var s' := Happen(s, step);
    if !s.shutdown {
      assert step.DropDone?;
      forall wid | wid in s.watches && Tracks(s.watches[wid], ref)
        ensures Fresh(s'.store, s'.traffic, wid, s'.watches[wid], ref.name)
      {
        OtherDeliveryGone(s.store, s.traffic, Delivery(step.wid, step.ref), wid, s.watches[wid], ref.name);
      }
    }
  }

  lemma LifeKeepsFresh(s: State, step: Step, ref: Ref)
    requires FreshFor(s, ref) && Possible(s, step) && (step.Shutdown? || step.Start? || step.Cancel?)
    ensures FreshFor(Happen(s, step), ref)
  {
    hide Fresh;
    if step.Start? && step.req.names == [] {
      assert ref.name !in step.req.names;
    }
  }

  lemma ActKeepsFresh(s: State, wid: Wid, action: Action, ref: Ref)
    requires Inv(s) && FreshFor(s, ref) && wid in s.watches && CanAct(s.registry, s.watches[wid], action)
    ensures FreshFor(WatchActs(s, wid, action), ref)
  {
    var w := s.watches[wid];
    var w' := Local(s.store, s.registry, s.objects, wid, w, action).1;
    var s' := WatchActs(s, wid, action);
    assert s'.store == s.store && s'.traffic == s.traffic && s'.watches == s.watches[wid := w'] && s'.shutdown == s.shutdown;
    hide Local;
    hide CanAct;
    hide RegistryInv;
    hide ResponsesInv;
    hide Fresh;
    hide StoreOk;
    if !s.shutdown && Tracks(w', ref) {
      ActKeepsOne(s, wid, action, ref);
    }
  }

  lemma LocalKeepsReq(store: Store, reg: Reg, unused: nat, wid: Wid, w: Watch, action: Action)
    requires CanAct(reg, w, action)
    ensures var w' := Local(store, reg, unused, wid, w, action).1;
            w'.req == w.req && w'.known == w.known && w'.cancelled == w.cancelled
  {
    hide ResolveStep;
    hide SubscribeStep;
    hide Remember;
    hide TargetKey;
    hide QueriesFor;
  }

  lemma ActKeepsOne(s: State, wid: Wid, action: Action, ref: Ref)
    requires Inv(s) && FreshFor(s, ref) && !s.shutdown && wid in s.watches && CanAct(s.registry, s.watches[wid], action)
    requires Tracks(Local(s.store, s.registry, s.objects, wid, s.watches[wid], action).1, ref)
    ensures Fresh(s.store, s.traffic, wid, Local(s.store, s.registry, s.objects, wid, s.watches[wid], action).1, ref.name)
  {
    var w, name := s.watches[wid], ref.name;
    LocalKeepsReq(s.store, s.registry, s.objects, wid, w, action);
    assert ResponsesOk(w);
    hide Local;
    hide CanAct;
    hide ResponsesOk;
    hide RegistryInv;
    hide StoreOk;
    hide ViewOf;
    hide Current;
    hide Dirty;
    hide Present;
    hide FromView;
    if Tracked(w) ==> Current(w, name, ViewOf(s.store, w.RefOf(name))) {
      LocalKeepsCurrent(s.store, s.registry, s.objects, wid, w, action, name);
    }
  }

  /** Every step keeps registry agreement, the shape of responses and a well-formed store. */
  lemma StepKeepsInv(s: State, step: Step)
    requires Inv(s) && Enabled(s, step)
    ensures Inv(Apply(s, step))
  {
    hide RegistryInv;
    hide ResponsesInv;
    hide StoreOk;
    hide CanAct;
    hide Possible;
    StepKeepsRegistry(s, step);
    StepKeepsResponses(s, step);
    if step.Act? {
      hide Local;
    } else {
      StoreStaysOk(s, step);
      hide Happen;
    }
  }

  /** Every step that the reference follows keeps it fresh for every watch. */
  lemma StepKeepsFresh(s: State, step: Step, ref: Ref)
    requires Inv(s) && FreshFor(s, ref) && Enabled(s, step) && StepFollows(s, step, ref)
    ensures FreshFor(Apply(s, step), ref)
  {
    hide Inv;
    hide FreshFor;
    hide Happen;
    hide WatchActs;
    hide CanAct;
    hide Possible;
    hide StepFollows;
    match step
    case Act(wid, action) => ActKeepsFresh(s, wid, action, ref);
    case Receive(wid, about) => ReceiveKeepsFresh(s, wid, about, ref);
    case DropDone(_, _) => DropKeepsFresh(s, step, ref);
    case DropCtx(_, _) => DropKeepsFresh(s, step, ref);
    case Shutdown => LifeKeepsFresh(s, step, ref);
    case Start(_, _, _) => LifeKeepsFresh(s, step, ref);
    case Cancel(_) => LifeKeepsFresh(s, step, ref);
    case _ => TrafficStepKeepsFresh(s, step, ref);
  }

  lemma {:induction false} RunKeepsInv(s: State, steps: seq<Step>)
    requires Inv(s) && ValidRun(s, steps)
    ensures Inv(Run(s, steps))
    decreases |steps|
  {
    hide Inv;
    hide Apply;
    hide Enabled;
    if steps != [] {
      StepKeepsInv(s, steps[0]);
      RunKeepsInv(Apply(s, steps[0]), steps[1..]);
    }
  }

  /** The reference follows every update of a run. */
  ghost predicate Follows(s: State, steps: seq<Step>, ref: Ref)
    requires ValidRun(s, steps)
    decreases |steps|
  {
    steps == [] || (StepFollows(s, steps[0], ref) && Follows(Apply(s, steps[0]), steps[1..], ref))
  }

  lemma {:induction false} RunKeepsFresh(s: State, steps: seq<Step>, ref: Ref)
    requires Inv(s) && FreshFor(s, ref) && ValidRun(s, steps) && Follows(s, steps, ref)
    ensures FreshFor(Run(s, steps), ref)
    decreases |steps|
  {
    hide Inv;
    hide FreshFor;
    hide Apply;
    hide Enabled;
    hide StepFollows;
    if steps != [] {
      StepKeepsInv(s, steps[0]);
      StepKeepsFresh(s, steps[0], ref);
      RunKeepsFresh(Apply(s, steps[0]), steps[1..], ref);
    }
  }

  lemma InitInv()
    ensures Inv(Init()) && forall ref :: FreshFor(Init(), ref)
  {}

  // ---- no change is lost ----

  /** A name whose reference is the one the control plane itself prints for what the name targets. */
  predicate Canonical(ref: Ref) {
    ref.typeUrl == ListenerType || CanonicalBackendName(ref.name)
  }

  /** A canonical name that resolves is owned by the stored listener it targets. */
  lemma ResolvedIsPresent(store: Store, node: Node, ref: Ref)
    requires StoreOk(store) && Canonical(ref) && Resolve(store, node, ref).Some?
    ensures Present(store, ref)
  {
    var key := TargetKey(ref).value;
    var listener := store.listeners[key];
    if ref.typeUrl == ListenerType {
      ListenerNameInverse(ref.name, "", "");
      assert ref == ListenerRef(listener);
      assert OwnedAt(store, key, ref);
    } else {
      var p := ParseBackendName(ref.name).value;
      BackendNameNormalisation(ref.name);
      hide LoadAssignment;
      hide BackendName;
      hide CanonicalBackendName;
      hide WellNamed;
      assert TargetBackend(ref, listener).Ok?;
      assert HasBackend(listener, p.routeId, p.backendId);
      assert IsBackendRef(ref, listener, p.routeId, p.backendId);
      assert OwnedAt(store, key, ref);
    }
  }

  /** A resolve or a send for the name is under way, and everything it holds so far is current. */
  ghost predicate UnderWay(w: Watch, name: string, view: Option<View>) {
    && (w.phase.Resolving? || w.phase.Sending?) && name in w.phase.names
    && Current(w, name, view)
  }

  /**
   * For a live watch and a name it answers for that currently resolves: the name was sent, last with the
   * current resolution, or a current resolve or send of the name is under way, or an event for the current
   * objects, a notification or a delivery for it is still pending.
   */
  ghost predicate NotLost(s: State, wid: Wid, name: string) {
    wid in s.watches && !s.shutdown && Tracked(s.watches[wid]) && !s.watches[wid].phase.Deciding?
    && Answers(s.watches[wid], name) ==>
      var w := s.watches[wid];
      var ref := w.RefOf(name);
      var now := Resolve(s.store, w.req.node, ref);
      now.Some? ==>
        || (name in w.lastSent && w.lastSent[name] == now.value)
        || UnderWay(w, name, ViewOf(s.store, ref))
        || Dirty(s.store, s.traffic, wid, ref)
  }

  /** No change of a canonical name is lost, in any state of any interleaving whose updates the name follows. */
  lemma NoChangeIsLost(steps: seq<Step>, wid: Wid, name: string)
    requires ValidRun(Init(), steps)
    ensures var s := Run(Init(), steps);
            wid in s.watches && Canonical(s.watches[wid].RefOf(name)) && Follows(Init(), steps, s.watches[wid].RefOf(name)) ==>
              NotLost(s, wid, name)
  {
    var s := Run(Init(), steps);
    InitInv();
    RunKeepsInv(Init(), steps);
    hide *;
    if wid in s.watches && Canonical(s.watches[wid].RefOf(name)) && Follows(Init(), steps, s.watches[wid].RefOf(name)) {
      RunKeepsFresh(Init(), steps, s.watches[wid].RefOf(name));
      FreshIsNotLost(s, wid, name);
    }
  }

  lemma FreshIsNotLost(s: State, wid: Wid, name: string)
    requires Inv(s) && wid in s.watches && FreshFor(s, s.watches[wid].RefOf(name)) && Canonical(s.watches[wid].RefOf(name))
    ensures NotLost(s, wid, name)
  {
    var w := s.watches[wid];
    var ref := w.RefOf(name);
    if !s.shutdown && Tracked(w) && Answers(w, name) && Resolve(s.store, w.req.node, ref).Some? {
      if name in w.lastSent {
        SentNamesWereRequested(w, name);
      }
      ResolveIsFromView(s.store, w.req.node, ref);
      assert Tracks(w, ref);
      assert Fresh(s.store, s.traffic, wid, w, name);
      ResolvedIsPresent(s.store, w.req.node, ref);
      hide Resolve;
      hide FromView;
      hide ViewOf;
      hide Present;
      hide Dirty;
      hide Answers;
    }
  }

  lemma SentNamesWereRequested(w: Watch, name: string)
    requires ResponsesOk(w) && name in w.lastSent
    ensures name in w.req.names
  {
    hide PhaseOk;
    hide Filled;
    SentNameSource(w.sent, name);
  }

  lemma {:induction false} SentNameSource(sent: seq<Response>, name: string)
    requires name in SentNames(sent)
    ensures exists i :: 0 <= i < |sent| && name in sent[i].names
  {
    var n := |sent| - 1;
    if name !in sent[n].names {
      SentNameSource(sent[..n], name);
      var i :| 0 <= i < n && name in sent[..n][i].names;
      assert sent[i] == sent[..n][i];
    }
  }
}
