/**
 * The initial response answers for all requested names or for none: while the store stands still, one name
 * that does not resolve withholds all the others.
 */
module Withheld {
  import opened Names
  import opened Backends
  import opened Notify
  import opened Silence
  import opened Spec
  import opened Common
  import opened Resolver
  import opened Protocol
  import opened Responses
  import opened Freshness
  import opened NoLostChange
  import opened Progress
  import opened Settling
  import opened Building

  /** A watch that nobody notifies holds all it was asked for, or nothing. */
  ghost predicate WholeOrNothing(store: Store, w: Watch) {
    match w.phase
    case Resolving(_, names, _, _) => names == w.req.names && w.lastSent == map[]
    case Sending(_, names, _) => names == w.req.names && w.lastSent == map[]
    case Idle =>
      if AllResolve(store, w.req.node, w.req.typeUrl, w.req.names) then w.lastSent.Keys == NameSet(w.req.names)
      else w.lastSent == map[]
    case _ => w.lastSent == map[]
  }

  /** Some requested name is new to the stream, so the watch resolves them all at its start. */
  ghost predicate IsNew(w: Watch) {
    w.req.names == [] || exists i :: 0 <= i < |w.req.names| && w.req.names[i] !in w.known
  }

  ghost predicate AllCurrent(store: Store, w: Watch) {
    Tracked(w) ==> forall name :: name in w.req.names ==> Current(w, name, ViewOf(store, w.RefOf(name)))
  }

  /** A resolve gives up only on a name that does not resolve. */
  lemma GivesUpOnUnresolved(store: Store, w: Watch)
    requires w.phase.Resolving? && PhaseOk(w) && AllCurrent(store, w) && Tracked(w) && w.phase.names == w.req.names
    requires ResolveStep(store, w.req.node, w.phase.typeUrl, w.phase.names, w.phase.done, w.phase.cur).Idle?
    ensures !AllResolve(store, w.req.node, w.req.typeUrl, w.req.names)
  {
    hide Finish;
    hide TargetKey;
    hide QueriesFor;
    hide NamesOk;
    hide Filled;
    var Resolving(_, names, done, cur) := w.phase;
    var name := names[|done|];
    assert Current(w, name, ViewOf(store, w.RefOf(name)));
    assert Resolve(store, w.req.node, w.RefOf(name)).None? by {
      if cur.Read? {
        var view := ViewOf(store, w.RefOf(name)).value;
        assert cur.found == view.found;
      }
    }
  }

  /** A response that is sent has every name resolved. */
  lemma SendsAllResolved(store: Store, w: Watch)
    requires w.phase.Sending? && PhaseOk(w) && AllCurrent(store, w) && Tracked(w) && w.phase.names == w.req.names
    ensures AllResolve(store, w.req.node, w.req.typeUrl, w.req.names)
  {
    hide FromView;
    hide ViewOf;
    hide Resolve;
    hide NamesOk;
    hide Filled;
    var Sending(_, names, contents) := w.phase;
    forall i | 0 <= i < |names|
      ensures Resolve(store, w.req.node, Ref(w.req.typeUrl, names[i])).Some?
    {
      ResolveIsFromView(store, w.req.node, w.RefOf(names[i]));
      assert Current(w, names[i], ViewOf(store, w.RefOf(names[i])));
    }
  }

  lemma ActKeepsWhole(store: Store, reg: Reg, unused: nat, wid: Wid, w: Watch, action: Action)
    requires CanAct(reg, w, action) && ResponsesOk(w) && !w.cancelled && IsNew(w)
    requires AllCurrent(store, w) && WholeOrNothing(store, w)
    ensures WholeOrNothing(store, Local(store, reg, unused, wid, w, action).1)
  {
    hide AllCurrent;
    hide AllResolve;
    hide ResolveStep;
    hide SubscribeStep;
    hide ReleaseStep;
    hide TargetKey;
    hide QueriesFor;
    hide Remember;
    if action.Advance? && w.phase.Resolving? {
      ResolveKeepsWhole(store, w);
      hide WholeOrNothing;
      hide PhaseOk;
    } else if action.SendResponse? {
      SendsAllResolved(store, w);
      RecordedNames(w.lastSent, w.phase.names, w.phase.contents);
    }
  }

  lemma ResolveKeepsWhole(store: Store, w: Watch)
    requires w.phase.Resolving? && PhaseOk(w) && Tracked(w) && AllCurrent(store, w) && WholeOrNothing(store, w)
    ensures WholeOrNothing(store,
                           w.(phase := ResolveStep(store, w.req.node, w.phase.typeUrl, w.phase.names, w.phase.done, w.phase.cur)))
  {
    hide AllCurrent;
    hide AllResolve;
    hide Finish;
    hide TargetKey;
    hide QueriesFor;
    var p := ResolveStep(store, w.req.node, w.phase.typeUrl, w.phase.names, w.phase.done, w.phase.cur);
    if p.Idle? {
      GivesUpOnUnresolved(store, w);
    }
  }

  /** Nothing is in flight, and the watch holds all or nothing. */
  ghost predicate Quiet(s: State, wid: Wid) {
    && s.traffic == Traffic(multiset{}, multiset{}, multiset{})
    && wid in s.watches && !s.watches[wid].cancelled && IsNew(s.watches[wid])
    && AllCurrent(s.store, s.watches[wid]) && WholeOrNothing(s.store, s.watches[wid])
  }

  lemma InternalKeepsQuiet(s: State, step: Step, wid: Wid)
    requires Inv(s) && Internal(step) && Enabled(s, step) && Quiet(s, wid)
    ensures Quiet(Apply(s, step), wid)
  {
    var w, s' := s.watches[wid], Apply(s, step);
    assert step.Act? && ResponsesOk(w);
    InternalKeepsOutside(s, step);
    hide Inv;
    hide ResponsesOk;
    hide Current;
    hide ViewOf;
    hide CanAct;
    assert AllCurrent(s'.store, s'.watches[wid]) by {
      hide Local;
      hide WholeOrNothing;
      forall name | Tracked(s'.watches[wid]) && name in w.req.names
        ensures Current(s'.watches[wid], name, ViewOf(s'.store, s'.watches[wid].RefOf(name)))
      {
        InternalKeepsCurrent(s, step, wid, name);
      }
    }
    hide AllCurrent;
    if step.wid == wid {
      ActKeepsWhole(s.store, s.registry, s.objects, wid, w, step.action);
    }
    hide Local;
    hide WholeOrNothing;
  }

  lemma {:induction false} RunKeepsQuiet(s: State, steps: seq<Step>, wid: Wid)
    requires Inv(s) && InternalRun(s, steps) && Quiet(s, wid)
    ensures Quiet(Run(s, steps), wid)
    decreases |steps|
  {
    hide Inv;
    hide Apply;
    hide Enabled;
    hide Quiet;
    if steps != [] {
      InternalTail(s, steps);
      StepKeepsInv(s, steps[0]);
      InternalKeepsQuiet(s, steps[0], wid);
      hide InternalRun;
      hide ValidRun;
      hide Run;
      RunKeepsQuiet(Apply(s, steps[0]), steps[1..], wid);
    }
  }

  /** A watch that has not got beyond subscribing. */
  ghost predicate JustStarted(w: Watch) {
    (w.phase.Subscribing? || w.phase.Deciding?) && w.lastSent == map[] && !w.cancelled && IsNew(w)
  }

  /**
   * A watch with a name new to the stream, started while nothing is in flight: on every schedule until the
   * environment moves it settles holding all requested names, if all of them resolve, and otherwise nothing.
   */
  lemma AnsweredWhollyOrNotAtAll(s: State, wid: Wid, steps: seq<Step>)
    requires Inv(s) && s.traffic == Traffic(multiset{}, multiset{}, multiset{})
    requires wid in s.watches && JustStarted(s.watches[wid])
    requires InternalRun(s, steps) && Settled(Run(s, steps))
    ensures wid in Run(s, steps).watches
    ensures var req := s.watches[wid].req;
            Run(s, steps).watches[wid].lastSent.Keys ==
            if AllResolve(s.store, req.node, req.typeUrl, req.names) then NameSet(req.names) else {}
  {
    assert ValidRun(s, steps);
    hide Inv;
    hide InternalRun;
    hide ValidRun;
    hide Run;
    hide Quiet;
    hide JustStarted;
    hide Settled;
    hide AllResolve;
    StartsQuiet(s, wid);
    RunKeepsQuiet(s, steps, wid);
    InternalRunKeepsOutside(s, steps);
    SettlesWhole(Run(s, steps), wid);
  }

  lemma StartsQuiet(s: State, wid: Wid)
    requires s.traffic == Traffic(multiset{}, multiset{}, multiset{}) && wid in s.watches && JustStarted(s.watches[wid])
    ensures Quiet(s, wid)
  {
    hide IsNew;
  }

  lemma SettlesWhole(s: State, wid: Wid)
    requires Quiet(s, wid) && Settled(s)
    ensures var req := s.watches[wid].req;
            s.watches[wid].lastSent.Keys ==
            if AllResolve(s.store, req.node, req.typeUrl, req.names) then NameSet(req.names) else {}
  {
    hide IsNew;
    hide AllCurrent;
    hide AllResolve;
  }

  /** On every store such a watch can be started for every request. */
  lemma WatchCanStart(store: Store, req: Request, ref: Ref) returns (s: State)
    requires StoreOk(store) && AsksInDomain(req)
    ensures Reached(s, ref) && s.store == store && !s.shutdown && s.traffic == Traffic(multiset{}, multiset{}, multiset{})
    ensures 0 in s.watches && s.watches[0].req == req && JustStarted(s.watches[0])
  {
    hide Reached;
    hide AsksInDomain;
    hide StoreOk;
    var s0 := ReachStore(ref, store);
    var s1 := SettleAll(s0, ref);
    s := StartWatch(s1, ref, 0, req);
    assert req.names != [] ==> req.names[0] !in s.watches[0].known;
  }

  // ---- withheld for good ----

  lemma ListenerIsSilent(s: State, listener: Listener, ref: Ref)
    requires Settled(s) && WellNamed(listener) && !Owns(listener, ref)
    ensures Silent(Apply(s, UpdateListener(KeyOf(listener), Some(listener))), ref)
  {
    hide WellNamed;
    var s' := Apply(s, UpdateListener(KeyOf(listener), Some(listener)));
    assert s'.traffic == Traffic(multiset{ListenerEvent(listener)}, multiset{}, multiset{});
    ListenerChangeReachesOwned(listener, ref);
    hide Owns;
    assert ref !in HandlerRefs(s'.store, ListenerEvent(listener));
    hide HandlerRefs;
  }

  /** A name that was withheld stays so, on every schedule, when a listener that does not own it is stored. */
  lemma StaysWithheld(s: State, wid: Wid, name: string, listener: Listener, steps: seq<Step>)
    requires Inv(s) && Settled(s) && wid in s.watches && !s.watches[wid].cancelled && name !in s.watches[wid].lastSent
    requires WellNamed(listener) && !Owns(listener, s.watches[wid].RefOf(name))
    requires InternalRun(Apply(s, UpdateListener(KeyOf(listener), Some(listener))), steps)
    ensures var s' := Run(Apply(s, UpdateListener(KeyOf(listener), Some(listener))), steps);
            wid in s'.watches && name !in s'.watches[wid].lastSent
  {
    hide WellNamed;
    hide Owns;
    var step := UpdateListener(KeyOf(listener), Some(listener));
    var s' := Apply(s, step);
    assert s'.watches == s.watches && Leaves(s'.watches[wid], name);
    ListenerIsSilent(s, listener, s.watches[wid].RefOf(name));
    hide Inv;
    hide Silent;
    hide Settled;
    StepKeepsInv(s, step);
    hide Apply;
    hide Enabled;
    hide Run;
    hide Leaves;
    SilentRunHolds(s', steps, wid, name);
  }

  function Lone(l: Listener): map<Key, Listener> { map[KeyOf(l) := l] }

  /** A listener name resolves exactly if its listener is stored and translates. */
  lemma ListenerResolves(store: Store, node: Node, l: Listener)
    requires WellNamed(l) && (KeyOf(l) in store.listeners ==> store.listeners[KeyOf(l)] == l)
    ensures Resolve(store, node, ListenerRef(l)).Some? <==>
            KeyOf(l) in store.listeners && MakeListenerResource(ListenerRef(l).name, l).Ok?
  {
    ListenerNameInverse("", l.namespace, l.name);
    hide MakeListenerResource;
  }

  /**
   * Two listeners that translate, the second stored after a watch asked for both: a state with nothing left to do in
   * which both names resolve and the watch, still live, has never been sent the first.
   */
  lemma WithheldForGood(first: Listener, second: Listener, node: Node) returns (s: State)
    requires WellNamed(first) && WellNamed(second) && KeyOf(first) != KeyOf(second)
    requires MakeListenerResource(ListenerRef(first).name, first).Ok? && MakeListenerResource(ListenerRef(second).name, second).Ok?
    ensures Reached(s, ListenerRef(first)) && Stuck(s) && !s.shutdown && 0 in s.watches
    ensures var w := s.watches[0];
            && w.req == Request(ListenerType, [ListenerRef(first).name, ListenerRef(second).name], node) && !w.cancelled
            && AllResolve(s.store, node, ListenerType, w.req.names)
            && ListenerRef(first).name !in w.lastSent
  {
    var store, both := Store(Lone(first), []), Store(Lone(first)[KeyOf(second) := second], []);
    var req := Request(ListenerType, [ListenerRef(first).name, ListenerRef(second).name], node);
    FirstStoreFails(first, second, node);
    SecondStoreResolves(first, second, node);
    NotOwned(first, second);
    assert both == store.(listeners := store.listeners[KeyOf(second) := second]) && ListenerRef(first).typeUrl == req.typeUrl;
    hide *;
    s := SecondIsStored(store, both, req, ListenerRef(first), second);
  }

  lemma NotOwned(first: Listener, second: Listener)
    requires WellNamed(first) && WellNamed(second) && KeyOf(first) != KeyOf(second)
    ensures !Owns(second, ListenerRef(first))
  {
    hide Owns;
    if Owns(second, ListenerRef(first)) {
      OwnerIsTarget(second, ListenerRef(first));
      ListenerNameInverse("", first.namespace, first.name);
    }
  }

  lemma FirstStoreFails(first: Listener, second: Listener, node: Node)
    requires WellNamed(first) && WellNamed(second) && KeyOf(first) != KeyOf(second)
    ensures var store := Store(Lone(first), []);
            var req := Request(ListenerType, [ListenerRef(first).name, ListenerRef(second).name], node);
            StoreOk(store) && AsksInDomain(req) && !AllResolve(store, node, ListenerType, req.names)
  {
    var store := Store(Lone(first), []);
    ListenerResolves(store, node, second);
    hide WellNamed;
    hide Resolve;
    var names := [ListenerRef(first).name, ListenerRef(second).name];
    assert Ref(ListenerType, names[1]) == ListenerRef(second);
  }

  lemma SecondStoreResolves(first: Listener, second: Listener, node: Node)
    requires WellNamed(first) && WellNamed(second) && KeyOf(first) != KeyOf(second)
    requires MakeListenerResource(ListenerRef(first).name, first).Ok? && MakeListenerResource(ListenerRef(second).name, second).Ok?
    ensures AllResolve(Store(Lone(first)[KeyOf(second) := second], []), node, ListenerType,
                       [ListenerRef(first).name, ListenerRef(second).name])
  {
    var both := Store(Lone(first)[KeyOf(second) := second], []);
    ListenerResolves(both, node, first);
    ListenerResolves(both, node, second);
    hide WellNamed;
    hide Resolve;
    hide MakeListenerResource;
    var names := [ListenerRef(first).name, ListenerRef(second).name];
    assert Ref(ListenerType, names[0]) == ListenerRef(first) && Ref(ListenerType, names[1]) == ListenerRef(second);
  }

  /** From a settled state in which the watch holds nothing. */
  lemma StoreSecond(s0: State, ref: Ref, second: Listener) returns (s: State)
    requires Reached(s0, ref) && Settled(s0) && WellNamed(second) && !Owns(second, ref) && 0 in s0.watches
    requires !s0.watches[0].cancelled && s0.watches[0].req.typeUrl == ref.typeUrl && s0.watches[0].lastSent.Keys == {}
    ensures Reached(s, ref) && Stuck(s) && s.shutdown == s0.shutdown && 0 in s.watches
    ensures s.store == s0.store.(listeners := s0.store.listeners[KeyOf(second) := second])
    ensures s.watches[0].req == s0.watches[0].req && !s.watches[0].cancelled && ref.name !in s.watches[0].lastSent
  {
    hide WellNamed;
    hide Owns;
    hide Reached;
    var step := UpdateListener(KeyOf(second), Some(second));
    var s1 := Apply(s0, step);
    assert s1.watches == s0.watches && s1.shutdown == s0.shutdown;
    assert s1.store == s0.store.(listeners := s0.store.listeners[KeyOf(second) := second]);
    assert s0.watches[0].RefOf(ref.name) == ref && ref.name !in s0.watches[0].lastSent;
    ReachedInv(s0, ref);
    ReachedStep(s0, step, ref);
    ReachedInv(s1, ref);
    hide Inv;
    hide FreshFor;
    hide Settled;
    hide Stuck;
    var steps := Settles(s1);
    InternalRunStays(s1, steps, ref);
    StaysWithheld(s0, 0, ref.name, second, steps);
    s := Run(s1, steps);
    ReachedInv(s, ref);
    StuckIsSettled(s);
    hide Apply;
    hide Enabled;
    hide Run;
  }

  lemma SecondIsStored(store: Store, both: Store, req: Request, ref: Ref, second: Listener) returns (s: State)
    requires StoreOk(store) && AsksInDomain(req) && WellNamed(second) && ref.typeUrl == req.typeUrl && !Owns(second, ref)
    requires both == store.(listeners := store.listeners[KeyOf(second) := second])
    requires !AllResolve(store, req.node, req.typeUrl, req.names)
    ensures Reached(s, ref) && Stuck(s) && !s.shutdown && s.store == both && 0 in s.watches
    ensures s.watches[0].req == req && !s.watches[0].cancelled && ref.name !in s.watches[0].lastSent
  {
    hide Reached;
    hide Inv;
    hide FreshFor;
    hide StoreOk;
    hide AsksInDomain;
    hide AllResolve;
    hide WellNamed;
    hide Owns;
    hide Settled;
    hide Stuck;
    hide Run;
    hide InternalRun;
    hide ValidRun;
    hide IsNew;
    var s0 := WatchCanStart(store, req, ref);
    ReachedInv(s0, ref);
    var steps0 := Settles(s0);
    InternalRunStays(s0, steps0, ref);
    assert ValidRun(s0, steps0) by { RunIsValid(s0, steps0); }
    AnsweredWhollyOrNotAtAll(s0, 0, steps0);
    s := StoreSecond(Run(s0, steps0), ref, second);
  }

  lemma RunIsValid(s: State, steps: seq<Step>)
    requires InternalRun(s, steps)
    ensures ValidRun(s, steps)
  {
    hide ValidRun;
  }
}
