/** No change is lost: every step of every interleaving keeps the freshness invariant. */
module FreshnessSteps {
  import opened Common
  import opened Spec
  import opened Backends
  import opened Resolver
  import opened Notify
  import opened Protocol
  import opened RegistryInvariant
  import opened Responses
  import opened Freshness

  // ---- the environment ----

  lemma ListenerUpdateKeepsOne(s: State, key: Key, now: Option<Listener>, wid: Wid, w: Watch, name: string)
    requires StoreOk(s.store) && Possible(s, UpdateListener(key, now))
    requires Fresh(s.store, s.traffic, wid, w, name)
    ensures var s' := Happen(s, UpdateListener(key, now));
            StoreOk(s'.store) && Fresh(s'.store, s'.traffic, wid, w, name)
  {
    hide UpToDate;
    hide ViewOf;
    hide Owns;
    hide WellNamed;
    hide SliceReaches;
    var s' := Happen(s, UpdateListener(key, now));
    var ref := w.RefOf(name);
    assert ListenersAgreeElsewhere(s.store, s'.store, key);
    if Present(s'.store, ref) {
      if OwnedAt(s'.store, key, ref) {
        assert ListenerEvent(now.value) in s'.traffic.events;
        assert EventReaches(s'.store, ListenerEvent(now.value), ref);
      } else {
        ListenerChangeFrame(s.store, s'.store, key, ref);
        hide EventReaches;
        hide Present;
        DirtyCarriesOver(s.store, s.traffic, s'.store, s'.traffic, wid, ref);
      }
    }
  }

  /** Pending traffic stays pending when nothing of it is removed and events keep reaching. */
  lemma DirtyCarriesOver(store: Store, t: Traffic, store': Store, t': Traffic, wid: Wid, ref: Ref)
    requires t.events <= t'.events && t.notifications <= t'.notifications && t.deliveries <= t'.deliveries
    requires forall e :: EventReaches(store, e, ref) ==> EventReaches(store', e, ref)
    ensures Dirty(store, t, wid, ref) ==> Dirty(store', t', wid, ref)
  {
    hide EventReaches;
  }

  lemma SliceUpdateKeepsOne(s: State, step: Step, wid: Wid, w: Watch, name: string)
    requires StoreOk(s.store) && step.UpdateSlice? && Possible(s, step)
    requires Fresh(s.store, s.traffic, wid, w, name)
    requires !(Misses(s.store, step.key, step.meta, w.RefOf(name)) && Resolves(s.store.(slices := step.slices), w.RefOf(name)))
    ensures var s' := Happen(s, step);
            StoreOk(s'.store) && Fresh(s'.store, s'.traffic, wid, w, name)
  {
    hide UpToDate;
    hide ViewOf;
    hide Owns;
    hide WellNamed;
    hide SliceReaches;
    hide Elsewhere;
    hide AllCarry;
    hide Misses;
    hide Resolves;
    var s' := Happen(s, step);
    var ref := w.RefOf(name);
    assert Present(s'.store, ref) ==> Present(s.store, ref) by {
      if Present(s'.store, ref) {
        var k :| OwnedAt(s'.store, k, ref);
        assert OwnedAt(s.store, k, ref);
      }
    }
    if Present(s'.store, ref) {
      if EventReaches(s.store, SliceEvent(step.meta), ref) {
        assert SliceEvent(step.meta) in s'.traffic.events;
        assert EventReaches(s'.store, SliceEvent(step.meta), ref);
      } else {
        SliceChangeFrame(s.store, step.slices, step.key, step.meta, ref);
        DirtyCarriesOver(s.store, s.traffic, s'.store, s'.traffic, wid, ref);
        UnresolvedIsUpToDate(s'.store, w, name);
      }
    }
  }

  lemma UnresolvedIsUpToDate(store: Store, w: Watch, name: string)
    ensures !Resolves(store, w.RefOf(name)) ==> UpToDate(w, name, ViewOf(store, w.RefOf(name)))
  {
    ResolvesForEveryNode(store, w.req.node, w.RefOf(name));
    ResolveIsFromView(store, w.req.node, w.RefOf(name));
    hide Resolve;
    hide Resolves;
    hide FromView;
    hide ViewOf;
    hide Current;
  }

  // ---- event handlers and notifications ----

  lemma HandlingKeepsOne(s: State, e: Event, wid: Wid, w: Watch, name: string)
    requires Possible(s, HandleEvent(e)) && Fresh(s.store, s.traffic, wid, w, name)
    ensures Fresh(s.store, Happen(s, HandleEvent(e)).traffic, wid, w, name)
  {
    hide UpToDate;
    hide ViewOf;
    hide Present;
    hide EventReaches;
    hide HandlerRefs;
    var s' := Happen(s, HandleEvent(e));
    var ref := w.RefOf(name);
    if EventReaches(s.store, e, ref) {
      HandlerCoversEvent(s.store, e, ref);
      var looks := set r | r in HandlerRefs(s.store, e) :: Looking(r);
      assert Looking(ref) in looks;
      assert s'.traffic.notifications == s.traffic.notifications + multiset(looks);
      assert Looking(ref) in s'.traffic.notifications;
    } else {
      assert forall e2 :: e2 in s.traffic.events && EventReaches(s.store, e2, ref) ==> e2 in s'.traffic.events;
      assert s.traffic.notifications <= s'.traffic.notifications;
    }
  }

  lemma TrackedIsSubscribed(s: State, wid: Wid, name: string)
    requires RegistryInv(s) && wid in s.watches && Tracked(s.watches[wid]) && name in s.watches[wid].req.names
    ensures s.registry.Subscribed(s.watches[wid].RefOf(name), wid)
  {
    var w := s.watches[wid];
    assert WatchOk(s.registry, wid, w);
    var i :| 0 <= i < |w.req.names| && w.req.names[i] == name;
    assert w.RefOf(w.req.names[i]) in AllRefs(w.req);
  }

  lemma LookupKeepsOne(s: State, ref: Ref, wid: Wid, name: string)
    requires RegistryInv(s) && Possible(s, NotifyLookup(ref))
    requires wid in s.watches && Tracked(s.watches[wid]) && name in s.watches[wid].req.names
    requires Fresh(s.store, s.traffic, wid, s.watches[wid], name)
    ensures Fresh(s.store, Happen(s, NotifyLookup(ref)).traffic, wid, s.watches[wid], name)
  {
    TrackedIsSubscribed(s, wid, name);
    hide Agreement;
    hide Conserved;
    hide AllRefs;
    hide UpToDate;
    hide ViewOf;
    hide Present;
    hide EventReaches;
    var t' := Happen(s, NotifyLookup(ref)).traffic;
    var mine := s.watches[wid].RefOf(name);
    assert t'.events == s.traffic.events && t'.deliveries == s.traffic.deliveries;
    if mine == ref {
      assert Fanning(mine, s.registry.entries[ref]) in t'.notifications;
    } else {
      assert Looking(mine) in s.traffic.notifications ==> Looking(mine) in t'.notifications;
      assert forall o :: Fanning(mine, o) in s.traffic.notifications ==> Fanning(mine, o) in t'.notifications;
    }
  }

  lemma FanKeepsOne(s: State, ref: Ref, o: nat, wid: Wid, name: string)
    requires RegistryInv(s) && Possible(s, NotifyFan(ref, o))
    requires wid in s.watches && Tracked(s.watches[wid]) && name in s.watches[wid].req.names
    requires Fresh(s.store, s.traffic, wid, s.watches[wid], name)
    ensures Fresh(s.store, Happen(s, NotifyFan(ref, o)).traffic, wid, s.watches[wid], name)
  {
    TrackedIsSubscribed(s, wid, name);
    hide Agreement;
    hide Conserved;
    hide AllRefs;
    hide UpToDate;
    hide ViewOf;
    hide Present;
    hide EventReaches;
    var t' := Happen(s, NotifyFan(ref, o)).traffic;
    var mine := s.watches[wid].RefOf(name);
    assert t'.events == s.traffic.events && s.traffic.deliveries <= t'.deliveries;
    if mine == ref {
      var spawned := set x | x in s.registry.members[o] :: Delivery(x, ref);
      assert Delivery(wid, mine) in spawned;
      assert t'.deliveries == s.traffic.deliveries + multiset(spawned);
      assert Delivery(wid, mine) in t'.deliveries;
    } else {
      assert Looking(mine) in s.traffic.notifications ==> Looking(mine) in t'.notifications;
      assert forall o2 :: Fanning(mine, o2) in s.traffic.notifications ==> Fanning(mine, o2) in t'.notifications;
    }
  }

  // ---- deliveries ----

  /** Removing a delivery of another watch or reference leaves this one's traffic pending. */
  lemma OtherDeliveryGone(store: Store, t: Traffic, gone: Delivery, wid: Wid, w: Watch, name: string)
    requires Fresh(store, t, wid, w, name) && gone != Delivery(wid, w.RefOf(name))
    ensures Fresh(store, t.(deliveries := t.deliveries - multiset{gone}), wid, w, name)
  {
    hide UpToDate;
    hide ViewOf;
    hide Present;
    hide EventReaches;
  }

  /** Receiving a change starts a resolve of that name from scratch; other names are untouched. */
  lemma RestartIsCurrent(w: Watch, changed: string, name: string, view: Option<View>)
    requires w.phase.Idle?
    requires name != changed ==> Current(w, name, view)
    ensures Current(w.(phase := Resolving(w.req.typeUrl, [changed], [], Unread)), name, view)
  {
    hide FromView;
  }

  lemma ReceiveKeepsOne(s: State, ref: Ref, wid: Wid, name: string)
    requires RegistryInv(s) && Possible(s, Receive(wid, ref))
    requires name in s.watches[wid].req.names
    requires Fresh(s.store, s.traffic, wid, s.watches[wid], name)
    ensures Fresh(s.store, s.traffic.(deliveries := s.traffic.deliveries - multiset{Delivery(wid, ref)}), wid,
                  s.watches[wid].(phase := Resolving(ref.typeUrl, [ref.name], [], Unread)), name)
  {
    var w := s.watches[wid];
    assert ref in AllRefs(w.req);
    assert ref == w.RefOf(ref.name);
    hide RegistryInv;
    hide AllRefs;
    hide Possible;
    hide Current;
    hide ViewOf;
    hide Present;
    hide EventReaches;
    var view := ViewOf(s.store, w.RefOf(name));
    if name == ref.name {
      RestartIsCurrent(w, ref.name, name, view);
    } else {
      OtherDeliveryGone(s.store, s.traffic, Delivery(wid, ref), wid, w, name);
      hide FromView;
      if Current(w, name, view) {
        RestartIsCurrent(w, ref.name, name, view);
      }
    }
  }

  // ---- a watch's own steps ----

  lemma EmptySentHoldsNothing(w: Watch)
    requires ResponsesOk(w) && w.sent == []
    ensures w.lastSent == map[]
  {
    hide PhaseOk;
    hide ResponseOk;
  }

  /** A resolve step keeps what is read in agreement with the store, or ends without anything to say. */
  lemma ResolveKeepsCurrent(store: Store, w: Watch, name: string)
    requires w.phase.Resolving? && ResponsesOk(w)
    requires Current(w, name, ViewOf(store, w.RefOf(name)))
    ensures Current(w.(phase := ResolveStep(store, w.req.node, w.phase.typeUrl, w.phase.names, w.phase.done, w.phase.cur)), name,
                    ViewOf(store, w.RefOf(name)))
  {
    hide Finish;
    hide TargetKey;
    hide QueriesFor;
    hide NamesOk;
    hide Filled;
    hide ResponseOk;
    var Resolving(typeUrl, names, done, cur) := w.phase;
    if w.sent == [] {
      EmptySentHoldsNothing(w);
    }
    hide SentNames;
    if |done| < |names| {
      var ref := w.RefOf(names[|done|]);
      if name == names[|done|] {
        ResolveKeepsCurrentHere(store, w, name);
      } else {
        ResolveKeepsCurrentThere(store, w, name);
      }
    }
  }

  /** The case of the name being resolved. */
  lemma ResolveKeepsCurrentHere(store: Store, w: Watch, name: string)
    requires w.phase.Resolving? && PhaseOk(w)
    requires |w.phase.done| < |w.phase.names| && name == w.phase.names[|w.phase.done|]
    requires Current(w, name, ViewOf(store, w.RefOf(name)))
    ensures Current(w.(phase := ResolveStep(store, w.req.node, w.phase.typeUrl, w.phase.names, w.phase.done, w.phase.cur)), name,
                    ViewOf(store, w.RefOf(name)))
  {
    hide Finish;
    hide TargetKey;
    hide QueriesFor;
    hide NamesOk;
    hide Filled;
    var Resolving(typeUrl, names, done, cur) := w.phase;
    var ref := w.RefOf(name);
    var view := ViewOf(store, ref);
    if cur.Read? {
      var queries := QueriesFor(ref, cur.listener);
      assert view.Some? && view.value.found == Reads(store.slices, queries);
      if |cur.found| < |queries| {
        var more := cur.found + [Select(store.slices, queries[|cur.found|])];
        assert more == view.value.found[..|more|];
      } else {
        assert cur.found == view.value.found;
        assert FromView(w.req.node, ref, view) == Finish(w.req.node, ref, cur.listener, cur.found);
      }
    }
  }

  /** A resolve step gives up, reads on for the current name, or finishes it and turns to the next. */
  ghost predicate GoesOn(w: Watch, p: Phase)
    requires w.phase.Resolving?
  {
    var Resolving(typeUrl, names, done, _) := w.phase;
    || p.Idle?
    || (p.Resolving? && p.names == names && p.done == done)
    || (p.Resolving? && p.names == names && |p.done| == |done| + 1 && p.done[..|done|] == done && p.cur.Unread?)
  }

  lemma ResolveStepGoesOn(store: Store, w: Watch)
    requires w.phase.Resolving? && PhaseOk(w) && |w.phase.done| < |w.phase.names|
    ensures GoesOn(w, ResolveStep(store, w.req.node, w.phase.typeUrl, w.phase.names, w.phase.done, w.phase.cur))
  {
    hide Finish;
    hide TargetKey;
    hide QueriesFor;
    hide NamesOk;
    hide Filled;
  }

  /** The case of another name. */
  lemma ResolveKeepsCurrentThere(store: Store, w: Watch, name: string)
    requires w.phase.Resolving? && PhaseOk(w) && (w.sent == [] ==> w.lastSent == map[])
    requires |w.phase.done| < |w.phase.names| && name != w.phase.names[|w.phase.done|]
    requires Current(w, name, ViewOf(store, w.RefOf(name)))
    ensures Current(w.(phase := ResolveStep(store, w.req.node, w.phase.typeUrl, w.phase.names, w.phase.done, w.phase.cur)), name,
                    ViewOf(store, w.RefOf(name)))
  {
    hide ResolveStep;
    hide Current;
    hide ViewOf;
    ResolveStepGoesOn(store, w);
    OtherIsUnasked(w, w.phase.names[|w.phase.done|], name);
    hide PhaseOk;
    hide GoesOn;
    OtherStaysCurrent(w, ResolveStep(store, w.req.node, w.phase.typeUrl, w.phase.names, w.phase.done, w.phase.cur), name,
                      ViewOf(store, w.RefOf(name)));
  }

  /** Two different names are being resolved only at the start, and never for a request with one name. */
  lemma OtherIsUnasked(w: Watch, mine: string, other: string)
    requires w.phase.Resolving? && PhaseOk(w) && mine in w.phase.names && mine != other
    ensures !(Solo(w) && other in w.req.names)
    ensures other in w.phase.names ==> w.sent == []
  {
    hide Filled;
    hide ReadingOk;
  }

  lemma OtherStaysCurrent(w: Watch, p: Phase, name: string, view: Option<View>)
    requires w.phase.Resolving? && |w.phase.done| < |w.phase.names| && GoesOn(w, p) && Current(w, name, view)
    requires name != w.phase.names[|w.phase.done|]
    requires !(Solo(w) && name in w.req.names) && (name in w.phase.names ==> w.lastSent == map[])
    ensures Current(w.(phase := p), name, view)
  {
    hide FromView;
    assert Solo(w.(phase := p)) == Solo(w);
    hide Solo;
    var now := FromView(w.req.node, w.RefOf(name), view);
    if p.Resolving? && name in w.phase.names {
      assert forall j :: 0 <= j < |w.phase.done| ==> p.done[j] == w.phase.done[j];
      assert ContentsCurrent(p.names, p.done, name, now);
    }
  }

  lemma {:induction false} RecordIsCurrent(w: Watch, names: seq<string>, contents: seq<Content>, name: string, now: Option<Content>)
    requires |names| == |contents|
    requires if name in names then ContentsCurrent(names, contents, name, now) else SentIsCurrent(w, name, now)
    ensures SentIsCurrent(w.(lastSent := Remember(w.lastSent, names, contents)), name, now)
  {
    if names != [] {
      var n := |names| - 1;
      assert names == names[..n] + [names[n]];
      if names[n] != name {
        assert name in names[..n] <==> name in names;
        RecordIsCurrent(w, names[..n], contents[..n], name, now);
      }
    }
  }

  lemma SendKeepsCurrent(w: Watch, name: string, view: Option<View>)
    requires w.phase.Sending? && PhaseOk(w) && Current(w, name, view)
    ensures var Sending(typeUrl, names, contents) := w.phase;
            Current(w.(phase := Idle, lastSent := Remember(w.lastSent, names, contents),
                       sent := w.sent + [Response(typeUrl, names, contents)]), name, view)
  {
    hide FromView;
    hide NamesOk;
    hide Filled;
    hide Remember;
    RecordIsCurrent(w, w.phase.names, w.phase.contents, name, FromView(w.req.node, w.RefOf(name), view));
  }

  lemma LocalKeepsCurrent(store: Store, reg: Reg, unused: nat, wid: Wid, w: Watch, action: Action, name: string)
    requires CanAct(reg, w, action) && ResponsesOk(w)
    requires Tracked(w) ==> Current(w, name, ViewOf(store, w.RefOf(name)))
    requires Tracked(Local(store, reg, unused, wid, w, action).1)
    ensures Current(Local(store, reg, unused, wid, w, action).1, name, ViewOf(store, w.RefOf(name)))
  {
    hide Finish;
    hide TargetKey;
    hide QueriesFor;
    hide Remember;
    hide FromView;
    hide ViewOf;
    hide SubscribeStep;
    hide ResponseOk;
    match w.phase
    case Resolving(_, _, _, _) =>
      ResolveKeepsCurrent(store, w, name);
      hide ResolveStep;
    case Sending(_, _, _) =>
      hide ResolveStep;
      SendKeepsCurrent(w, name, ViewOf(store, w.RefOf(name)));
    case _ =>
      hide ResolveStep;
      if w.phase.Subscribing? || w.phase.Deciding? {
        EmptySentHoldsNothing(w);
      }
  }
}
