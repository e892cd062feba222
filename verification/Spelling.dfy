/**
 * Updates follow the canonical spelling of a backend name only. The parser accepts other spellings of the
 * same backend, but no event ever notifies them, so a watch on such a name keeps its first content.
 */
module Spelling {
  import opened Text
  import opened Names
  import opened Spec
  import opened Backends
  import opened Resolver
  import opened Notify
  import opened Protocol
  import opened Freshness
  import opened NoLostChange

  // ---- other spellings are never notified ----

  lemma PrintedIsCanonical(namespace: string, name: string, r: int, b: int)
    requires RoundTrips(namespace, name) && IsInt(r) && IsInt(b)
    ensures CanonicalBackendName(BackendName(namespace, name, r, b))
  {
    BackendNameIsJoin(namespace, name, r, b);
    AtoiOfItoa(r);
    AtoiOfItoa(b);
    hide BackendName;
    hide Itoa;
    hide Split;
  }

  lemma OwnedIsCanonical(listener: Listener, ref: Ref)
    requires WellNamed(listener) && Owns(listener, ref)
    ensures Canonical(ref)
  {
    if ref != ListenerRef(listener) {
      var r, b :| HasBackend(listener, r, b) && IsBackendRef(ref, listener, r, b);
      PrintedIsCanonical(listener.namespace, listener.name, r, b);
    }
  }

  /** Nothing in the system is about the reference: no notification, no delivery, and no event leads to one. */
  ghost predicate Unheard(s: State, ref: Ref) {
    && StoreOk(s.store)
    && (forall listener :: ListenerEvent(listener) in s.traffic.events ==> WellNamed(listener))
    && Looking(ref) !in s.traffic.notifications
    && (forall o :: Fanning(ref, o) !in s.traffic.notifications)
    && (forall wid :: Delivery(wid, ref) !in s.traffic.deliveries)
  }

  lemma HandlersSkipOtherSpellings(store: Store, e: Event, ref: Ref)
    requires StoreOk(store) && !Canonical(ref) && (e.ListenerEvent? ==> WellNamed(e.listener))
    ensures ref !in HandlerRefs(store, e)
  {
    hide WellNamed;
    hide BackendName;
    hide Canonical;
    hide MatchesBackend;
    if ref in HandlerRefs(store, e) {
      match e
      case ListenerEvent(listener) =>
        ListenerChangeReachesOwned(listener, ref);
        OwnedIsCanonical(listener, ref);
      case SliceEvent(meta) =>
        var key, r, b :| key in store.listeners && HasBackend(store.listeners[key], r, b)
                         && ref == BackendRef(EndpointType, store.listeners[key], r, b);
        assert IsBackendRef(ref, store.listeners[key], r, b);
        OwnedIsCanonical(store.listeners[key], ref);
    }
  }

  lemma HappenKeepsUnheard(s: State, step: Step, ref: Ref)
    requires Unheard(s, ref) && !Canonical(ref) && Possible(s, step)
    ensures Unheard(Happen(s, step), ref)
  {
    hide *;
    if step.UpdateListener? || step.UpdateSlice? {
      UpdateKeepsUnheard(s, step, ref);
    } else if step.HandleEvent? {
      HandleKeepsUnheard(s, step.event, ref);
    } else {
      TrafficKeepsUnheard(s, step, ref);
    }
  }

  /** Beyond updates and handlers, a step only moves what is in flight on, under the same reference. */
  lemma TrafficKeepsUnheard(s: State, step: Step, ref: Ref)
    requires Unheard(s, ref) && Possible(s, step)
    requires !step.UpdateListener? && !step.UpdateSlice? && !step.HandleEvent?
    ensures Unheard(Happen(s, step), ref)
  {
    MovesAreAboutPresent(s, step, ref);
    hide WellNamed;
    hide StoreOk;
    hide Possible;
    hide Happen;
  }

  lemma MovesAreAboutPresent(s: State, step: Step, ref: Ref)
    requires Possible(s, step) && !step.UpdateListener? && !step.UpdateSlice? && !step.HandleEvent?
    ensures var t, t' := s.traffic, Happen(s, step).traffic;
            && Happen(s, step).store == s.store && t'.events == t.events
            && (Looking(ref) in t'.notifications ==> Looking(ref) in t.notifications)
            && (forall o :: Fanning(ref, o) in t'.notifications ==>
                              Fanning(ref, o) in t.notifications || Looking(ref) in t.notifications)
            && (forall wid :: Delivery(wid, ref) in t'.deliveries ==>
                                Delivery(wid, ref) in t.deliveries || exists o :: Fanning(ref, o) in t.notifications)
  {
    hide WellNamed;
    hide HandlerRefs;
    hide SliceUpdate;
    if step.NotifyLookup? {
      LookupMoves(s, step.ref, ref);
      hide Happen;
      hide Possible;
    } else if step.NotifyFan? {
      FanMoves(s, step.ref, step.o, ref);
      hide Happen;
      hide Possible;
    } else {
      var t, t' := s.traffic, Happen(s, step).traffic;
      assert Happen(s, step).store == s.store && t'.events == t.events;
      assert t'.notifications == t.notifications && t'.deliveries <= t.deliveries;
      hide Happen;
      hide Possible;
    }
  }

  lemma LookupMoves(s: State, about: Ref, ref: Ref)
    requires Possible(s, NotifyLookup(about))
    ensures var t, t' := s.traffic, Happen(s, NotifyLookup(about)).traffic;
            && Happen(s, NotifyLookup(about)).store == s.store && t'.events == t.events && t'.deliveries == t.deliveries
            && (Looking(ref) in t'.notifications ==> Looking(ref) in t.notifications)
            && (forall o :: Fanning(ref, o) in t'.notifications ==>
                              Fanning(ref, o) in t.notifications || Looking(ref) in t.notifications)
  {}

  lemma FanMoves(s: State, about: Ref, o: nat, ref: Ref)
    requires Possible(s, NotifyFan(about, o))
    ensures var t, t' := s.traffic, Happen(s, NotifyFan(about, o)).traffic;
            && Happen(s, NotifyFan(about, o)).store == s.store && t'.events == t.events && t'.notifications <= t.notifications
            && (forall wid :: Delivery(wid, ref) in t'.deliveries ==>
                                Delivery(wid, ref) in t.deliveries || Fanning(ref, o) in t.notifications)
  {
    var spawned := set w | w in s.registry.members[o] :: Delivery(w, about);
    assert forall d :: d in spawned ==> d.ref == about;
  }

  lemma UpdateKeepsUnheard(s: State, step: Step, ref: Ref)
    requires Unheard(s, ref) && Possible(s, step) && (step.UpdateListener? || step.UpdateSlice?)
    ensures Unheard(Happen(s, step), ref)
  {
    StoreStaysOk(s, step);
    hide WellNamed;
    hide SliceUpdate;
    hide HandlerRefs;
    if step.UpdateListener? && step.now.None? {
      StoredIsWellNamed(s.store, step.key);
    }
    hide StoreOk;
  }

  lemma HandleKeepsUnheard(s: State, e: Event, ref: Ref)
    requires Unheard(s, ref) && !Canonical(ref) && Possible(s, HandleEvent(e))
    ensures Unheard(Happen(s, HandleEvent(e)), ref)
  {
    hide WellNamed;
    hide Canonical;
    HandlersSkipOtherSpellings(s.store, e, ref);
    hide StoreOk;
    hide HandlerRefs;
  }

  lemma StoredIsWellNamed(store: Store, key: Key)
    requires StoreOk(store)
    ensures key in store.listeners ==> WellNamed(store.listeners[key])
  {}

  lemma {:induction false} OtherSpellingsAreNeverNotified(s: State, steps: seq<Step>, ref: Ref)
    requires Unheard(s, ref) && !Canonical(ref) && ValidRun(s, steps)
    ensures Unheard(Run(s, steps), ref)
    decreases |steps|
  {
    if steps != [] {
      StepKeepsUnheard(s, steps[0], ref);
      hide Apply;
      hide Enabled;
      hide Unheard;
      hide Canonical;
      OtherSpellingsAreNeverNotified(Apply(s, steps[0]), steps[1..], ref);
    }
  }

  lemma StepKeepsUnheard(s: State, step: Step, ref: Ref)
    requires Unheard(s, ref) && !Canonical(ref) && Enabled(s, step)
    ensures Unheard(Apply(s, step), ref)
  {
    hide Canonical;
    hide Happen;
    hide Possible;
    if step.Act? {
      hide Local;
      hide WellNamed;
    } else {
      hide Unheard;
      HappenKeepsUnheard(s, step, ref);
    }
  }

  /** In no reachable state is anything pending for another spelling. */
  lemma OtherSpellingIsNeverDirty(steps: seq<Step>, wid: Wid, ref: Ref)
    requires ValidRun(Init(), steps) && !Canonical(ref)
    ensures var s := Run(Init(), steps);
            !Dirty(s.store, s.traffic, wid, ref)
  {
    var s := Run(Init(), steps);
    hide Canonical;
    OtherSpellingsAreNeverNotified(Init(), steps, ref);
    hide Run;
    hide ValidRun;
    hide WellNamed;
    forall e | e in s.traffic.events
      ensures !EventReaches(s.store, e, ref)
    {
      if EventReaches(s.store, e, ref) {
        HandlerCoversEvent(s.store, e, ref);
        HandlersSkipOtherSpellings(s.store, e, ref);
      }
    }
    hide EventReaches;
  }
}
