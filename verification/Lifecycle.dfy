/** Theorems about whole runs: the registry, deliveries, responses, release, and absence of dead ends. */
module Lifecycle {
  import opened Common
  import opened Resolver
  import opened Protocol
  import opened RegistryInvariant
  import opened Responses
  import opened Freshness
  import opened NoLostChange

  lemma ReachableInv(steps: seq<Step>)
    requires ValidRun(Init(), steps)
    ensures Inv(Run(Init(), steps))
  {
    InitInv();
    RunKeepsInv(Init(), steps);
  }

  // ---- registry agreement ----

  /**
   * In every reachable state: a subscribed watcher has the reference in its own record or is joining or
   * leaving it right now; a watch past subscribing is subscribed to exactly the references it asked for;
   * the gap between checking membership and joining is harmless; a released watch is subscribed to nothing.
   */
  lemma RegistryAgrees(steps: seq<Step>, wid: Wid, ref: Ref)
    requires ValidRun(Init(), steps)
    ensures var s := Run(Init(), steps);
            && s.registry.Valid()
            && (s.registry.Subscribed(ref, wid) ==> wid in s.watches && MayBeSubscribed(s.watches[wid], ref))
            && (wid in s.watches ==>
                  var w := s.watches[wid];
                  && (w.phase.Deciding? || w.phase.Resolving? || w.phase.Sending? || w.phase.Idle? ==>
                        (s.registry.Subscribed(ref, wid) <==> ref in AllRefs(w.req)))
                  && (w.phase.Subscribing? && w.phase.sub.Join? ==>
                        w.phase.i < |w.req.names| &&
                        var mine := w.RefOf(w.req.names[w.phase.i]);
                        mine in s.registry.entries && s.registry.entries[mine] == w.phase.sub.o
                        && !s.registry.Subscribed(mine, wid))
                  && (w.phase.Closing? || w.phase.Released? ==> !s.registry.Subscribed(ref, wid)))
  {
    ReachableInv(steps);
    var s := Run(Init(), steps);
    hide ResponsesInv;
    hide StoreOk;
    hide Run;
    hide ValidRun;
    if wid in s.watches {
      assert WatchOk(s.registry, wid, s.watches[wid]) && OnlyWhereAllowed(s.registry, wid, s.watches[wid]);
    }
  }

  // ---- one object per reference, for ever ----

  ghost predicate EntriesKept(reg: Reg, after: Reg) {
    forall r :: r in reg.entries ==> r in after.entries && after.entries[r] == reg.entries[r]
  }

  lemma LocalKeepsObjects(store: Store, reg: Reg, unused: nat, wid: Wid, w: Watch, action: Action)
    requires reg.Valid() && unused !in reg.members && CanAct(reg, w, action) && WatchOk(reg, wid, w) && reg.NoStrayObject()
    ensures EntriesKept(reg, Local(store, reg, unused, wid, w, action).0)
    ensures Local(store, reg, unused, wid, w, action).0.NoStrayObject()
  {
    hide ResolveStep;
    hide Remember;
    hide TargetKey;
    hide QueriesFor;
    if w.phase.Subscribing? {
      reg.NoStrayObjectIsKept(w.RefOf(w.req.names[w.phase.i]), unused, wid);
    } else if w.phase.Releasing? && !w.phase.rel.Next? {
      reg.NoStrayObjectIsKept(w.phase.rel.ref, unused, wid);
    }
  }

  lemma StepKeepsObjects(s: State, step: Step)
    requires RegistryInv(s) && Enabled(s, step) && s.registry.NoStrayObject()
    ensures EntriesKept(s.registry, Apply(s, step).registry) && Apply(s, step).registry.NoStrayObject()
  {
    if step.Act? {
      assert WatchOk(s.registry, step.wid, s.watches[step.wid]);
      LocalKeepsObjects(s.store, s.registry, s.objects, step.wid, s.watches[step.wid], step.action);
      hide Local;
    } else {
      hide HandlerRefs;
      hide SliceUpdate;
      assert Happen(s, step).registry == s.registry;
    }
  }

  /**
   * Under any race of lookups and creations, an entry is never replaced or removed, every object ever made
   * is the entry of some reference, and no two references share one.
   */
  lemma {:induction false} EntriesAreForEver(s: State, steps: seq<Step>)
    requires Inv(s) && s.registry.NoStrayObject() && ValidRun(s, steps)
    ensures var after := Run(s, steps).registry;
            after.Valid() && after.NoStrayObject() && EntriesKept(s.registry, after)
    decreases |steps|
  {
    hide ResponsesInv;
    hide StoreOk;
    hide Apply;
    hide Enabled;
    if steps != [] {
      StepKeepsInv(s, steps[0]);
      StepKeepsObjects(s, steps[0]);
      EntriesAreForEver(Apply(s, steps[0]), steps[1..]);
    }
  }

  // ---- deliveries ----

  /** A fan-out starts exactly one delivery for each current member and none for anybody else. */
  lemma FanOutIsExact(s: State, ref: Ref, o: nat, d: Delivery)
    requires Possible(s, NotifyFan(ref, o))
    ensures var s' := Happen(s, NotifyFan(ref, o));
            var started := if d.ref == ref && d.wid in s.registry.members[o] then 1 else 0;
            && s'.traffic.deliveries[d] == s.traffic.deliveries[d] + started
            && s'.log.spawned[d] == s.log.spawned[d] + started
  {
    var spawned := set w | w in s.registry.members[o] :: Delivery(w, ref);
    assert d in spawned <==> d.ref == ref && d.wid in s.registry.members[o];
  }

  /** In every reachable state every delivery ever started is pending or ended, exactly once, in one of three ways. */
  lemma DeliveriesAreConserved(steps: seq<Step>, d: Delivery)
    requires ValidRun(Init(), steps)
    ensures var s := Run(Init(), steps);
            s.log.spawned[d] ==
            s.traffic.deliveries[d] + s.log.received[d] + s.log.droppedDone[d] + s.log.droppedCtx[d]
  {
    ReachableInv(steps);
    hide Agreement;
    hide TrafficOk;
    hide ResponsesInv;
    hide StoreOk;
    hide Run;
    hide ValidRun;
    assert Conserved(Run(Init(), steps));
  }

  function ToWatch(wid: Wid): Delivery -> bool {
    (d: Delivery) => d.wid == wid
  }

  /** The senders that wait for a watch, whatever the reference. */
  ghost function Waiting(s: State, wid: Wid): multiset<Delivery> {
    Only(s.traffic.deliveries, ToWatch(wid))
  }

  /** `wid` is released, and has no more pending deliveries than in `s`, and no more responses. */
  ghost predicate StaysReleased(s: State, s': State, wid: Wid)
    requires wid in s.watches
  {
    && wid in s'.watches && s'.watches[wid].phase.Released? && s'.watches[wid].sent == s.watches[wid].sent
    && forall ref :: s'.traffic.deliveries[Delivery(wid, ref)] <= s.traffic.deliveries[Delivery(wid, ref)]
  }

  lemma ReleasedFan(s: State, ref: Ref, o: nat, wid: Wid)
    requires RegistryInv(s) && Possible(s, NotifyFan(ref, o)) && wid in s.watches && s.watches[wid].phase.Released?
    ensures StaysReleased(s, Happen(s, NotifyFan(ref, o)), wid)
  {
    assert s.registry.entries[ref] == o;
    assert OnlyWhereAllowed(s.registry, wid, s.watches[wid]);
    assert !s.registry.Subscribed(ref, wid);
    hide Agreement;
    hide TrafficOk;
    hide Conserved;
    forall r
      ensures Happen(s, NotifyFan(ref, o)).traffic.deliveries[Delivery(wid, r)] == s.traffic.deliveries[Delivery(wid, r)]
    {
      FanOutIsExact(s, ref, o, Delivery(wid, r));
    }
  }

  lemma ReleasedHappen(s: State, step: Step, wid: Wid)
    requires Possible(s, step) && !step.NotifyFan? && wid in s.watches && s.watches[wid].phase.Released?
    ensures StaysReleased(s, Happen(s, step), wid)
    ensures forall ref :: step == DropDone(wid, ref) ==>
              Happen(s, step).traffic.deliveries[Delivery(wid, ref)] == s.traffic.deliveries[Delivery(wid, ref)] - 1
  {
    hide HandlerRefs;
    hide SliceUpdate;
  }

  lemma ReleasedStep(s: State, step: Step, wid: Wid)
    requires RegistryInv(s) && Enabled(s, step) && wid in s.watches && s.watches[wid].phase.Released?
    ensures StaysReleased(s, Apply(s, step), wid)
    ensures forall ref :: step == DropDone(wid, ref) ==>
              Apply(s, step).traffic.deliveries[Delivery(wid, ref)] == s.traffic.deliveries[Delivery(wid, ref)] - 1
  {
    hide RegistryInv;
    hide Happen;
    hide Possible;
    hide Local;
    if step.Act? {
      assert step.wid != wid;
    } else if step.NotifyFan? {
      ReleasedFan(s, step.ref, step.o, wid);
    } else {
      ReleasedHappen(s, step, wid);
    }
  }

  /**
   * After release a watch stays released and silent on every continuation, no new delivery to it is ever
   * started, and the number pending only goes down, for each reference and in total.
   */
  lemma {:induction false} ReleasedIsFinal(s: State, steps: seq<Step>, wid: Wid)
    requires Inv(s) && ValidRun(s, steps) && wid in s.watches && s.watches[wid].phase.Released?
    ensures StaysReleased(s, Run(s, steps), wid)
    ensures |Waiting(Run(s, steps), wid)| <= |Waiting(s, wid)|
    decreases |steps|
  {
    hide ResponsesInv;
    hide StoreOk;
    hide RegistryInv;
    hide Apply;
    hide Enabled;
    if steps != [] {
      StepKeepsInv(s, steps[0]);
      ReleasedStep(s, steps[0], wid);
      ReleasedIsFinal(Apply(s, steps[0]), steps[1..], wid);
    }
    OnlyTotal(Run(s, steps).traffic.deliveries, s.traffic.deliveries, ToWatch(wid));
  }

  // ---- responses ----

  /**
   * Every response of every run has the request's type and holds all requested names in order, or exactly
   * one of them, with every slot filled by a resource of that type and name.
   */
  lemma EveryResponseIsWellFormed(steps: seq<Step>, wid: Wid, i: nat)
    requires ValidRun(Init(), steps)
    ensures var s := Run(Init(), steps);
            wid in s.watches && i < |s.watches[wid].sent| ==> ResponseOk(s.watches[wid].req, s.watches[wid].sent[i])
  {
    ReachableInv(steps);
    hide RegistryInv;
    hide StoreOk;
    hide Run;
    hide ValidRun;
    hide ResponseOk;
    hide PhaseOk;
    hide HoldsSent;
  }

  /** After a response with all requested names, every one of them has content on record. */
  lemma InitialResponseCoversRequest(w: Watch, i: nat)
    requires ResponsesOk(w) && i < |w.sent| && w.sent[i].names == w.req.names
    ensures forall name :: name in w.req.names ==> name in w.lastSent
  {
    hide PhaseOk;
    hide ResponseOk;
    SentNamesHold(w.sent, i);
  }

  lemma {:induction false} SentNamesHold(sent: seq<Response>, i: nat)
    requires i < |sent|
    ensures forall name :: name in sent[i].names ==> name in SentNames(sent)
  {
    var n := |sent| - 1;
    if i < n {
      SentNamesHold(sent[..n], i);
      assert sent[..n][i] == sent[i];
    }
  }

  // ---- no dead ends ----

  /**
   * A watch can take its next step unless it sleeps uncancelled or is released, and once it is cancelled it
   * need not wait for its client.
   */
  lemma NeverStuck(s: State, wid: Wid) returns (action: Action)
    requires Inv(s) && wid in s.watches
    requires !s.watches[wid].phase.Released? && (s.watches[wid].phase.Idle? ==> s.watches[wid].cancelled)
    ensures Enabled(s, Act(wid, action)) && (s.watches[wid].cancelled ==> !action.SendResponse?)
  {
    var w := s.watches[wid];
    assert WatchOk(s.registry, wid, w) && ResponsesOk(w);
    hide StoreOk;
    hide TargetKey;
    hide QueriesFor;
    if w.phase.Idle? {
      return Exit;
    } else if w.phase.Sending? {
      return if w.cancelled then DropResponse else SendResponse;
    } else if w.phase.Releasing? && w.phase.rel.Next? && w.phase.rest != {} {
      var ref :| ref in w.phase.rest;
      return ReleaseNext(ref);
    }
    return Advance;
  }

  /** No resolve of any run gets to an index expression that panics. */
  lemma NoResolvePanics(steps: seq<Step>, wid: Wid)
    requires ValidRun(Init(), steps)
    ensures var s := Run(Init(), steps);
            wid in s.watches && s.watches[wid].phase.Resolving? ==>
              var Resolving(typeUrl, names, done, _) := s.watches[wid].phase;
              forall name, store :: name in names ==> !Panics(store, Ref(typeUrl, name))
  {
    ReachableInv(steps);
    var s := Run(Init(), steps);
    hide *;
    if wid in s.watches && s.watches[wid].phase.Resolving? {
      ResolvesInDomain(s, wid);
      forall name, store | name in s.watches[wid].phase.names
        ensures !Panics(store, Ref(s.watches[wid].phase.typeUrl, name))
      {
        InDomainNeverPanics(store, Ref(s.watches[wid].phase.typeUrl, name));
      }
    }
  }

  lemma ResolvesInDomain(s: State, wid: Wid)
    requires Inv(s) && wid in s.watches && s.watches[wid].phase.Resolving?
    ensures forall name :: name in s.watches[wid].phase.names ==> InDomain(Ref(s.watches[wid].phase.typeUrl, name))
  {
    hide RegistryInv;
    hide StoreOk;
    hide InDomain;
    hide Filled;
    hide ReadingOk;
    hide HoldsSent;
    assert ResponsesOk(s.watches[wid]);
  }
}
