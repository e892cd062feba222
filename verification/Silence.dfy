/** A reference that nothing in flight is about: while the environment rests, a watch keeps what it holds for it. */
module Silence {
  import opened Resolver
  import opened Protocol
  import opened RegistryInvariant
  import opened Responses
  import opened NoLostChange
  import opened Spelling
  import opened Progress
  import opened Settling

  /** No event leads to a notification of the reference, and none is under way. */
  ghost predicate Silent(s: State, ref: Ref) {
    && (forall e :: e in s.traffic.events ==> ref !in HandlerRefs(s.store, e))
    && Looking(ref) !in s.traffic.notifications
    && (forall o :: Fanning(ref, o) !in s.traffic.notifications)
    && (forall wid :: Delivery(wid, ref) !in s.traffic.deliveries)
  }

  /** The watch is past its initial resolve and is not resolving or sending this name. */
  ghost predicate Leaves(w: Watch, name: string) {
    match w.phase
    case Subscribing(_, _) => false
    case Deciding => false
    case Resolving(_, names, _, _) => name !in names
    case Sending(_, names, _) => name !in names
    case _ => true
  }

  lemma InternalKeepsSilent(s: State, step: Step, ref: Ref)
    requires Silent(s, ref) && Internal(step) && Enabled(s, step)
    ensures Silent(Apply(s, step), ref)
  {
    hide HandlerRefs;
    if step.Act? {
      hide Local;
      hide CanAct;
    } else if step.HandleEvent? {
      HandlingKeepsSilent(s, step.event, ref);
    } else {
      MovesAreAboutPresent(s, step, ref);
      hide Happen;
      hide Possible;
    }
  }

  lemma HandlingKeepsSilent(s: State, e: Event, ref: Ref)
    requires Silent(s, ref) && Possible(s, HandleEvent(e))
    ensures Silent(Happen(s, HandleEvent(e)), ref)
  {
    hide HandlerRefs;
    var s' := Happen(s, HandleEvent(e));
    assert s'.store == s.store && s'.traffic.deliveries == s.traffic.deliveries && s'.traffic.events <= s.traffic.events;
    assert forall n :: n in s'.traffic.notifications && n !in s.traffic.notifications ==> n.Looking? && n.ref in HandlerRefs(s.store, e);
  }

  lemma ActLeaves(store: Store, reg: Reg, unused: nat, wid: Wid, w: Watch, action: Action, name: string)
    requires CanAct(reg, w, action) && PhaseOk(w) && Leaves(w, name)
    ensures var w' := Local(store, reg, unused, wid, w, action).1;
            Leaves(w', name) && SameHeld(w, w', name)
  {
    hide SubscribeStep;
    hide TargetKey;
    hide QueriesFor;
    hide Finish;
    hide Remember;
    hide NamesOk;
    hide Filled;
    if action.SendResponse? {
      hide ResolveStep;
      RememberOthers(w.lastSent, w.phase.names, w.phase.contents, name);
    } else if !(action.Advance? && w.phase.Resolving?) {
      hide ResolveStep;
    }
  }

  lemma InternalLeaves(s: State, step: Step, wid: Wid, name: string)
    requires Inv(s) && Internal(step) && Enabled(s, step)
    requires wid in s.watches && Leaves(s.watches[wid], name) && Silent(s, s.watches[wid].RefOf(name))
    ensures wid in Apply(s, step).watches
    ensures var w' := Apply(s, step).watches[wid];
            Leaves(w', name) && SameHeld(s.watches[wid], w', name)
  {
    if step.Act? && step.wid == wid {
      assert ResponsesOk(s.watches[wid]);
      hide Inv;
      ActLeaves(s.store, s.registry, s.objects, wid, s.watches[wid], step.action, name);
      hide Local;
      hide CanAct;
      hide Leaves;
      hide SameHeld;
    } else if step.Receive? && step.wid == wid {
      ReceiveLeaves(s, wid, step.ref, name);
      hide Happen;
      hide Possible;
      hide Leaves;
      hide SameHeld;
    } else {
      InternalTouchesOne(s, step, wid);
      hide Apply;
      hide Enabled;
      hide Leaves;
    }
  }

  lemma ReceiveLeaves(s: State, wid: Wid, about: Ref, name: string)
    requires Inv(s) && Possible(s, Receive(wid, about)) && Silent(s, s.watches[wid].RefOf(name))
    ensures wid in Happen(s, Receive(wid, about)).watches
    ensures var w' := Happen(s, Receive(wid, about)).watches[wid];
            Leaves(w', name) && SameHeld(s.watches[wid], w', name)
  {
    var w := s.watches[wid];
    assert about in AllRefs(w.req);
    assert about == w.RefOf(about.name);
    hide Inv;
    hide HandlerRefs;
  }

  /** Until the environment moves, whatever the schedule, the watch holds for the name what it holds now. */
  lemma {:induction false} SilentRunHolds(s: State, steps: seq<Step>, wid: Wid, name: string)
    requires Inv(s) && InternalRun(s, steps)
    requires wid in s.watches && Leaves(s.watches[wid], name) && Silent(s, s.watches[wid].RefOf(name))
    ensures wid in Run(s, steps).watches && SameHeld(s.watches[wid], Run(s, steps).watches[wid], name)
    decreases |steps|
  {
    hide Inv;
    hide Apply;
    hide Enabled;
    hide Silent;
    hide Leaves;
    if steps != [] {
      var s1 := Apply(s, steps[0]);
      InternalTail(s, steps);
      StepKeepsInv(s, steps[0]);
      InternalKeepsSilent(s, steps[0], s.watches[wid].RefOf(name));
      InternalLeaves(s, steps[0], wid, name);
      InternalKeepsOutside(s, steps[0]);
      hide InternalRun;
      hide ValidRun;
      hide Run;
      SilentRunHolds(s1, steps[1..], wid, name);
    }
  }
}
