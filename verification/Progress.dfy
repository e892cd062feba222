/**
 * Progress: once the environment stops, every run of the remaining steps is finite and ends settled; and a
 * cancelled watch can always finish on its own and take the senders that wait for it along.
 */
module Progress {
  import opened Common
  import opened Backends
  import opened Resolver
  import opened Protocol
  import opened Responses
  import opened Freshness
  import opened NoLostChange
  import opened Lifecycle

  // ---- a watch's own steps ----

  function SubRank(sub: SubStep): nat {
    match sub
    case Lookup => 4
    case Create => 3
    case Check(_) => 2
    case Join(_) => 1
    case Record => 0
  }

  function RelRank(rel: RelStep): nat {
    match rel
    case RelCheck(_, _) => 2
    case RelDelete(_, _) => 1
    case Next => 0
  }

  /** Steps left: names to subscribe to and to resolve, and references to release; three for each of those. */
  function Coarse(w: Watch): nat {
    var n, release := |w.req.names|, 3 * |w.watched|;
    match w.phase
    case Subscribing(i, sub) => 8 + release + 2 * n + (if i < n then 8 * (n - i) else 0) + SubRank(sub)
    case Deciding => 7 + release + 2 * n
    case Resolving(_, names, done, cur) =>
      5 + release + (if |done| < |names| then 2 * (|names| - |done|) else 0) + (if cur.Unread? then 1 else 0)
    case Sending(_, _, _) => 4 + release
    case Idle => 3 + release
    case Releasing(rest, rel) => 2 + 3 * |rest| + RelRank(rel)
    case Closing => 1
    case Released => 0
  }

  /** Lister calls left for the name being resolved. */
  function Fine(w: Watch): nat {
    if w.phase.Resolving? && w.phase.cur.Read? && |w.phase.done| < |w.phase.names| then
      var queries := |QueriesFor(Ref(w.phase.typeUrl, w.phase.names[|w.phase.done|]), w.phase.cur.listener)|;
      if |w.phase.cur.found| < queries then queries - |w.phase.cur.found| else 0
    else 0
  }

  predicate Shrinks(w: Watch, w': Watch) {
    Coarse(w') < Coarse(w) || (Coarse(w') == Coarse(w) && Fine(w') < Fine(w))
  }

  lemma ResolveShrinks(store: Store, reg: Reg, w: Watch)
    requires w.phase.Resolving? && CanAct(reg, w, Advance)
    ensures Shrinks(w, w.(phase := ResolveStep(store, w.req.node, w.phase.typeUrl, w.phase.names, w.phase.done, w.phase.cur)))
  {
    hide Finish;
    hide TargetKey;
    hide QueriesFor;
  }

  lemma SubscribeShrinks(store: Store, reg: Reg, unused: nat, wid: Wid, w: Watch)
    requires w.phase.Subscribing? && CanAct(reg, w, Advance)
    ensures Shrinks(w, Local(store, reg, unused, wid, w, Advance).1)
  {
    hide ResolveStep;
    hide ReleaseStep;
    hide QueriesFor;
    hide TargetKey;
    var ref := w.RefOf(w.req.names[w.phase.i]);
    assert |w.watched + {ref}| <= |w.watched| + 1;
  }

  lemma ReleaseShrinks(store: Store, reg: Reg, unused: nat, wid: Wid, w: Watch)
    requires w.phase.Releasing? && CanAct(reg, w, Advance)
    ensures Shrinks(w, Local(store, reg, unused, wid, w, Advance).1)
  {
    hide ResolveStep;
    hide SubscribeStep;
    hide QueriesFor;
    hide TargetKey;
  }

  /** The actions that end a phase. */
  lemma PhaseEndShrinks(store: Store, reg: Reg, unused: nat, wid: Wid, w: Watch, action: Action)
    requires CanAct(reg, w, action)
    requires action.Advance? ==> w.phase.Deciding? || w.phase.Closing?
    ensures Shrinks(w, Local(store, reg, unused, wid, w, action).1)
  {
    hide ResolveStep;
    hide SubscribeStep;
    hide ReleaseStep;
    hide Remember;
    hide Fine;
    if action.ReleaseNext? {
      assert |w.phase.rest - {action.ref}| == |w.phase.rest| - 1;
    }
  }

  /** Every step of a watch brings it nearer to its end. */
  lemma ActShrinks(store: Store, reg: Reg, unused: nat, wid: Wid, w: Watch, action: Action)
    requires CanAct(reg, w, action)
    ensures Shrinks(w, Local(store, reg, unused, wid, w, action).1)
  {
    hide Shrinks;
    hide ResolveStep;
    hide SubscribeStep;
    hide ReleaseStep;
    hide QueriesFor;
    hide TargetKey;
    if action.Advance? && w.phase.Resolving? {
      ResolveShrinks(store, reg, w);
    } else if action.Advance? && w.phase.Subscribing? {
      SubscribeShrinks(store, reg, unused, wid, w);
    } else if action.Advance? && w.phase.Releasing? {
      ReleaseShrinks(store, reg, unused, wid, w);
    } else {
      PhaseEndShrinks(store, reg, unused, wid, w, action);
    }
  }

  // ---- a cancelled watch drains ----

  /** The watch's own steps, none of which waits for its client, and the exit of senders that find it done. */
  predicate Drains(step: Step, wid: Wid) {
    ((step.Act? && !step.action.SendResponse?) || step.DropDone?) && step.wid == wid
  }

  ghost predicate Drained(s: State, wid: Wid) {
    wid in s.watches && s.watches[wid].phase.Released? && forall ref :: Delivery(wid, ref) !in s.traffic.deliveries
  }

  lemma ActFacts(s: State, wid: Wid, action: Action)
    requires Enabled(s, Act(wid, action))
    ensures var s' := Apply(s, Act(wid, action));
            && wid in s'.watches && Shrinks(s.watches[wid], s'.watches[wid])
            && s'.watches[wid].cancelled == s.watches[wid].cancelled
            && s'.traffic == s.traffic
  {
    ActShrinks(s.store, s.registry, s.objects, wid, s.watches[wid], action);
    LocalKeepsReq(s.store, s.registry, s.objects, wid, s.watches[wid], action);
    hide Local;
    hide Shrinks;
    hide CanAct;
  }

  lemma DropFacts(s: State, wid: Wid, ref: Ref)
    requires Inv(s) && wid in s.watches && s.watches[wid].phase.Released? && Delivery(wid, ref) in s.traffic.deliveries
    ensures Enabled(s, DropDone(wid, ref))
    ensures var s' := Apply(s, DropDone(wid, ref));
            s'.watches == s.watches && |Waiting(s', wid)| < |Waiting(s, wid)|
  {
    hide Inv;
    var gone := Delivery(wid, ref);
    var s' := Apply(s, DropDone(wid, ref));
    assert ToWatch(wid)(gone) && s'.traffic.deliveries[gone] < s.traffic.deliveries[gone];
    OnlyTotal(s'.traffic.deliveries, s.traffic.deliveries, ToWatch(wid));
  }

  lemma OneMore(s: State, step: Step, rest: seq<Step>, wid: Wid)
    requires Enabled(s, step) && Drains(step, wid) && ValidRun(Apply(s, step), rest)
    requires forall i :: 0 <= i < |rest| ==> Drains(rest[i], wid)
    ensures ValidRun(s, [step] + rest) && Run(s, [step] + rest) == Run(Apply(s, step), rest)
    ensures forall i :: 0 <= i < |rest| + 1 ==> Drains(([step] + rest)[i], wid)
  {
    hide Apply;
    hide Enabled;
    hide Drains;
    assert ([step] + rest)[1..] == rest;
  }

  lemma {:induction false} SendersDrain(s: State, wid: Wid) returns (steps: seq<Step>)
    requires Inv(s) && wid in s.watches && s.watches[wid].phase.Released?
    ensures ValidRun(s, steps) && Drained(Run(s, steps), wid)
    ensures forall i :: 0 <= i < |steps| ==> Drains(steps[i], wid)
    decreases |Waiting(s, wid)|
  {
    hide Inv;
    hide Apply;
    hide Enabled;
    hide Waiting;
    if ref :| Delivery(wid, ref) in s.traffic.deliveries {
      var step := DropDone(wid, ref);
      DropFacts(s, wid, ref);
      StepKeepsInv(s, step);
      var rest := SendersDrain(Apply(s, step), wid);
      OneMore(s, step, rest, wid);
      return [step] + rest;
    }
    return [];
  }

  /**
   * No stranded sender: from every state of every run a cancelled watch can, by its own steps alone, finish
   * what it is doing and release, after which the senders that wait for it can all leave.
   */
  lemma {:induction false} CancelledWatchDrains(s: State, wid: Wid) returns (steps: seq<Step>)
    requires Inv(s) && wid in s.watches && s.watches[wid].cancelled
    ensures ValidRun(s, steps) && Drained(Run(s, steps), wid)
    ensures forall i :: 0 <= i < |steps| ==> Drains(steps[i], wid)
    decreases Coarse(s.watches[wid]), Fine(s.watches[wid])
  {
    hide Inv;
    hide Apply;
    hide Enabled;
    hide Coarse;
    hide Fine;
    if s.watches[wid].phase.Released? {
      steps := SendersDrain(s, wid);
    } else {
      var action := NeverStuck(s, wid);
      var step := Act(wid, action);
      ActFacts(s, wid, action);
      StepKeepsInv(s, step);
      var rest := CancelledWatchDrains(Apply(s, step), wid);
      OneMore(s, step, rest, wid);
      steps := [step] + rest;
    }
  }

  // ---- the whole system ----

  /** The steps of the control plane itself, as opposed to those of its environment. */
  predicate Internal(step: Step) {
    || step.HandleEvent? || step.NotifyLookup? || step.NotifyFan?
    || step.Receive? || step.DropDone? || step.DropCtx? || step.Act?
  }

  ghost predicate Bounded(s: State, n: nat) {
    forall wid :: wid in s.watches ==> wid < n
  }

  lemma {:induction false} SomeBound(wids: set<Wid>) returns (n: nat)
    ensures forall wid :: wid in wids ==> wid < n
  {
    n := 0;
    if wids != {} {
      var wid :| wid in wids;
      var m := SomeBound(wids - {wid});
      n := if wid < m then m else wid + 1;
      assert forall x :: x in wids ==> x == wid || x in wids - {wid};
    }
  }

  function SumCoarse(watches: map<Wid, Watch>, n: nat): nat {
    if n == 0 then 0 else SumCoarse(watches, n - 1) + if n - 1 in watches then Coarse(watches[n - 1]) else 0
  }

  function SumFine(watches: map<Wid, Watch>, n: nat): nat {
    if n == 0 then 0 else SumFine(watches, n - 1) + if n - 1 in watches then Fine(watches[n - 1]) else 0
  }

  lemma {:induction false} SumsChange(watches: map<Wid, Watch>, n: nat, wid: Wid, w: Watch)
    requires wid in watches
    ensures SumCoarse(watches[wid := w], n) ==
            SumCoarse(watches, n) + if wid < n then Coarse(w) - Coarse(watches[wid]) else 0
    ensures SumFine(watches[wid := w], n) ==
            SumFine(watches, n) + if wid < n then Fine(w) - Fine(watches[wid]) else 0
  {
    hide Coarse;
    hide Fine;
    if n > 0 {
      SumsChange(watches, n - 1, wid, w);
    }
  }

  predicate IsLooking(n: Notification) { n.Looking? }

  /** What is left to do, the weightiest first: each step makes this smaller in lexicographic order. */
  datatype Rank = Rank(events: nat, lookups: nat, notifications: nat, deliveries: nat, coarse: nat, fine: nat)
  {
    predicate Below(that: Rank) {
      || events < that.events
      || (events == that.events &&
          (|| lookups < that.lookups
           || (lookups == that.lookups &&
               (|| notifications < that.notifications
                || (notifications == that.notifications &&
                    (|| deliveries < that.deliveries
                     || (deliveries == that.deliveries &&
                         (coarse < that.coarse || (coarse == that.coarse && fine < that.fine)))))))))
    }
  }

  ghost function RankOf(s: State, n: nat): Rank {
    var t := s.traffic;
    Rank(|t.events|, |Only(t.notifications, IsLooking)|, |t.notifications|, |t.deliveries|,
         SumCoarse(s.watches, n), SumFine(s.watches, n))
  }

  lemma LookupDescends(s: State, ref: Ref, n: nat)
    requires Possible(s, NotifyLookup(ref))
    ensures RankOf(Happen(s, NotifyLookup(ref)), n).Below(RankOf(s, n))
  {
    var t, t' := s.traffic, Happen(s, NotifyLookup(ref)).traffic;
    assert IsLooking(Looking(ref)) && t'.notifications[Looking(ref)] < t.notifications[Looking(ref)];
    OnlyTotal(t'.notifications, t.notifications, IsLooking);
  }

  lemma FanDescends(s: State, ref: Ref, o: nat, n: nat)
    requires Possible(s, NotifyFan(ref, o))
    ensures RankOf(Happen(s, NotifyFan(ref, o)), n).Below(RankOf(s, n))
  {
    var t, t' := s.traffic, Happen(s, NotifyFan(ref, o)).traffic;
    OnlyTotal(t'.notifications, t.notifications, IsLooking);
    assert t.notifications == t'.notifications + multiset{Fanning(ref, o)};
  }

  lemma ActDescends(s: State, wid: Wid, action: Action, n: nat)
    requires Bounded(s, n) && Enabled(s, Act(wid, action))
    ensures RankOf(Apply(s, Act(wid, action)), n).Below(RankOf(s, n))
  {
    var s' := Apply(s, Act(wid, action));
    ActFacts(s, wid, action);
    SumsChange(s.watches, n, wid, s'.watches[wid]);
    hide Local;
    hide CanAct;
    assert s'.watches == s.watches[wid := s'.watches[wid]];
  }

  lemma TrafficDescends(s: State, step: Step, n: nat)
    requires Possible(s, step) && (step.HandleEvent? || step.Receive? || step.DropDone? || step.DropCtx?)
    ensures RankOf(Happen(s, step), n).Below(RankOf(s, n))
  {
    hide HandlerRefs;
    hide SumCoarse;
    hide SumFine;
    hide Only;
    var t, t' := s.traffic, Happen(s, step).traffic;
    if step.HandleEvent? {
      assert t.events == t'.events + multiset{step.event};
    } else {
      assert t.deliveries == t'.deliveries + multiset{Delivery(step.wid, step.ref)};
      assert t'.events == t.events && t'.notifications == t.notifications;
    }
  }

  /** Every step of the control plane makes less to do. */
  lemma InternalStepDescends(s: State, step: Step, n: nat)
    requires Bounded(s, n) && Internal(step) && Enabled(s, step)
    ensures RankOf(Apply(s, step), n).Below(RankOf(s, n))
  {
    hide RankOf;
    hide Happen;
    hide Possible;
    hide CanAct;
    match step
    case Act(wid, action) => ActDescends(s, wid, action, n);
    case NotifyLookup(ref) => LookupDescends(s, ref, n);
    case NotifyFan(ref, o) => FanDescends(s, ref, o, n);
    case _ => TrafficDescends(s, step, n);
  }

  /** What the environment decides: the stored objects, the requests, and who is cancelled. */
  ghost predicate SameOutside(s: State, s': State) {
    && s'.store == s.store && s'.shutdown == s.shutdown && s'.watches.Keys == s.watches.Keys
    && forall wid :: wid in s.watches ==>
         var w, w' := s.watches[wid], s'.watches[wid];
         w'.req == w.req && w'.known == w.known && w'.cancelled == w.cancelled
  }

  lemma InternalKeepsOutside(s: State, step: Step)
    requires Internal(step) && Enabled(s, step)
    ensures SameOutside(s, Apply(s, step))
  {
    hide Happen;
    hide Possible;
    if step.Act? {
      LocalKeepsReq(s.store, s.registry, s.objects, step.wid, s.watches[step.wid], step.action);
      hide Local;
      hide CanAct;
    } else {
      hide SameOutside;
      HappenKeepsOutside(s, step);
    }
  }

  lemma HappenKeepsOutside(s: State, step: Step)
    requires Internal(step) && Possible(s, step)
    ensures SameOutside(s, Happen(s, step))
  {
    hide HandlerRefs;
    hide SliceUpdate;
    hide WellNamed;
    var s' := Happen(s, step);
    assert s'.store == s.store && s'.shutdown == s.shutdown;
    if step.Receive? {
      assert s'.watches == s.watches[step.wid := s'.watches[step.wid]];
    } else {
      assert s'.watches == s.watches;
    }
    hide Happen;
    hide Possible;
  }

  /** A step of the control plane touches a watch only by the watch's own action or by a delivery to it. */
  lemma InternalTouchesOne(s: State, step: Step, wid: Wid)
    requires Internal(step) && Enabled(s, step) && wid in s.watches
    requires !((step.Act? || step.Receive?) && step.wid == wid)
    ensures var s' := Apply(s, step);
            s'.store == s.store && wid in s'.watches && s'.watches[wid] == s.watches[wid]
  {
    hide Local;
    hide CanAct;
    hide HandlerRefs;
    hide SliceUpdate;
    hide WellNamed;
  }

  // ---- settled states ----

  /** Nothing is in flight; every watch sleeps, or was cancelled and is released. */
  ghost predicate Settled(s: State) {
    && s.traffic == Traffic(multiset{}, multiset{}, multiset{})
    && forall wid :: wid in s.watches ==>
         if s.watches[wid].cancelled then s.watches[wid].phase.Released? else s.watches[wid].phase.Idle?
  }

  ghost predicate Stuck(s: State) {
    forall step :: Internal(step) ==> !Enabled(s, step)
  }

  lemma BusyWatchActs(s: State, wid: Wid) returns (step: Step)
    requires Inv(s) && wid in s.watches
    requires !(if s.watches[wid].cancelled then s.watches[wid].phase.Released? else s.watches[wid].phase.Idle?)
    ensures Internal(step) && Enabled(s, step)
  {
    assert ResponsesOk(s.watches[wid]);
    var action := NeverStuck(s, wid);
    step := Act(wid, action);
  }

  lemma TrafficMoves(s: State) returns (step: Step)
    requires Inv(s) && s.traffic != Traffic(multiset{}, multiset{}, multiset{})
    requires forall wid :: wid in s.watches ==> s.watches[wid].phase.Idle? || s.watches[wid].phase.Released?
    ensures Internal(step) && Enabled(s, step)
  {
    hide ResponsesInv;
    hide StoreOk;
    var t := s.traffic;
    if t.events != multiset{} {
      var e :| e in t.events;
      return HandleEvent(e);
    } else if t.notifications != multiset{} {
      var n :| n in t.notifications;
      match n
      case Looking(ref) => return NotifyLookup(ref);
      case Fanning(ref, o) =>
        assert s.registry.entries[ref] == o;
        return NotifyFan(ref, o);
    }
    var d :| d in t.deliveries;
    assert d == Delivery(d.wid, d.ref) && d.wid in s.watches;
    return if s.watches[d.wid].phase.Idle? then Receive(d.wid, d.ref) else DropDone(d.wid, d.ref);
  }

  /** The control plane has nothing left to do exactly when it is settled. */
  lemma StuckIsSettled(s: State)
    requires Inv(s)
    ensures Stuck(s) <==> Settled(s)
  {
    if Stuck(s) && !Settled(s) {
      if wid :| wid in s.watches
                && !(if s.watches[wid].cancelled then s.watches[wid].phase.Released? else s.watches[wid].phase.Idle?) {
        var step := BusyWatchActs(s, wid);
      } else {
        hide Enabled;
        var step := TrafficMoves(s);
      }
    }
  }
}
