/** Settled states: every schedule of the control plane gets there, and there every live watch is current. */
module Settling {
  import opened Common
  import opened Resolver
  import opened Protocol
  import opened RegistryInvariant
  import opened Responses
  import opened Freshness
  import opened FreshnessSteps
  import opened NoLostChange
  import opened Progress

  // ---- every schedule ends ----

  function Upto(schedule: nat -> Step, k: nat): seq<Step> {
    seq(k, i requires 0 <= i < k => schedule(i))
  }

  lemma {:induction false} ScheduleEnds(s: State, schedule: nat -> Step, n: nat) returns (k: nat)
    requires Bounded(s, n) && forall i: nat :: Internal(schedule(i))
    ensures ValidRun(s, Upto(schedule, k)) && !Enabled(Run(s, Upto(schedule, k)), schedule(k))
    decreases RankOf(s, n).events, RankOf(s, n).lookups, RankOf(s, n).notifications, RankOf(s, n).deliveries,
              RankOf(s, n).coarse, RankOf(s, n).fine
  {
    hide Apply;
    hide Enabled;
    hide RankOf;
    hide Internal;
    k := 0;
    if Enabled(s, schedule(0)) {
      var later := (i: nat) => schedule(i + 1);
      InternalStepDescends(s, schedule(0), n);
      InternalKeepsOutside(s, schedule(0));
      var m := ScheduleEnds(Apply(s, schedule(0)), later, n);
      k := m + 1;
      assert Upto(schedule, k)[1..] == Upto(later, m);
    }
  }

  /** Once the environment stops, whatever order the remaining steps are tried in, they come to an end. */
  lemma EveryScheduleEnds(s: State, schedule: nat -> Step) returns (k: nat)
    requires forall i: nat :: Internal(schedule(i))
    ensures ValidRun(s, Upto(schedule, k)) && !Enabled(Run(s, Upto(schedule, k)), schedule(k))
  {
    var n := SomeBound(s.watches.Keys);
    k := ScheduleEnds(s, schedule, n);
  }

  // ---- what is settled is current ----

  /**
   * In every settled state of every run whose updates a canonical name follows: each live watch that answers
   * for the name has sent it, last exactly as it resolves now.
   */
  lemma SettledIsCurrent(steps: seq<Step>, wid: Wid, name: string)
    requires ValidRun(Init(), steps)
    requires var s := Run(Init(), steps);
             Settled(s) && !s.shutdown && wid in s.watches && !s.watches[wid].cancelled
    ensures var s := Run(Init(), steps);
            var w := s.watches[wid];
            var now := Resolve(s.store, w.req.node, w.RefOf(name));
            Canonical(w.RefOf(name)) && Follows(Init(), steps, w.RefOf(name)) && Answers(w, name) && now.Some? ==>
              name in w.lastSent && w.lastSent[name] == now.value
  {
    NoChangeIsLost(steps, wid, name);
    hide Run;
    hide ValidRun;
    hide Follows;
    hide Resolve;
    hide ViewOf;
    hide Current;
    hide EventReaches;
    hide Canonical;
    hide Answers;
  }

  // ---- reachable states, and how to go on from one ----

  /** The states of the runs whose updates the reference follows. */
  ghost predicate Reached(s: State, ref: Ref) {
    exists steps :: ValidRun(Init(), steps) && Follows(Init(), steps, ref) && Run(Init(), steps) == s
  }

  lemma {:induction false} RunExtends(s: State, steps: seq<Step>, step: Step, ref: Ref)
    requires ValidRun(s, steps) && Follows(s, steps, ref) && Enabled(Run(s, steps), step) && StepFollows(Run(s, steps), step, ref)
    ensures ValidRun(s, steps + [step]) && Follows(s, steps + [step], ref)
    ensures Run(s, steps + [step]) == Apply(Run(s, steps), step)
    decreases |steps|
  {
    hide Apply;
    hide Enabled;
    hide StepFollows;
    if steps == [] {
      assert steps + [step] == [step] && [step][1..] == [];
    } else {
      RunExtends(Apply(s, steps[0]), steps[1..], step, ref);
      assert (steps + [step])[1..] == steps[1..] + [step];
    }
  }

  lemma ReachedStep(s: State, step: Step, ref: Ref)
    requires Reached(s, ref) && Enabled(s, step) && StepFollows(s, step, ref)
    ensures Reached(Apply(s, step), ref)
  {
    hide Apply;
    hide Enabled;
    hide StepFollows;
    var steps :| ValidRun(Init(), steps) && Follows(Init(), steps, ref) && Run(Init(), steps) == s;
    RunExtends(Init(), steps, step, ref);
  }

  lemma ReachedInv(s: State, ref: Ref)
    requires Reached(s, ref)
    ensures Inv(s) && FreshFor(s, ref)
  {
    var steps :| ValidRun(Init(), steps) && Follows(Init(), steps, ref) && Run(Init(), steps) == s;
    InitInv();
    hide *;
    RunKeepsInv(Init(), steps);
    RunKeepsFresh(Init(), steps, ref);
  }

  lemma ReachedIsNotLost(s: State, wid: Wid, ref: Ref)
    requires Reached(s, ref) && Canonical(ref) && wid in s.watches && s.watches[wid].req.typeUrl == ref.typeUrl
    ensures NotLost(s, wid, ref.name)
  {
    ReachedInv(s, ref);
    assert s.watches[wid].RefOf(ref.name) == ref;
    hide *;
    FreshIsNotLost(s, wid, ref.name);
  }

  // ---- while the store stands still ----

  /** What a live watch has read, is sending or last sent for the name is what the store gives. */
  ghost predicate CurrentIn(s: State, wid: Wid, name: string) {
    && wid in s.watches
    && (Tracked(s.watches[wid]) ==> Current(s.watches[wid], name, ViewOf(s.store, s.watches[wid].RefOf(name))))
  }

  predicate SameHeld(w: Watch, w': Watch, name: string) {
    (name in w.lastSent <==> name in w'.lastSent) && (name in w.lastSent ==> w.lastSent[name] == w'.lastSent[name])
  }

  lemma {:induction false} RememberOthers(last: map<string, Content>, names: seq<string>, contents: seq<Content>, name: string)
    requires |names| == |contents| && name !in names
    ensures var after := Remember(last, names, contents);
            (name in last <==> name in after) && (name in last ==> after[name] == last[name])
  {
    if names != [] {
      var n := |names| - 1;
      RememberOthers(last, names[..n], contents[..n], name);
    }
  }

  /** What does not resolve is not sent. */
  lemma UnresolvedIsNotSent(w: Watch, name: string, view: Option<View>)
    requires w.phase.Sending? && PhaseOk(w) && Current(w, name, view) && FromView(w.req.node, w.RefOf(name), view).None?
    ensures name !in w.phase.names
  {
    hide FromView;
    hide NamesOk;
    hide Filled;
  }

  lemma ActHoldsUnresolved(store: Store, reg: Reg, unused: nat, wid: Wid, w: Watch, action: Action, name: string)
    requires CanAct(reg, w, action) && ResponsesOk(w) && !w.cancelled
    requires Tracked(w) ==> Current(w, name, ViewOf(store, w.RefOf(name)))
    requires FromView(w.req.node, w.RefOf(name), ViewOf(store, w.RefOf(name))).None?
    ensures SameHeld(w, Local(store, reg, unused, wid, w, action).1, name)
  {
    hide FromView;
    hide ViewOf;
    hide ResolveStep;
    hide SubscribeStep;
    hide ReleaseStep;
    hide TargetKey;
    hide QueriesFor;
    hide Remember;
    if action.SendResponse? {
      UnresolvedIsNotSent(w, name, ViewOf(store, w.RefOf(name)));
      RememberOthers(w.lastSent, w.phase.names, w.phase.contents, name);
    }
    hide Current;
    hide PhaseOk;
  }

  lemma ActKeepsCurrentIn(s: State, wid: Wid, action: Action, name: string)
    requires Inv(s) && Enabled(s, Act(wid, action)) && CurrentIn(s, wid, name)
    ensures var s' := Apply(s, Act(wid, action));
            && CurrentIn(s', wid, name)
            && (Resolve(s.store, s.watches[wid].req.node, s.watches[wid].RefOf(name)).None? && !s.watches[wid].cancelled ==>
                  SameHeld(s.watches[wid], s'.watches[wid], name))
  {
    var w := s.watches[wid];
    var w' := Local(s.store, s.registry, s.objects, wid, w, action).1;
    assert ResponsesOk(w);
    LocalKeepsReq(s.store, s.registry, s.objects, wid, w, action);
    ResolveIsFromView(s.store, w.req.node, w.RefOf(name));
    hide Local;
    hide CanAct;
    hide Inv;
    hide ResponsesOk;
    hide Resolve;
    hide FromView;
    hide ViewOf;
    hide Current;
    if Tracked(w') {
      LocalKeepsCurrent(s.store, s.registry, s.objects, wid, w, action, name);
    }
    if FromView(w.req.node, w.RefOf(name), ViewOf(s.store, w.RefOf(name))).None? && !w.cancelled {
      ActHoldsUnresolved(s.store, s.registry, s.objects, wid, w, action, name);
    }
  }

  lemma ReceiveKeepsCurrentIn(s: State, wid: Wid, ref: Ref, name: string)
    requires Inv(s) && Possible(s, Receive(wid, ref)) && CurrentIn(s, wid, name)
    ensures var s' := Happen(s, Receive(wid, ref));
            CurrentIn(s', wid, name) && SameHeld(s.watches[wid], s'.watches[wid], name)
  {
    var w := s.watches[wid];
    assert ref in AllRefs(w.req);
    assert ref == w.RefOf(ref.name);
    hide Inv;
    hide ViewOf;
    hide Current;
    if !w.cancelled {
      RestartIsCurrent(w, ref.name, name, ViewOf(s.store, w.RefOf(name)));
    }
  }

  /** In a store that stands still a watch stays current, and keeps what it holds for a name that does not resolve. */
  lemma InternalKeepsCurrent(s: State, step: Step, wid: Wid, name: string)
    requires Inv(s) && Internal(step) && Enabled(s, step) && CurrentIn(s, wid, name)
    ensures var s' := Apply(s, step);
            && CurrentIn(s', wid, name)
            && (Resolve(s.store, s.watches[wid].req.node, s.watches[wid].RefOf(name)).None? && !s.watches[wid].cancelled ==>
                  SameHeld(s.watches[wid], s'.watches[wid], name))
  {
    hide Resolve;
    hide Inv;
    hide ViewOf;
    hide Current;
    hide HandlerRefs;
    if step.Act? && step.wid == wid {
      hide Local;
      hide CanAct;
      hide CurrentIn;
      hide SameHeld;
      ActKeepsCurrentIn(s, wid, step.action, name);
    } else if step.Receive? && step.wid == wid {
      hide CurrentIn;
      ReceiveKeepsCurrentIn(s, wid, step.ref, name);
    } else {
      InternalTouchesOne(s, step, wid);
      hide Apply;
      hide Enabled;
    }
  }

  // ---- going on to a settled state ----

  ghost predicate InternalRun(s: State, steps: seq<Step>) {
    ValidRun(s, steps) && forall i :: 0 <= i < |steps| ==> Internal(steps[i])
  }

  lemma InternalCons(s: State, step: Step, rest: seq<Step>)
    requires Enabled(s, step) && Internal(step) && InternalRun(Apply(s, step), rest)
    ensures InternalRun(s, [step] + rest) && Run(s, [step] + rest) == Run(Apply(s, step), rest)
  {
    hide Apply;
    hide Enabled;
    hide Internal;
    assert ([step] + rest)[1..] == rest;
  }

  lemma InternalTail(s: State, steps: seq<Step>)
    requires InternalRun(s, steps) && steps != []
    ensures Internal(steps[0]) && Enabled(s, steps[0]) && InternalRun(Apply(s, steps[0]), steps[1..])
    ensures Run(s, steps) == Run(Apply(s, steps[0]), steps[1..])
  {
    hide Apply;
    hide Enabled;
    hide Internal;
  }

  lemma {:induction false} SettlesWithin(s: State, n: nat) returns (steps: seq<Step>)
    requires Inv(s) && Bounded(s, n)
    ensures InternalRun(s, steps) && Settled(Run(s, steps))
    decreases RankOf(s, n).events, RankOf(s, n).lookups, RankOf(s, n).notifications, RankOf(s, n).deliveries,
              RankOf(s, n).coarse, RankOf(s, n).fine
  {
    hide Inv;
    hide Apply;
    hide Enabled;
    hide RankOf;
    hide Internal;
    StuckIsSettled(s);
    steps := [];
    if step :| Internal(step) && Enabled(s, step) {
      InternalStepDescends(s, step, n);
      InternalKeepsOutside(s, step);
      StepKeepsInv(s, step);
      var rest := SettlesWithin(Apply(s, step), n);
      InternalCons(s, step, rest);
      steps := [step] + rest;
    }
  }

  /** From every state of every run the control plane can settle by its own steps. */
  lemma Settles(s: State) returns (steps: seq<Step>)
    requires Inv(s)
    ensures InternalRun(s, steps) && Settled(Run(s, steps))
  {
    var n := SomeBound(s.watches.Keys);
    steps := SettlesWithin(s, n);
  }

  lemma {:induction false} InternalRunStays(s: State, steps: seq<Step>, ref: Ref)
    requires InternalRun(s, steps) && Reached(s, ref)
    ensures Reached(Run(s, steps), ref) && SameOutside(s, Run(s, steps))
    decreases |steps|
  {
    InternalRunKeepsOutside(s, steps);
    hide SameOutside;
    hide Reached;
    hide Apply;
    hide Enabled;
    if steps != [] {
      InternalTail(s, steps);
      ReachedStep(s, steps[0], ref);
      hide InternalRun;
      hide ValidRun;
      hide Run;
      InternalRunStays(Apply(s, steps[0]), steps[1..], ref);
    }
  }

  lemma {:induction false} InternalRunKeepsOutside(s: State, steps: seq<Step>)
    requires InternalRun(s, steps)
    ensures SameOutside(s, Run(s, steps))
    decreases |steps|
  {
    hide Apply;
    hide Enabled;
    if steps != [] {
      InternalTail(s, steps);
      InternalKeepsOutside(s, steps[0]);
      hide InternalRun;
      hide ValidRun;
      hide Run;
      InternalRunKeepsOutside(Apply(s, steps[0]), steps[1..]);
    }
  }

  lemma {:induction false} InternalRunKeepsCurrent(s: State, steps: seq<Step>, wid: Wid, name: string)
    requires Inv(s) && InternalRun(s, steps) && CurrentIn(s, wid, name)
    ensures CurrentIn(Run(s, steps), wid, name)
    ensures Resolve(s.store, s.watches[wid].req.node, s.watches[wid].RefOf(name)).None? && !s.watches[wid].cancelled ==>
              SameHeld(s.watches[wid], Run(s, steps).watches[wid], name)
    decreases |steps|
  {
    hide Inv;
    hide Apply;
    hide Enabled;
    hide Resolve;
    hide ViewOf;
    hide Current;
    if steps != [] {
      var s1 := Apply(s, steps[0]);
      InternalTail(s, steps);
      StepKeepsInv(s, steps[0]);
      InternalKeepsCurrent(s, steps[0], wid, name);
      InternalKeepsOutside(s, steps[0]);
      hide InternalRun;
      hide ValidRun;
      hide Run;
      InternalRunKeepsCurrent(s1, steps[1..], wid, name);
    }
  }

  lemma SettleAll(s: State, ref: Ref) returns (s': State)
    requires Reached(s, ref)
    ensures Reached(s', ref) && Settled(s') && SameOutside(s, s')
  {
    ReachedInv(s, ref);
    var steps := Settles(s);
    InternalRunStays(s, steps, ref);
    s' := Run(s, steps);
    hide *;
  }

  /** Let the control plane settle, following what one watch holds for one name. */
  lemma SettleWatch(s: State, ref: Ref, wid: Wid, name: string) returns (s': State)
    requires Reached(s, ref) && CurrentIn(s, wid, name) && !s.watches[wid].cancelled
    ensures Reached(s', ref) && Settled(s') && SameOutside(s, s') && CurrentIn(s', wid, name)
    ensures Resolve(s.store, s.watches[wid].req.node, s.watches[wid].RefOf(name)).None? ==>
              SameHeld(s.watches[wid], s'.watches[wid], name)
  {
    ReachedInv(s, ref);
    var steps := Settles(s);
    InternalRunStays(s, steps, ref);
    InternalRunKeepsCurrent(s, steps, wid, name);
    s' := Run(s, steps);
    hide *;
  }
}
