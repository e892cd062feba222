/** How a watch starts: it resolves all requested names at once, or sleeps until something is delivered to it. */
module Starting {
  import opened Resolver
  import opened Protocol

  /** Having subscribed, a watch resolves all its names if and only if one is new to the stream; else it sleeps. */
  lemma StartDecision(store: Store, reg: Reg, unused: nat, wid: Wid, w: Watch)
    requires w.phase.Deciding?
    ensures CanAct(reg, w, Advance)
    ensures var w' := Local(store, reg, unused, wid, w, Advance).1;
            if exists i :: 0 <= i < |w.req.names| && w.req.names[i] !in w.known
            then w' == w.(phase := Resolving(w.req.typeUrl, w.req.names, [], Unread))
            else w' == w.(phase := Idle)
  {}

  predicate AllKnown(w: Watch) {
    forall i :: 0 <= i < |w.req.names| ==> w.req.names[i] in w.known
  }

  ghost predicate NothingReceived(s: State, wid: Wid) {
    forall ref :: Delivery(wid, ref) !in s.log.received
  }

  /** The watch has sent nothing and is not about to. */
  predicate HasNotSpoken(w: Watch) {
    w.sent == [] && w.lastSent == map[] && !w.phase.Resolving? && !w.phase.Sending?
  }

  ghost predicate WaitsInSilence(s: State, wid: Wid) {
    wid in s.watches && AllKnown(s.watches[wid]) && NothingReceived(s, wid) ==> HasNotSpoken(s.watches[wid])
  }

  lemma ActWaits(store: Store, reg: Reg, unused: nat, wid: Wid, w: Watch, action: Action)
    requires CanAct(reg, w, action) && AllKnown(w) && HasNotSpoken(w)
    ensures HasNotSpoken(Local(store, reg, unused, wid, w, action).1)
  {
    hide ResolveStep;
    hide SubscribeStep;
    hide TargetKey;
    hide QueriesFor;
  }

  lemma ActKeepsKnown(store: Store, reg: Reg, unused: nat, wid: Wid, w: Watch, action: Action)
    requires CanAct(reg, w, action)
    ensures AllKnown(Local(store, reg, unused, wid, w, action).1) == AllKnown(w)
  {
    hide ResolveStep;
    hide SubscribeStep;
    hide Remember;
    hide TargetKey;
    hide QueriesFor;
  }

  lemma StepWaits(s: State, step: Step, wid: Wid)
    requires Enabled(s, step) && WaitsInSilence(s, wid)
    ensures WaitsInSilence(Apply(s, step), wid)
  {
    if step.Act? {
      if step.wid == wid {
        var w := s.watches[wid];
        ActKeepsKnown(s.store, s.registry, s.objects, wid, w, step.action);
        if AllKnown(w) && HasNotSpoken(w) {
          ActWaits(s.store, s.registry, s.objects, wid, w, step.action);
        }
      }
      hide Local;
      hide CanAct;
    } else {
      HappenWaits(s, step, wid);
      hide Happen;
      hide Possible;
    }
  }

  lemma HappenWaits(s: State, step: Step, wid: Wid)
    requires Possible(s, step) && WaitsInSilence(s, wid)
    ensures WaitsInSilence(Happen(s, step), wid)
  {
    hide HandlerRefs;
    hide SliceUpdate;
    var s' := Happen(s, step);
    assert s.log.received <= s'.log.received;
    if step.Receive? && step.wid == wid {
      assert Delivery(wid, step.ref) in s'.log.received;
    }
  }

  /** On every run, a watch whose names are all known to the stream says nothing before it receives a change. */
  lemma {:induction false} KnownNamesWait(s: State, steps: seq<Step>, wid: Wid)
    requires ValidRun(s, steps) && WaitsInSilence(s, wid)
    ensures WaitsInSilence(Run(s, steps), wid)
    decreases |steps|
  {
    hide Apply;
    hide Enabled;
    hide WaitsInSilence;
    if steps != [] {
      StepWaits(s, steps[0], wid);
      KnownNamesWait(Apply(s, steps[0]), steps[1..], wid);
    }
  }

  /** The same from the start of the system. */
  lemma KnownNamesAreNotResent(steps: seq<Step>, wid: Wid)
    requires ValidRun(Init(), steps)
    ensures var s := Run(Init(), steps);
            && wid in s.watches
            && (forall i :: 0 <= i < |s.watches[wid].req.names| ==> s.watches[wid].req.names[i] in s.watches[wid].known)
            && (forall ref :: Delivery(wid, ref) !in s.log.received) ==>
              s.watches[wid].sent == []
  {
    KnownNamesWait(Init(), steps, wid);
    hide Run;
    hide ValidRun;
  }
}
