/** Registry agreement over all interleavings, and conservation of deliveries. */
module RegistryInvariant {
  import opened Resolver
  import opened Protocol
  import R = Registry

  function RefsUpTo(req: Request, n: nat): set<Ref>
    requires n <= |req.names|
  {
    set i | 0 <= i < n :: Ref(req.typeUrl, req.names[i])
  }

  function AllRefs(req: Request): set<Ref> { RefsUpTo(req, |req.names|) }

  // ---- what a watch and the registry know of each other ----

  /** The references a watch may be subscribed to: its own record, or the one it is just joining or leaving. */
  predicate MayBeSubscribed(w: Watch, ref: Ref) {
    match w.phase
    case Subscribing(i, sub) =>
      ref in w.watched || (sub.Record? && i < |w.req.names| && ref == w.RefOf(w.req.names[i]))
    case Releasing(rest, rel) => ref in rest || (!rel.Next? && ref == rel.ref)
    case Closing => false
    case Released => false
    case _ => ref in w.watched
  }

  ghost predicate AllSubscribed(reg: Reg, wid: Wid, refs: set<Ref>)
    requires reg.Valid()
  {
    forall r :: r in refs ==> reg.Subscribed(r, wid)
  }

  ghost predicate SubStepOk(reg: Reg, wid: Wid, ref: Ref, sub: SubStep)
    requires reg.Valid()
  {
    match sub
    case Check(o) => ref in reg.entries && reg.entries[ref] == o
    case Join(o) => ref in reg.entries && reg.entries[ref] == o && !reg.Subscribed(ref, wid)
    case Record => reg.Subscribed(ref, wid)
    case _ => true
  }

  ghost predicate RelStepOk(reg: Reg, wid: Wid, rest: set<Ref>, rel: RelStep)
    requires reg.Valid()
  {
    !rel.Next? ==>
      rel.ref in reg.entries && reg.entries[rel.ref] == rel.o && reg.Subscribed(rel.ref, wid) && rel.ref !in rest
  }

  ghost predicate WatchOk(reg: Reg, wid: Wid, w: Watch)
    requires reg.Valid()
  {
    && w.watched <= AllRefs(w.req)
    && match w.phase
       case Subscribing(i, sub) =>
         && i < |w.req.names|
         && w.watched == RefsUpTo(w.req, i)
         && AllSubscribed(reg, wid, w.watched)
         && SubStepOk(reg, wid, w.RefOf(w.req.names[i]), sub)
       case Releasing(rest, rel) =>
         && rest <= w.watched
         && (!rel.Next? ==> rel.ref in w.watched)
         && AllSubscribed(reg, wid, rest)
         && RelStepOk(reg, wid, rest, rel)
       case Closing => true
       case Released => true
       case _ => w.watched == AllRefs(w.req) && AllSubscribed(reg, wid, w.watched)
  }

  /** A watch is subscribed nowhere but where it may be. */
  ghost predicate OnlyWhereAllowed(reg: Reg, wid: Wid, w: Watch)
    requires reg.Valid()
  {
    forall r :: reg.Subscribed(r, wid) ==> MayBeSubscribed(w, r)
  }

  ghost predicate Conserved(s: State) {
    s.log.spawned == s.traffic.deliveries + s.log.received + s.log.droppedDone + s.log.droppedCtx
  }

  /** Registry and watches agree. */
  ghost predicate Agreement(reg: Reg, objects: nat, watches: map<Wid, Watch>) {
    && reg.Valid()
    && (forall o :: o in reg.members ==> o < objects)
    && (forall r, wid :: reg.Subscribed(r, wid) ==> wid in watches)
    && (forall wid :: wid in watches ==> WatchOk(reg, wid, watches[wid]) && OnlyWhereAllowed(reg, wid, watches[wid]))
  }

  /** Fan-outs in progress hold the entry's object; deliveries are for references the watch asked for. */
  ghost predicate TrafficOk(reg: Reg, watches: map<Wid, Watch>, t: Traffic) {
    && (forall r, o :: Fanning(r, o) in t.notifications ==> r in reg.entries && reg.entries[r] == o)
    && (forall wid, r :: Delivery(wid, r) in t.deliveries ==> wid in watches && r in AllRefs(watches[wid].req))
  }

  ghost predicate RegistryInv(s: State) {
    Agreement(s.registry, s.objects, s.watches) && TrafficOk(s.registry, s.watches, s.traffic) && Conserved(s)
  }

  // ---- steps of one watch change only its own membership ----

  /** From `reg` to `after` entries only appear, and only `wid`'s own subscriptions change. */
  ghost predicate OnlyOwn(reg: Reg, after: Reg, wid: Wid)
    requires reg.Valid() && after.Valid()
  {
    && (forall r :: r in reg.entries ==> r in after.entries && after.entries[r] == reg.entries[r])
    && (forall r, x :: x != wid ==> (after.Subscribed(r, x) <==> reg.Subscribed(r, x)))
  }

  lemma OthersKeepAgreement(reg: Reg, after: Reg, wid: Wid, x: Wid, w: Watch)
    requires reg.Valid() && after.Valid() && OnlyOwn(reg, after, wid) && x != wid
    requires WatchOk(reg, x, w) && OnlyWhereAllowed(reg, x, w)
    ensures WatchOk(after, x, w) && OnlyWhereAllowed(after, x, w)
  {}

  /** What a watch's own step keeps of the agreement. */
  ghost predicate KeepsAgreement(reg: Reg, unused: nat, wid: Wid, w: Watch, after: Reg, w': Watch)
    requires reg.Valid()
  {
    && after.Valid() && OnlyOwn(reg, after, wid)
    && after.members.Keys <= reg.members.Keys + {unused}
    && WatchOk(after, wid, w') && OnlyWhereAllowed(after, wid, w') && w'.req == w.req
  }

  lemma CreateKeepsAgreement(reg: Reg, unused: nat, wid: Wid, w: Watch)
    requires reg.Valid() && unused !in reg.members && WatchOk(reg, wid, w) && OnlyWhereAllowed(reg, wid, w)
    requires w.phase.Subscribing? && w.phase.sub.Create?
    ensures var (after, o) := reg.GetOrCreate(w.RefOf(w.req.names[w.phase.i]), unused);
            KeepsAgreement(reg, unused, wid, w, after, w.(phase := Subscribing(w.phase.i, Check(o))))
  {
    reg.GetOrCreateEffect(w.RefOf(w.req.names[w.phase.i]), unused);
  }

  lemma JoinKeepsAgreement(reg: Reg, unused: nat, wid: Wid, w: Watch)
    requires reg.Valid() && WatchOk(reg, wid, w) && OnlyWhereAllowed(reg, wid, w)
    requires w.phase.Subscribing? && w.phase.sub.Join?
    ensures w.phase.sub.o in reg.members
    ensures KeepsAgreement(reg, unused, wid, w, reg.Add(w.phase.sub.o, wid), w.(phase := Subscribing(w.phase.i, Record)))
  {
    reg.AddEffect(w.RefOf(w.req.names[w.phase.i]), wid);
  }

  lemma RecordKeepsAgreement(reg: Reg, unused: nat, wid: Wid, w: Watch)
    requires reg.Valid() && WatchOk(reg, wid, w) && OnlyWhereAllowed(reg, wid, w)
    requires w.phase.Subscribing? && w.phase.sub.Record?
    ensures var i := w.phase.i + 1;
            KeepsAgreement(reg, unused, wid, w, reg,
                           w.(watched := w.watched + {w.RefOf(w.req.names[w.phase.i])},
                              phase := if i == |w.req.names| then Deciding else Subscribing(i, Lookup)))
  {
    var i, ref := w.phase.i, w.RefOf(w.req.names[w.phase.i]);
    assert RefsUpTo(w.req, i + 1) == RefsUpTo(w.req, i) + {ref};
  }

  lemma LookKeepsAgreement(reg: Reg, unused: nat, wid: Wid, w: Watch)
    requires reg.Valid() && WatchOk(reg, wid, w) && OnlyWhereAllowed(reg, wid, w) && CanAct(reg, w, Advance)
    requires w.phase.Subscribing? && (w.phase.sub.Lookup? || w.phase.sub.Check?)
    ensures var ref := w.RefOf(w.req.names[w.phase.i]);
            KeepsAgreement(reg, unused, wid, w, reg,
                           w.(phase := Subscribing(w.phase.i, SubscribeStep(reg, unused, wid, ref, w.phase.i, w.phase.sub, w.watched).2)))
  {}

  lemma SubscribeKeepsAgreement(reg: Reg, unused: nat, wid: Wid, w: Watch)
    requires reg.Valid() && unused !in reg.members
    requires WatchOk(reg, wid, w) && OnlyWhereAllowed(reg, wid, w) && w.phase.Subscribing?
    requires CanAct(reg, w, Advance)
    ensures var (after, w') := Local(Store(map[], []), reg, unused, wid, w, Advance);
            KeepsAgreement(reg, unused, wid, w, after, w')
  {
    match w.phase.sub
    case Create => CreateKeepsAgreement(reg, unused, wid, w);
    case Join(_) => JoinKeepsAgreement(reg, unused, wid, w);
    case Record => RecordKeepsAgreement(reg, unused, wid, w);
    case _ => LookKeepsAgreement(reg, unused, wid, w);
    hide KeepsAgreement;
    hide OnlyWhereAllowed;
    hide ResolveStep;
    hide ReleaseStep;
  }

  lemma ReleaseKeepsAgreement(reg: Reg, wid: Wid, w: Watch)
    requires reg.Valid()
    requires WatchOk(reg, wid, w) && OnlyWhereAllowed(reg, wid, w) && w.phase.Releasing?
    requires CanAct(reg, w, Advance)
    ensures var (after, w') := ReleaseStep(reg, wid, w, w.phase.rest, w.phase.rel);
            && after.Valid() && OnlyOwn(reg, after, wid)
            && after.members.Keys == reg.members.Keys
            && WatchOk(after, wid, w') && OnlyWhereAllowed(after, wid, w') && w'.req == w.req
  {
    if w.phase.rel.RelDelete? {
      reg.RemoveEffect(w.phase.rel.ref, wid);
    }
  }

  /** A resolve ends in sending, in going back to sleep, or goes on; it touches nothing else. */
  lemma ResolveStepPhase(store: Store, w: Watch)
    requires w.phase.Resolving? && CanAct(R.Registry(map[], map[]), w, Advance)
    ensures var p := ResolveStep(store, w.req.node, w.phase.typeUrl, w.phase.names, w.phase.done, w.phase.cur);
            p.Sending? || p.Idle? || p.Resolving?
  {
    hide Finish;
    hide TargetKey;
    hide QueriesFor;
  }

  lemma LocalKeepsAgreement(store: Store, reg: Reg, unused: nat, wid: Wid, w: Watch, action: Action)
    requires reg.Valid() && unused !in reg.members && CanAct(reg, w, action)
    requires WatchOk(reg, wid, w) && OnlyWhereAllowed(reg, wid, w)
    ensures var (after, w') := Local(store, reg, unused, wid, w, action);
            && after.Valid() && OnlyOwn(reg, after, wid)
            && after.members.Keys <= reg.members.Keys + {unused}
            && WatchOk(after, wid, w') && OnlyWhereAllowed(after, wid, w') && w'.req == w.req
  {
    hide Finish;
    hide TargetKey;
    hide QueriesFor;
    hide Remember;
    if action.Advance? {
      match w.phase
      case Subscribing(_, _) =>
        SubscribeKeepsAgreement(reg, unused, wid, w);
      case Resolving(_, _, _, _) =>
        ResolveStepPhase(store, w);
        hide ResolveStep;
      case Releasing(_, _) =>
        ReleaseKeepsAgreement(reg, wid, w);
      case _ =>
    }
  }

  // ---- every step keeps the invariant ----

  lemma ActKeepsRegistry(s: State, wid: Wid, action: Action)
    requires RegistryInv(s) && wid in s.watches && CanAct(s.registry, s.watches[wid], action)
    ensures RegistryInv(WatchActs(s, wid, action))
  {
    var w := s.watches[wid];
    var (after, w') := Local(s.store, s.registry, s.objects, wid, w, action);
    LocalKeepsAgreement(s.store, s.registry, s.objects, wid, w, action);
    hide Local;
    hide CanAct;
    assert WatchActs(s, wid, action) == s.(registry := after, objects := s.objects + 1, watches := s.watches[wid := w']);
    AgreementAfterAct(s.registry, after, s.objects, s.watches, wid, w');
  }

  lemma AgreementAfterAct(reg: Reg, after: Reg, objects: nat, watches: map<Wid, Watch>, wid: Wid, w': Watch)
    requires Agreement(reg, objects, watches) && wid in watches
    requires after.Valid() && OnlyOwn(reg, after, wid) && after.members.Keys <= reg.members.Keys + {objects}
    requires WatchOk(after, wid, w') && OnlyWhereAllowed(after, wid, w')
    ensures Agreement(after, objects + 1, watches[wid := w'])
  {
    forall x | x in watches && x != wid
      ensures WatchOk(after, x, watches[x]) && OnlyWhereAllowed(after, x, watches[x])
    {
      OthersKeepAgreement(reg, after, wid, x, watches[x]);
    }
    hide WatchOk;
    hide OnlyWhereAllowed;
  }

  lemma FanKeepsRegistry(s: State, ref: Ref, o: nat)
    requires RegistryInv(s) && Possible(s, NotifyFan(ref, o))
    ensures RegistryInv(Happen(s, NotifyFan(ref, o)))
  {
    forall x | x in s.registry.members[o]
      ensures x in s.watches && ref in AllRefs(s.watches[x].req)
    {
      assert s.registry.Subscribed(ref, x);
      assert MayBeSubscribed(s.watches[x], ref);
    }
    hide Agreement;
    hide AllRefs;
  }

  /** Environment, event and delivery steps leave registry and watches alone. */
  lemma QuietKeepsRegistry(s: State, s': State)
    requires RegistryInv(s) && Conserved(s')
    requires s'.registry == s.registry && s'.objects == s.objects && s'.watches == s.watches
    requires s'.traffic.deliveries <= s.traffic.deliveries
    requires forall r, o :: Fanning(r, o) in s'.traffic.notifications ==>
               Fanning(r, o) in s.traffic.notifications || (r in s.registry.entries && s.registry.entries[r] == o)
    ensures RegistryInv(s')
  {
    hide Agreement;
    hide AllRefs;
  }

  lemma SameDeliveries(s: State, s': State)
    requires Conserved(s) && s'.log == s.log && s'.traffic.deliveries == s.traffic.deliveries
    ensures Conserved(s')
  {}

  lemma EnvironmentKeepsRegistry(s: State, step: Step)
    requires RegistryInv(s) && Possible(s, step)
    requires step.UpdateListener? || step.UpdateSlice? || step.Shutdown?
    ensures RegistryInv(Happen(s, step))
  {
    hide Agreement;
    hide TrafficOk;
    hide SliceUpdate;
    hide Conserved;
    var s' := Happen(s, step);
    assert s'.log == s.log && s'.registry == s.registry && s'.watches == s.watches && s'.objects == s.objects;
    assert s'.traffic == s.traffic.(events := s'.traffic.events);
    SameDeliveries(s, s');
    QuietKeepsRegistry(s, s');
  }

  lemma HandlingKeepsRegistry(s: State, e: Event)
    requires RegistryInv(s) && Possible(s, HandleEvent(e))
    ensures RegistryInv(Happen(s, HandleEvent(e)))
  {
    hide Agreement;
    hide TrafficOk;
    hide HandlerRefs;
    QuietKeepsRegistry(s, Happen(s, HandleEvent(e)));
  }

  lemma LookupKeepsRegistry(s: State, ref: Ref)
    requires RegistryInv(s) && Possible(s, NotifyLookup(ref))
    ensures RegistryInv(Happen(s, NotifyLookup(ref)))
  {
    hide Agreement;
    hide TrafficOk;
    QuietKeepsRegistry(s, Happen(s, NotifyLookup(ref)));
  }

  lemma DropKeepsRegistry(s: State, step: Step)
    requires RegistryInv(s) && Possible(s, step)
    requires step.DropDone? || step.DropCtx?
    ensures RegistryInv(Happen(s, step))
  {
    hide Agreement;
    hide TrafficOk;
    QuietKeepsRegistry(s, Happen(s, step));
  }

  lemma OneWatchKeepsRegistry(s: State, s': State, wid: Wid)
    requires RegistryInv(s) && wid in s.watches && wid in s'.watches && s'.watches == s.watches[wid := s'.watches[wid]]
    requires s'.registry == s.registry && s'.objects == s.objects && Conserved(s')
    requires s'.traffic.notifications == s.traffic.notifications && s'.traffic.deliveries <= s.traffic.deliveries
    requires s'.watches[wid].req == s.watches[wid].req
    requires WatchOk(s.registry, wid, s'.watches[wid]) && OnlyWhereAllowed(s.registry, wid, s'.watches[wid])
    ensures RegistryInv(s')
  {
    hide WatchOk;
    hide OnlyWhereAllowed;
    hide AllRefs;
  }

  lemma ReceiveKeepsRegistry(s: State, step: Step)
    requires RegistryInv(s) && Possible(s, step) && (step.Receive? || step.Cancel?)
    ensures RegistryInv(Happen(s, step))
  {
    var s' := Happen(s, step);
    assert WatchOk(s.registry, step.wid, s.watches[step.wid]) && OnlyWhereAllowed(s.registry, step.wid, s.watches[step.wid]);
    hide Agreement;
    hide TrafficOk;
    OneWatchKeepsRegistry(s, s', step.wid);
  }

  lemma StartKeepsRegistry(s: State, wid: Wid, req: Request, known: set<string>)
    requires RegistryInv(s) && Possible(s, Start(wid, req, known))
    ensures RegistryInv(Happen(s, Start(wid, req, known)))
  {
    var s' := Happen(s, Start(wid, req, known));
    assert WatchOk(s.registry, wid, s'.watches[wid]);
    assert OnlyWhereAllowed(s.registry, wid, s'.watches[wid]);
    hide WatchOk;
    hide OnlyWhereAllowed;
    hide AllRefs;
  }

  lemma StepKeepsRegistry(s: State, step: Step)
    requires RegistryInv(s) && Enabled(s, step)
    ensures RegistryInv(Apply(s, step))
  {
    hide Happen;
    hide WatchActs;
    hide Possible;
    hide CanAct;
    hide RegistryInv;
    match step
    case Act(wid, action) => ActKeepsRegistry(s, wid, action);
    case NotifyFan(ref, o) => FanKeepsRegistry(s, ref, o);
    case Start(wid, req, known) => StartKeepsRegistry(s, wid, req, known);
    case Receive(_, _) => ReceiveKeepsRegistry(s, step);
    case Cancel(_) => ReceiveKeepsRegistry(s, step);
    case DropDone(_, _) => DropKeepsRegistry(s, step);
    case DropCtx(_, _) => DropKeepsRegistry(s, step);
    case HandleEvent(e) => HandlingKeepsRegistry(s, e);
    case NotifyLookup(ref) => LookupKeepsRegistry(s, ref);
    case _ => EnvironmentKeepsRegistry(s, step);
  }
}
