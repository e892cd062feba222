/**
 * The watch and notify protocol as a transition system.
 *
 * Every lock section, channel operation and lister call is one step, and steps of watches, event handlers,
 * delivery goroutines and the environment interleave freely. `Apply` gives the effect of a step, `Enabled`
 * says when it can happen.
 */
module Protocol {
  import opened Common
  import opened Spec
  import opened Backends
  import opened Resolver
  import opened Notify
  import R = Registry

  type Wid = nat
  type Reg = R.Registry<Wid, nat>

  // ---- one watch ----

  datatype Request = Request(typeUrl: TypeUrl, names: seq<string>, node: Node)

  /** No requested name has a negative id; such a name would make the goroutine of its watch panic. */
  predicate AsksInDomain(req: Request) {
    forall name :: name in req.names ==> InDomain(Ref(req.typeUrl, name))
  }

  /** watcher.watch(ref): look the entry up, create it if missing, check membership, join, record. */
  datatype SubStep = Lookup | Create | Check(o: nat) | Join(o: nat) | Record

  /** What a resolve has read so far for the current name. */
  datatype Reading = Unread | Read(listener: Listener, found: seq<seq<EndpointSlice>>)

  /** stopWatch(ref) in progress: membership to be checked, or to be deleted. */
  datatype RelStep = Next | RelCheck(ref: Ref, o: nat) | RelDelete(ref: Ref, o: nat)

  datatype Phase =
    | Subscribing(i: nat, sub: SubStep)
    | Deciding
    | Resolving(typeUrl: TypeUrl, names: seq<string>, done: seq<Content>, cur: Reading)
    | Sending(typeUrl: TypeUrl, names: seq<string>, contents: seq<Content>)
    | Idle
    | Releasing(rest: set<Ref>, rel: RelStep)
    | Closing
    | Released

  datatype Response = Response(typeUrl: TypeUrl, names: seq<string>, contents: seq<Content>)

  datatype Watch = Watch(
    req: Request,
    known: set<string>,              // names the stream already knew when the watch was created
    phase: Phase,
    watched: set<Ref>,               // watchedResources
    lastSent: map<string, Content>,  // last content sent, by name
    sent: seq<Response>,
    cancelled: bool)                 // the watch's context
  {
    function RefOf(name: string): Ref { Ref(req.typeUrl, name) }
    predicate DoneClosed() { phase.Released? }
  }

  // ---- the whole system ----

  datatype Event = ListenerEvent(listener: Listener) | SliceEvent(meta: SliceMeta)

  /** A notification in progress: about to look the entry up, or about to fan out to its members. */
  datatype Notification = Looking(ref: Ref) | Fanning(ref: Ref, o: nat)

  datatype Delivery = Delivery(wid: Wid, ref: Ref)

  datatype Traffic = Traffic(
    events: multiset<Event>, notifications: multiset<Notification>, deliveries: multiset<Delivery>)

  /** History of delivery goroutines: how many were started, and how each ended. */
  datatype Log = Log(
    spawned: multiset<Delivery>, received: multiset<Delivery>,
    droppedDone: multiset<Delivery>, droppedCtx: multiset<Delivery>)

  datatype State = State(
    store: Store,
    traffic: Traffic,
    registry: Reg,
    objects: nat,                    // the next unused resourceWatchers object
    watches: map<Wid, Watch>,
    log: Log,
    shutdown: bool)                  // the context of the event handlers

  function Init(): State {
    State(Store(map[], []), Traffic(multiset{}, multiset{}, multiset{}), R.Registry(map[], map[]), 0, map[],
          Log(multiset{}, multiset{}, multiset{}, multiset{}), false)
  }

  // ---- steps ----

  datatype Action = Advance | SendResponse | DropResponse | Exit | ReleaseNext(ref: Ref)

  datatype Step =
    | UpdateListener(key: Key, now: Option<Listener>)
    | UpdateSlice(key: Key, slices: seq<EndpointSlice>, meta: SliceMeta)
    | HandleEvent(event: Event)
    | NotifyLookup(ref: Ref)
    | NotifyFan(ref: Ref, o: nat)
    | Receive(wid: Wid, ref: Ref)
    | DropDone(wid: Wid, ref: Ref)
    | DropCtx(wid: Wid, ref: Ref)
    | Shutdown
    | Start(wid: Wid, req: Request, known: set<string>)
    | Cancel(wid: Wid)
    | Act(wid: Wid, action: Action)

  function KeyOf(listener: Listener): Key { (listener.namespace, listener.name) }

  predicate UniqueKeys(slices: seq<EndpointSlice>) {
    forall i, j :: 0 <= i < j < |slices| ==> SliceKey(slices[i]) != SliceKey(slices[j])
  }

  /**
   * The slice under `key` is added, replaced or deleted, and the event carries the new object, or the deleted
   * one. The label of the new object may differ from the old one's.
   */
  ghost predicate SliceUpdate(before: seq<EndpointSlice>, after: seq<EndpointSlice>, key: Key, meta: SliceMeta) {
    && UniqueKeys(after)
    && Elsewhere(after, key) == Elsewhere(before, key)
    && AllCarry(after, key, meta)
    && (Absent(after, key) ==> AllCarry(before, key, meta))
  }

  /** The references an event handler notifies, from the listeners stored when it lists them. */
  ghost function HandlerRefs(store: Store, e: Event): set<Ref> {
    match e
    case ListenerEvent(listener) => set ref | ref in RoutesRefs(listener, |listener.routes|)
    case SliceEvent(meta) =>
      set key, r, b | && key in store.listeners
                      && 0 <= r < |store.listeners[key].routes|
                      && 0 <= b < |store.listeners[key].routes[r].backends|
                      && MatchesBackend(meta, store.listeners[key], store.listeners[key].routes[r].backends[b])
        :: BackendRef(EndpointType, store.listeners[key], r, b)
  }

  ghost predicate Enabled(s: State, step: Step) {
    if step.Act? then step.wid in s.watches && CanAct(s.registry, s.watches[step.wid], step.action)
    else Possible(s, step)
  }

  ghost function Apply(s: State, step: Step): State
    requires Enabled(s, step)
  {
    if step.Act? then WatchActs(s, step.wid, step.action) else Happen(s, step)
  }

  /** Steps of the environment, of event handlers and of delivery goroutines, and the life of watches. */
  ghost predicate Possible(s: State, step: Step) {
    match step
    case UpdateListener(key, now) =>
      if now.Some? then KeyOf(now.value) == key && WellNamed(now.value) else key in s.store.listeners
    case UpdateSlice(key, slices, meta) =>
      SliceUpdate(s.store.slices, slices, key, meta)
    case HandleEvent(e) => e in s.traffic.events
    case NotifyLookup(ref) => Looking(ref) in s.traffic.notifications
    case NotifyFan(ref, o) => Fanning(ref, o) in s.traffic.notifications && o in s.registry.members
    case Receive(wid, ref) =>
      Delivery(wid, ref) in s.traffic.deliveries && wid in s.watches && s.watches[wid].phase.Idle?
    case DropDone(wid, ref) =>
      Delivery(wid, ref) in s.traffic.deliveries && wid in s.watches && s.watches[wid].DoneClosed()
    case DropCtx(wid, ref) => Delivery(wid, ref) in s.traffic.deliveries && s.shutdown
    case Shutdown => true
    case Start(wid, req, known) => wid !in s.watches && AsksInDomain(req)
    case Cancel(wid) => wid in s.watches
    case Act(_, _) => false
  }

  ghost function Happen(s: State, step: Step): State
    requires Possible(s, step)
  {
    var t := s.traffic;
    match step
    case UpdateListener(key, Some(listener)) =>
      s.(store := s.store.(listeners := s.store.listeners[key := listener]),
         traffic := t.(events := t.events + multiset{ListenerEvent(listener)}))
    case UpdateListener(key, None) =>
      s.(store := s.store.(listeners := s.store.listeners - {key}),
         traffic := t.(events := t.events + multiset{ListenerEvent(s.store.listeners[key])}))
    case UpdateSlice(key, slices, meta) =>
      s.(store := s.store.(slices := slices),
         traffic := t.(events := t.events + multiset{SliceEvent(meta)}))
    case HandleEvent(e) =>
      s.(traffic := t.(events := t.events - multiset{e},
                       notifications := t.notifications + multiset(set ref | ref in HandlerRefs(s.store, e) :: Looking(ref))))
    case NotifyLookup(ref) =>
      var rest := t.notifications - multiset{Looking(ref)};
      s.(traffic := t.(notifications :=
                         if ref in s.registry.entries then rest + multiset{Fanning(ref, s.registry.entries[ref])}
                         else rest))
    case NotifyFan(ref, o) =>
      var spawned := multiset(set w | w in s.registry.members[o] :: Delivery(w, ref));
      s.(traffic := t.(notifications := t.notifications - multiset{Fanning(ref, o)},
                       deliveries := t.deliveries + spawned),
         log := s.log.(spawned := s.log.spawned + spawned))
    case Receive(wid, ref) =>
      s.(traffic := t.(deliveries := t.deliveries - multiset{Delivery(wid, ref)}),
         log := s.log.(received := s.log.received + multiset{Delivery(wid, ref)}),
         watches := s.watches[wid := s.watches[wid].(phase := Resolving(ref.typeUrl, [ref.name], [], Unread))])
    case DropDone(wid, ref) =>
      s.(traffic := t.(deliveries := t.deliveries - multiset{Delivery(wid, ref)}),
         log := s.log.(droppedDone := s.log.droppedDone + multiset{Delivery(wid, ref)}))
    case DropCtx(wid, ref) =>
      s.(traffic := t.(deliveries := t.deliveries - multiset{Delivery(wid, ref)}),
         log := s.log.(droppedCtx := s.log.droppedCtx + multiset{Delivery(wid, ref)}))
    case Shutdown => s.(shutdown := true)
    case Start(wid, req, known) =>
      var phase := if req.names == [] then Deciding else Subscribing(0, Lookup);
      s.(watches := s.watches[wid := Watch(req, known, phase, {}, map[], [], false)])
    case Cancel(wid) => s.(watches := s.watches[wid := s.watches[wid].(cancelled := true)])
  }

  // ---- steps of one watch (configWatcher.watch) ----

  ghost function WatchActs(s: State, wid: Wid, action: Action): State
    requires wid in s.watches && CanAct(s.registry, s.watches[wid], action)
  {
    var (registry, w) := Local(s.store, s.registry, s.objects, wid, s.watches[wid], action);
    s.(registry := registry,
       objects := s.objects + 1,
       watches := s.watches[wid := w])
  }

  ghost predicate CanAct(registry: Reg, w: Watch, action: Action) {
    match action
    case Advance =>
      (match w.phase
       case Subscribing(i, sub) =>
         && i < |w.req.names|
         && (sub.Check? ==> sub.o in registry.members)
         && (sub.Join? ==> sub.o in registry.members)
       case Deciding => true
       case Resolving(typeUrl, names, done, cur) =>
         |done| < |names| ==>
           (cur.Read? ==> TargetKey(Ref(typeUrl, names[|done|])).Some?
                          && |cur.found| <= |QueriesFor(Ref(typeUrl, names[|done|]), cur.listener)|)
       case Releasing(rest, rel) =>
         && (rel.Next? ==> rest == {})
         && (!rel.Next? ==> rel.o in registry.members)
       case Closing => true
       case _ => false)
    case SendResponse => w.phase.Sending? && |w.phase.contents| == |w.phase.names|
    case DropResponse => w.phase.Sending? && w.cancelled
    case Exit => w.phase.Idle? && w.cancelled
    case ReleaseNext(ref) => w.phase.Releasing? && w.phase.rel.Next? && ref in w.phase.rest
  }

  /** hasResourceDiff. */
  ghost predicate HasDiff(known: set<string>, names: seq<string>) {
    exists i :: 0 <= i < |names| && names[i] !in known
  }

  /** hasResourceDiff, as its search loop. */
  method HasResourceDiff(known: set<string>, names: seq<string>) returns (diff: bool)
    ensures diff <==> exists i :: 0 <= i < |names| && names[i] !in known
  {
    for i := 0 to |names|
      invariant forall k :: 0 <= k < i ==> names[k] in known
    {
      if names[i] !in known {
        return true;
      }
    }
    return false;
  }

  ghost function Local(store: Store, registry: Reg, unused: nat, wid: Wid, w: Watch, action: Action): (Reg, Watch)
    requires CanAct(registry, w, action)
  {
    match action
    case Advance =>
      (match w.phase
       case Subscribing(i, sub) =>
         var (registry', i', sub', watched') := SubscribeStep(registry, unused, wid, w.RefOf(w.req.names[i]), i, sub, w.watched);
         (registry', w.(watched := watched',
                        phase := if i' == |w.req.names| then Deciding else Subscribing(i', sub')))
       case Deciding =>
         (registry, w.(phase := if HasDiff(w.known, w.req.names) then Resolving(w.req.typeUrl, w.req.names, [], Unread) else Idle))
       case Resolving(typeUrl, names, done, cur) =>
         (registry, w.(phase := ResolveStep(store, w.req.node, typeUrl, names, done, cur)))
       case Releasing(rest, rel) =>
         ReleaseStep(registry, wid, w, rest, rel)
       case _ => (registry, w.(phase := Released)))
    case SendResponse =>
      var Sending(typeUrl, names, contents) := w.phase;
      (registry, w.(phase := Idle,
                    lastSent := Remember(w.lastSent, names, contents),
                    sent := w.sent + [Response(typeUrl, names, contents)]))
    case DropResponse => (registry, w.(phase := Idle))
    case Exit => (registry, w.(phase := Releasing(w.watched, Next)))
    case ReleaseNext(ref) =>
      (registry, w.(phase := Releasing(w.phase.rest - {ref},
                                       if ref in registry.entries then RelCheck(ref, registry.entries[ref]) else Next)))
  }

  /** The contents a client holds after a response. */
  function Remember(last: map<string, Content>, names: seq<string>, contents: seq<Content>): map<string, Content>
    requires |names| == |contents|
  {
    if names == [] then last
    else
      var n := |names| - 1;
      Remember(last, names[..n], contents[..n])[names[n] := contents[n]]
  }

  ghost function SubscribeStep(registry: Reg, unused: nat, wid: Wid, ref: Ref, i: nat, sub: SubStep, watched: set<Ref>)
    : (Reg, nat, SubStep, set<Ref>)
    requires sub.Check? ==> sub.o in registry.members
    requires sub.Join? ==> sub.o in registry.members
  {
    match sub
    case Lookup => (registry, i, if ref in registry.entries then Check(registry.entries[ref]) else Create, watched)
    case Create =>
      var (registry', o) := registry.GetOrCreate(ref, unused);
      (registry', i, Check(o), watched)
    case Check(o) => (registry, i, if wid in registry.members[o] then Record else Join(o), watched)
    case Join(o) => (registry.Add(o, wid), i, Record, watched)
    case Record => (registry, i + 1, Lookup, watched + {ref})
  }

  ghost function ResolveStep(store: Store, node: Node, typeUrl: TypeUrl, names: seq<string>, done: seq<Content>, cur: Reading)
    : Phase
    requires |done| < |names| && cur.Read? ==>
               && TargetKey(Ref(typeUrl, names[|done|])).Some?
               && |cur.found| <= |QueriesFor(Ref(typeUrl, names[|done|]), cur.listener)|
  {
    if |done| >= |names| then Sending(typeUrl, names, done)
    else
      var ref := Ref(typeUrl, names[|done|]);
      match cur
      case Unread =>
        var key := TargetKey(ref);
        if key.None? || key.value !in store.listeners then Idle
        else Resolving(typeUrl, names, done, Read(store.listeners[key.value], []))
      case Read(listener, found) =>
        var queries := QueriesFor(ref, listener);
        if |found| < |queries| then
          Resolving(typeUrl, names, done, Read(listener, found + [Select(store.slices, queries[|found|])]))
        else
          match Finish(node, ref, listener, found)
          case None => Idle
          case Some(c) => Resolving(typeUrl, names, done + [c], Unread)
  }

  ghost function ReleaseStep(registry: Reg, wid: Wid, w: Watch, rest: set<Ref>, rel: RelStep): (Reg, Watch)
    requires rel.Next? ==> rest == {}
    requires !rel.Next? ==> rel.o in registry.members
  {
    match rel
    case Next => (registry, w.(phase := Closing))
    case RelCheck(ref, o) =>
      (registry, w.(phase := Releasing(rest, if wid in registry.members[o] then RelDelete(ref, o) else Next)))
    case RelDelete(ref, o) => (registry.Remove(o, wid), w.(phase := Releasing(rest, Next)))
  }

  // ---- runs ----

  ghost predicate ValidRun(s: State, steps: seq<Step>)
    decreases |steps|
  {
    steps == [] || (Enabled(s, steps[0]) && ValidRun(Apply(s, steps[0]), steps[1..]))
  }

  ghost function Run(s: State, steps: seq<Step>): State
    requires ValidRun(s, steps)
    decreases |steps|
  {
    if steps == [] then s else Run(Apply(s, steps[0]), steps[1..])
  }
}
