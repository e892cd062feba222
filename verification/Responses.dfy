/** What every response of a watch looks like, over all interleavings. */
module Responses {
  import opened Names
  import opened Spec
  import opened Routes
  import opened Resolver
  import opened Protocol
  import opened RegistryInvariant

  /** A resource is of the reference's type and carries its name; EDS carries the name in printed form. */
  predicate Named(ref: Ref, resource: Resource) {
    match resource
    case Lds(name, _, _) => ref.typeUrl == ListenerType && name == ref.name
    case Cds(cluster) => ref.typeUrl == ClusterType && cluster.name == ref.name && cluster.edsServiceName == ref.name
    case Eds(assignment) =>
      && ref.typeUrl == EndpointType && ParseBackendName(ref.name).Ok?
      && assignment.clusterName == ParseBackendName(ref.name).value.Print()
  }

  /** All requested names in request order, or exactly one of them. */
  predicate NamesOk(req: Request, names: seq<string>) {
    names == req.names || (|names| == 1 && names[0] in req.names)
  }

  predicate Filled(req: Request, names: seq<string>, contents: seq<Content>) {
    && |contents| <= |names|
    && forall j :: 0 <= j < |contents| ==> Named(Ref(req.typeUrl, names[j]), contents[j].resource)
  }

  predicate ResponseOk(req: Request, r: Response) {
    r.typeUrl == req.typeUrl && NamesOk(req, r.names) && |r.contents| == |r.names| && Filled(req, r.names, r.contents)
  }

  ghost predicate ReadingOk(ref: Ref, cur: Reading) {
    cur.Read? ==> TargetKey(ref).Some? && |cur.found| <= |QueriesFor(ref, cur.listener)|
  }

  ghost predicate PhaseOk(w: Watch) {
    match w.phase
    case Subscribing(_, _) => w.sent == []
    case Deciding => w.sent == []
    case Resolving(typeUrl, names, done, cur) =>
      && typeUrl == w.req.typeUrl && NamesOk(w.req, names) && Filled(w.req, names, done)
      && (|names| == 1 || w.sent == [])
      && (|done| < |names| ==> ReadingOk(w.RefOf(names[|done|]), cur))
    case Sending(typeUrl, names, contents) =>
      && typeUrl == w.req.typeUrl && NamesOk(w.req, names) && |contents| == |names| && Filled(w.req, names, contents)
      && (|names| == 1 || w.sent == [])
    case Idle => true
    case _ => w.cancelled
  }

  function NameSet(names: seq<string>): set<string> { set name | name in names }

  function SentNames(sent: seq<Response>): set<string> {
    if sent == [] then {}
    else SentNames(sent[..|sent| - 1]) + NameSet(sent[|sent| - 1].names)
  }

  /** The names a client holds content for are those of the responses it was sent. */
  ghost predicate HoldsSent(w: Watch) {
    w.lastSent.Keys == SentNames(w.sent)
  }

  ghost predicate ResponsesOk(w: Watch) {
    && AsksInDomain(w.req)
    && PhaseOk(w)
    && HoldsSent(w)
    && forall i :: 0 <= i < |w.sent| ==> ResponseOk(w.req, w.sent[i])
  }

  ghost predicate ResponsesInv(s: State) {
    forall wid :: wid in s.watches ==> ResponsesOk(s.watches[wid])
  }

  lemma FinishIsNamed(node: Node, ref: Ref, listener: Listener, found: seq<seq<EndpointSlice>>)
    requires TargetKey(ref).Some? && |found| == |QueriesFor(ref, listener)|
    ensures Finish(node, ref, listener, found).Some? ==> Named(ref, Finish(node, ref, listener, found).value.resource)
  {
    hide RouteConfigOf;
    hide BackendName;
  }

  /** An assignment carries the name it was asked for exactly if that is the canonical spelling. */
  lemma EdsNameIsCanonical(store: Store, node: Node, name: string)
    requires Resolve(store, node, Ref(EndpointType, name)).Some?
    ensures var resource := Resolve(store, node, Ref(EndpointType, name)).value.resource;
            resource.Eds? && (resource.assignment.clusterName == name <==> CanonicalBackendName(name))
  {
    var ref := Ref(EndpointType, name);
    var listener := store.listeners[TargetKey(ref).value];
    FinishIsNamed(node, ref, listener, Reads(store.slices, QueriesFor(ref, listener)));
    BackendNameNormalisation(name);
    hide Finish;
    hide ParseBackendName;
    hide CanonicalBackendName;
    hide BackendName;
  }

  lemma ResolveStepResponses(store: Store, w: Watch)
    requires w.phase.Resolving? && PhaseOk(w)
    ensures PhaseOk(w.(phase := ResolveStep(store, w.req.node, w.phase.typeUrl, w.phase.names, w.phase.done, w.phase.cur)))
  {
    hide Finish;
    hide TargetKey;
    hide QueriesFor;
    hide Named;
    hide NamesOk;
    var Resolving(typeUrl, names, done, cur) := w.phase;
    if |done| < |names| && cur.Read? {
      var ref := w.RefOf(names[|done|]);
      if |cur.found| == |QueriesFor(ref, cur.listener)| {
        FinishIsNamed(w.req.node, ref, cur.listener, cur.found);
      }
    }
  }

  lemma {:induction false} RecordedNames(last: map<string, Content>, names: seq<string>, contents: seq<Content>)
    requires |names| == |contents|
    ensures Remember(last, names, contents).Keys == last.Keys + NameSet(names)
  {
    if names != [] {
      var n := |names| - 1;
      RecordedNames(last, names[..n], contents[..n]);
      assert names == names[..n] + [names[n]];
    }
  }

  lemma SendResponses(w: Watch)
    requires ResponsesOk(w) && w.phase.Sending?
    ensures |w.phase.contents| == |w.phase.names|
    ensures var Sending(typeUrl, names, contents) := w.phase;
            ResponsesOk(w.(phase := Idle,
                           lastSent := Remember(w.lastSent, names, contents),
                           sent := w.sent + [Response(typeUrl, names, contents)]))
  {
    hide NamesOk;
    hide Filled;
    hide Remember;
    var Sending(typeUrl, names, contents) := w.phase;
    RecordedNames(w.lastSent, names, contents);
    var sent' := w.sent + [Response(typeUrl, names, contents)];
    assert sent'[..|w.sent|] == w.sent;
  }

  lemma LocalKeepsResponses(store: Store, reg: Reg, unused: nat, wid: Wid, w: Watch, action: Action)
    requires CanAct(reg, w, action) && ResponsesOk(w)
    ensures ResponsesOk(Local(store, reg, unused, wid, w, action).1)
  {
    hide Finish;
    hide TargetKey;
    hide QueriesFor;
    hide Filled;
    hide Remember;
    hide SentNames;
    if action.SendResponse? {
      hide ResponseOk;
      SendResponses(w);
    } else if action.Advance? && w.phase.Resolving? {
      hide ResponseOk;
      ResolveStepResponses(store, w);
      hide ResolveStep;
    } else {
      hide ResponseOk;
      hide ResolveStep;
      QuietLocalResponses(store, reg, unused, wid, w, action);
    }
  }

  /** The other actions send nothing and start no resolve, except for the initial one. */
  lemma QuietLocalResponses(store: Store, reg: Reg, unused: nat, wid: Wid, w: Watch, action: Action)
    requires CanAct(reg, w, action) && PhaseOk(w) && !action.SendResponse? && !(action.Advance? && w.phase.Resolving?)
    ensures var w' := Local(store, reg, unused, wid, w, action).1;
            w'.req == w.req && w'.sent == w.sent && w'.lastSent == w.lastSent && PhaseOk(w')
  {
    hide ResolveStep;
    hide TargetKey;
    hide QueriesFor;
  }

  lemma ActKeepsResponses(s: State, wid: Wid, action: Action)
    requires ResponsesInv(s) && wid in s.watches && CanAct(s.registry, s.watches[wid], action)
    ensures ResponsesInv(WatchActs(s, wid, action))
  {
    LocalKeepsResponses(s.store, s.registry, s.objects, wid, s.watches[wid], action);
    hide ResponsesOk;
    hide Local;
  }

  lemma ReceiveKeepsResponses(s: State, wid: Wid, ref: Ref)
    requires RegistryInv(s) && ResponsesInv(s) && Possible(s, Receive(wid, ref))
    ensures ResponsesInv(Happen(s, Receive(wid, ref)))
  {
    hide Agreement;
    hide Conserved;
    hide SentNames;
    hide ResponseOk;
    var w := s.watches[wid];
    assert ref in AllRefs(w.req);
    assert ResponsesOk(w);
    assert ResponsesOk(w.(phase := Resolving(ref.typeUrl, [ref.name], [], Unread)));
    hide ResponsesOk;
  }

  lemma HappenKeepsResponses(s: State, step: Step)
    requires ResponsesInv(s) && Possible(s, step) && !step.Receive?
    ensures ResponsesInv(Happen(s, step))
  {
    hide HandlerRefs;
    hide SliceUpdate;
    hide ResponseOk;
    var s' := Happen(s, step);
    if step.Cancel? {
      assert ResponsesOk(s.watches[step.wid]);
      assert ResponsesOk(s'.watches[step.wid]);
    } else if step.Start? {
      assert ResponsesOk(s'.watches[step.wid]);
    } else {
      assert s'.watches == s.watches;
    }
    hide ResponsesOk;
  }

  lemma StepKeepsResponses(s: State, step: Step)
    requires RegistryInv(s) && ResponsesInv(s) && Enabled(s, step)
    ensures ResponsesInv(Apply(s, step))
  {
    hide Happen;
    hide WatchActs;
    hide Possible;
    hide CanAct;
    hide ResponsesInv;
    if step.Act? {
      ActKeepsResponses(s, step.wid, step.action);
    } else if step.Receive? {
      ReceiveKeepsResponses(s, step.wid, step.ref);
    } else {
      HappenKeepsResponses(s, step);
    }
  }
}
