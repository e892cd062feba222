/** When the update of one slice changes the load assignment of a backend that does not hear of it. */
module Assignments {
  import opened Common
  import opened Names
  import opened Spec
  import opened Endpoints
  import opened Grouping
  import opened SliceOrder
  import opened Resolver
  import opened Notify

  // ---- what one slice contributes ----

  predicate HasReady(s: EndpointSlice) {
    exists j :: 0 <= j < |s.endpoints| && Ready(s.endpoints[j])
  }

  /** Every endpoint has an address, as the Kubernetes API demands. */
  predicate Addressed(slices: seq<EndpointSlice>) {
    forall i, j :: 0 <= i < |slices| && 0 <= j < |slices[i].endpoints| ==> slices[i].endpoints[j].addresses != []
  }

  function LbsOf(want: PortRef): EndpointSlice -> seq<LbEndpoint> {
    (s: EndpointSlice) => LbAll(DataOf(want)(s))
  }

  lemma LbAllAppend(a: seq<EndpointData>, b: seq<EndpointData>)
    ensures LbAll(a + b) == LbAll(a) + LbAll(b)
  {
    LbAllIsFlatMap(a);
    LbAllIsFlatMap(b);
    LbAllIsFlatMap(a + b);
    FlatMapAppend(a, b, Lb);
  }

  lemma {:induction false} LbAllBySlice(want: PortRef, slices: seq<EndpointSlice>)
    ensures LbAll(FlatMap(slices, DataOf(want))) == FlatMap(slices, LbsOf(want))
  {
    if slices != [] {
      LbAllBySlice(want, slices[1..]);
      LbAllAppend(DataOf(want)(slices[0]), FlatMap(slices[1..], DataOf(want)));
    }
  }

  lemma {:induction false} ReadyDataIsEmpty(port: uint32, eps: seq<Endpoint>)
    ensures ReadyData(port, eps) == [] <==> forall j :: 0 <= j < |eps| ==> !Ready(eps[j])
    ensures forall d :: d in ReadyData(port, eps) ==> d.endpoint in eps
  {
    if eps != [] {
      var n := |eps| - 1;
      ReadyDataIsEmpty(port, eps[..n]);
      assert forall j :: 0 <= j < n ==> eps[j] == eps[..n][j];
    }
  }

  lemma {:induction false} LbAllIsEmpty(data: seq<EndpointData>)
    requires forall d :: d in data ==> d.endpoint.addresses != []
    ensures LbAll(data) == [] <==> data == []
  {
    if data != [] {
      var last := data[|data| - 1];
      assert last in data;
      LbLength(last);
    }
  }

  lemma Contribution(want: PortRef, s: EndpointSlice)
    requires LookupPort(want, s.ports).Some?
    requires forall j :: 0 <= j < |s.endpoints| ==> s.endpoints[j].addresses != []
    ensures DataOf(want)(s) == [] <==> !HasReady(s)
    ensures LbsOf(want)(s) == [] <==> !HasReady(s)
  {
    var port := LookupPort(want, s.ports).value;
    ReadyDataIsEmpty(port, s.endpoints);
    LbAllIsEmpty(ReadyData(port, s.endpoints));
  }

  // ---- one lister call ----

  /** The query selects a slice under `key` that has a ready endpoint. */
  ghost predicate SelectsReady(slices: seq<EndpointSlice>, key: Key, q: Query) {
    exists k :: 0 <= k < |slices| && SliceKey(slices[k]) == key && Selects(q, slices[k]) && HasReady(slices[k])
  }

  /** What a query that selects nothing under `key` any more still finds. */
  lemma ReadyChanges(before: seq<EndpointSlice>, after: seq<EndpointSlice>, key: Key, q: Query, want: PortRef)
    requires Elsewhere(after, key) == Elsewhere(before, key)
    requires forall k :: 0 <= k < |after| && SliceKey(after[k]) == key ==> !Selects(q, after[k])
    requires PortsKnown(want, Select(before, q)) && PortsKnown(want, Select(after, q)) && Addressed(before)
    ensures var a, b := AllReady(want, Select(after, q)), AllReady(want, Select(before, q));
            if SelectsReady(before, key, q) then |LbAll(a)| != |LbAll(b)| else a == b
  {
    var outer := (s: EndpointSlice) => SliceKey(s) != key;
    var inner := (s: EndpointSlice) => Selects(q, s);
    SelectElsewhere(after, key, q);
    ElsewhereIsFilter(before, key, outer);
    SelectIsFilter(before, q, inner);
    SelectIsFilter(Elsewhere(before, key), q, inner);
    AllReadyIsFlatMap(want, Select(after, q));
    AllReadyIsFlatMap(want, Select(before, q));
    FlatMapFiltered(before, outer, inner, DataOf(want));
    FlatMapFiltered(before, outer, inner, LbsOf(want));
    LbAllBySlice(want, Select(after, q));
    LbAllBySlice(want, Select(before, q));
    forall k | 0 <= k < |before| && inner(before[k]) && !outer(before[k])
      ensures DataOf(want)(before[k]) == [] <==> !HasReady(before[k])
      ensures LbsOf(want)(before[k]) == [] <==> !HasReady(before[k])
    {
      SelectedPort(before, q, want, k);
      Contribution(want, before[k]);
    }
    hide Elsewhere;
    hide Select;
    hide Selects;
    hide AllReady;
    hide LbAll;
    hide HasReady;
    hide Addressed;
    hide PortsKnown;
    if SelectsReady(before, key, q) {
      var k :| 0 <= k < |before| && SliceKey(before[k]) == key && Selects(q, before[k]) && HasReady(before[k]);
      assert before[k] in before && inner(before[k]) && !outer(before[k]);
    } else {
      forall x | x in before && inner(x) && !outer(x)
        ensures DataOf(want)(x) == []
      {
        var k :| 0 <= k < |before| && before[k] == x;
      }
    }
  }

  lemma SelectedPort(slices: seq<EndpointSlice>, q: Query, want: PortRef, k: nat)
    requires k < |slices| && Selects(q, slices[k]) && PortsKnown(want, Select(slices, q))
    ensures LookupPort(want, slices[k].ports).Some?
  {
    hide LookupPort;
    SelectMember(slices, q, slices[k]);
    var i :| 0 <= i < |Select(slices, q)| && Select(slices, q)[i] == slices[k];
  }

  // ---- a backend ----

  /** Resolution of the backend reads a slice under `key` that has a ready endpoint. */
  ghost predicate ReadsReady(slices: seq<EndpointSlice>, key: Key, listener: Listener, backend: Backend) {
    exists i :: 0 <= i < |Queries(listener, backend)| && SelectsReady(slices, key, Queries(listener, backend)[i])
  }

  /** The number of endpoints in the groups is the number of addresses of ready endpoints. */
  lemma GroupsCount(zone: string, svc: ServiceRef, slices: seq<EndpointSlice>)
    requires PortsKnown(svc.port, slices)
    ensures |Flatten(GroupEndpoints(ServiceEndpoints(zone, svc, slices).value))| == |LbAll(AllReady(svc.port, slices))|
  {
    ZoneAwareRefinesFlat(zone, svc, slices, 1, 0);
    var x, y := Flatten(GroupEndpoints(ServiceEndpoints(zone, svc, slices).value)), LbAll(AllReady(svc.port, slices));
    assert |multiset(x)| == |x| && |multiset(y)| == |y|;
  }

  lemma ServiceChanges(zone: string, svc: ServiceRef, before: seq<EndpointSlice>, after: seq<EndpointSlice>, key: Key, q: Query)
    requires Elsewhere(after, key) == Elsewhere(before, key) && Addressed(before)
    requires forall k :: 0 <= k < |after| && SliceKey(after[k]) == key ==> !Selects(q, after[k])
    requires ServiceEndpoints(zone, svc, Select(before, q)).Ok? && ServiceEndpoints(zone, svc, Select(after, q)).Ok?
    ensures ServiceEndpoints(zone, svc, Select(before, q)) == ServiceEndpoints(zone, svc, Select(after, q)) <==>
            !SelectsReady(before, key, q)
  {
    ReadyChanges(before, after, key, q, svc.port);
    GroupsCount(zone, svc, Select(before, q));
    GroupsCount(zone, svc, Select(after, q));
    hide Grouped;
    hide Select;
    hide SelectsReady;
    hide GroupEndpoints;
    hide LbAll;
    hide AllReady;
  }

  lemma LocalityChanges(loc: Locality, before: seq<EndpointSlice>, after: seq<EndpointSlice>, key: Key, q: Query)
    requires Elsewhere(after, key) == Elsewhere(before, key) && Addressed(before)
    requires forall k :: 0 <= k < |after| && SliceKey(after[k]) == key ==> !Selects(q, after[k])
    requires LocalityResult(loc, Select(before, q)).Ok? && LocalityResult(loc, Select(after, q)).Ok?
    ensures LocalityResult(loc, Select(before, q)) == LocalityResult(loc, Select(after, q)) <==> !SelectsReady(before, key, q)
  {
    ReadyChanges(before, after, key, q, loc.service.port);
    hide Select;
    hide SelectsReady;
    hide LbAll;
    hide AllReady;
  }

  /**
   * When a slice is replaced by one that the change test of a backend refuses, and a load assignment can be made
   * before and after, the assignment changes exactly if the backend read a ready endpoint from the old slice.
   */
  lemma AssignmentChangesExactly(node: Node, p: ParsedBackendName, listener: Listener, backend: Backend,
                                 before: seq<EndpointSlice>, after: seq<EndpointSlice>, key: Key, meta: SliceMeta)
    requires Elsewhere(after, key) == Elsewhere(before, key) && AllCarry(after, key, meta) && Addressed(before)
    requires !MatchesBackend(meta, listener, backend)
    requires LoadAssignment(node, p, listener, backend, Reads(before, Queries(listener, backend))).Ok?
    requires LoadAssignment(node, p, listener, backend, Reads(after, Queries(listener, backend))).Ok?
    ensures LoadAssignment(node, p, listener, backend, Reads(before, Queries(listener, backend))).value.0 ==
            LoadAssignment(node, p, listener, backend, Reads(after, Queries(listener, backend))).value.0 <==>
            !ReadsReady(before, key, listener, backend)
  {
    var qs := Queries(listener, backend);
    forall i | 0 <= i < |qs|
      ensures forall k :: 0 <= k < |after| && SliceKey(after[k]) == key ==> !Selects(qs[i], after[k])
    {
      RefusedIsNotSelected(after, key, meta, listener, backend, i);
    }
    hide MatchesBackend;
    hide Elsewhere;
    hide Select;
    hide Selects;
    hide SelectsReady;
    hide BackendName;
    hide ValidLabelValue;
    if backend.service.Some? {
      ServiceChanges(CallerZone(node), backend.service.value, before, after, key, qs[0]);
      hide ServiceEndpoints;
    } else {
      hide FlatLocality;
      hide ServiceEndpoints;
      LocalitiesChange(backend.localities, before, after, key, qs);
      hide LocalitiesEndpoints;
    }
  }

  lemma LocalitiesChange(locs: seq<Locality>, before: seq<EndpointSlice>, after: seq<EndpointSlice>, key: Key, qs: seq<Query>)
    requires Elsewhere(after, key) == Elsewhere(before, key) && Addressed(before) && |locs| == |qs|
    requires forall i, k :: 0 <= i < |qs| && 0 <= k < |after| && SliceKey(after[k]) == key ==> !Selects(qs[i], after[k])
    requires LocalitiesEndpoints(locs, Reads(before, qs)).Ok? && LocalitiesEndpoints(locs, Reads(after, qs)).Ok?
    ensures LocalitiesEndpoints(locs, Reads(before, qs)) == LocalitiesEndpoints(locs, Reads(after, qs)) <==>
            forall i :: 0 <= i < |qs| ==> !SelectsReady(before, key, qs[i])
  {
    hide LocalityResult;
    hide Elsewhere;
    hide Select;
    hide Selects;
    hide SelectsReady;
    var b, a := LocalitiesEndpoints(locs, Reads(before, qs)).value, LocalitiesEndpoints(locs, Reads(after, qs)).value;
    forall i | 0 <= i < |qs|
      ensures b[i] == a[i] <==> !SelectsReady(before, key, qs[i])
    {
      LocalityChanges(locs[i], before, after, key, qs[i]);
    }
    if i :| 0 <= i < |qs| && SelectsReady(before, key, qs[i]) {
      assert b[i] != a[i];
    } else {
      assert b == a;
    }
  }

  // ---- the bytes hashed ----

  function VersionOf(): EndpointSlice -> string {
    (s: EndpointSlice) => s.resourceVersion
  }

  /** A query selects a slice under `key` with a version to hash. */
  ghost predicate SelectsVersion(slices: seq<EndpointSlice>, key: Key, q: Query) {
    exists k :: 0 <= k < |slices| && SliceKey(slices[k]) == key && Selects(q, slices[k]) && slices[k].resourceVersion != ""
  }

  lemma {:induction false} VersionBytes(slices: seq<EndpointSlice>)
    ensures Flatten(Versions(slices)) == FlatMap(slices, VersionOf())
  {
    if slices != [] {
      VersionBytes(slices[1..]);
      assert Versions(slices)[1..] == Versions(slices[1..]);
    }
  }

  lemma QueryBytes(before: seq<EndpointSlice>, after: seq<EndpointSlice>, key: Key, q: Query)
    requires Elsewhere(after, key) == Elsewhere(before, key)
    requires forall k :: 0 <= k < |after| && SliceKey(after[k]) == key ==> !Selects(q, after[k])
    ensures var a, b := Flatten(Versions(Select(after, q))), Flatten(Versions(Select(before, q)));
            |a| <= |b| && (a == b <==> |a| == |b|) && (a == b <==> !SelectsVersion(before, key, q))
  {
    var outer := (s: EndpointSlice) => SliceKey(s) != key;
    var inner := (s: EndpointSlice) => Selects(q, s);
    SelectElsewhere(after, key, q);
    ElsewhereIsFilter(before, key, outer);
    SelectIsFilter(before, q, inner);
    SelectIsFilter(Elsewhere(before, key), q, inner);
    FlatMapFiltered(before, outer, inner, VersionOf());
    VersionBytes(Select(after, q));
    VersionBytes(Select(before, q));
    hide Elsewhere;
    hide Select;
    hide Selects;
    hide Versions;
    if SelectsVersion(before, key, q) {
      var k :| 0 <= k < |before| && SliceKey(before[k]) == key && Selects(q, before[k]) && before[k].resourceVersion != "";
      assert before[k] in before && inner(before[k]) && !outer(before[k]);
    }
  }

  lemma BytesStep(found: seq<seq<EndpointSlice>>)
    requires found != []
    ensures var n := |found| - 1;
            Flatten(LocalityVersions(found)) == Flatten(LocalityVersions(found[..n])) + Flatten(Versions(found[n]))
  {
    var n := |found| - 1;
    FlattenAppend(LocalityVersions(found[..n]), Versions(found[n]));
  }

  lemma BothSame(a1: string, b1: string, a2: string, b2: string)
    requires |a1| <= |b1| && (a1 == b1 <==> |a1| == |b1|)
    requires |a2| <= |b2| && (a2 == b2 <==> |a2| == |b2|)
    ensures a1 + a2 == b1 + b2 <==> a1 == b1 && a2 == b2
    ensures |a1 + a2| == |b1 + b2| <==> a1 == b1 && a2 == b2
  {}

  function Bytes(slices: seq<EndpointSlice>): string { Flatten(Versions(slices)) }

  function AllBytes(found: seq<seq<EndpointSlice>>): string { Flatten(LocalityVersions(found)) }

  /** Concatenations of parts that each stay or get shorter. */
  lemma {:induction false} BytesShrink(before: seq<seq<EndpointSlice>>, after: seq<seq<EndpointSlice>>)
    requires |before| == |after|
    requires forall i :: 0 <= i < |before| ==>
               |Bytes(after[i])| <= |Bytes(before[i])|
               && (Bytes(after[i]) == Bytes(before[i]) <==> |Bytes(after[i])| == |Bytes(before[i])|)
    ensures |AllBytes(after)| <= |AllBytes(before)|
    ensures AllBytes(after) == AllBytes(before) <==> |AllBytes(after)| == |AllBytes(before)|
    ensures AllBytes(after) == AllBytes(before) <==> forall i :: 0 <= i < |before| ==> Bytes(after[i]) == Bytes(before[i])
  {
    if before == [] {
      assert before == after;
    } else {
      var n := |before| - 1;
      var b, a := before[..n], after[..n];
      BytesStep(before);
      BytesStep(after);
      assert AllBytes(before) == AllBytes(b) + Bytes(before[n]) && AllBytes(after) == AllBytes(a) + Bytes(after[n]);
      hide *;
      assert forall i :: 0 <= i < n ==> b[i] == before[i] && a[i] == after[i];
      BytesShrink(b, a);
      BothSame(AllBytes(a), AllBytes(b), Bytes(after[n]), Bytes(before[n]));
    }
  }

  /** Resolution of the backend feeds a non-empty version of the slice under `key` to the hash. */
  ghost predicate ReadsVersion(slices: seq<EndpointSlice>, key: Key, listener: Listener, backend: Backend) {
    exists i :: 0 <= i < |Queries(listener, backend)| && SelectsVersion(slices, key, Queries(listener, backend)[i])
  }

  /** The bytes hashed stay the same exactly if no version of the old slice was among them. */
  lemma BytesChangeExactly(listener: Listener, backend: Backend, before: seq<EndpointSlice>, after: seq<EndpointSlice>,
                           key: Key, meta: SliceMeta)
    requires Elsewhere(after, key) == Elsewhere(before, key) && AllCarry(after, key, meta)
    requires !MatchesBackend(meta, listener, backend)
    ensures AllBytes(Reads(before, Queries(listener, backend))) == AllBytes(Reads(after, Queries(listener, backend))) <==>
            !ReadsVersion(before, key, listener, backend)
  {
    var qs := Queries(listener, backend);
    var b, a := Reads(before, qs), Reads(after, qs);
    forall i | 0 <= i < |qs|
      ensures var x, y := Bytes(a[i]), Bytes(b[i]);
              |x| <= |y| && (x == y <==> |x| == |y|) && (x == y <==> !SelectsVersion(before, key, qs[i]))
    {
      RefusedIsNotSelected(after, key, meta, listener, backend, i);
      QueryBytes(before, after, key, qs[i]);
    }
    hide *;
    BytesShrink(b, a);
    ReadsVersionIs(before, key, listener, backend);
  }

  lemma ReadsVersionIs(slices: seq<EndpointSlice>, key: Key, listener: Listener, backend: Backend)
    ensures var qs := Queries(listener, backend);
            !ReadsVersion(slices, key, listener, backend) <==> forall i :: 0 <= i < |qs| ==> !SelectsVersion(slices, key, qs[i])
  {
    hide Queries;
    hide SelectsVersion;
  }
}
