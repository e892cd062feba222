/**
 * Endpoint grouping: ready endpoints of the slices of a service, split by topology hints into at most
 * two priority groups, and the flat form used for explicit localities.
 */
module Endpoints {
  import opened Common
  import opened Text
  import opened Spec

  datatype LbEndpoint = LbEndpoint(address: string, port: uint32)

  datatype LocalityLbEndpoints = LocalityLbEndpoints(
    zone: string, subZone: string, weight: uint32, priority: uint32, endpoints: seq<LbEndpoint>)

  datatype EndpointData = EndpointData(port: uint32, endpoint: Endpoint)

  datatype EndpointGroup = EndpointGroup(zone: string, endpoints: seq<EndpointData>)

  // ---- ports, readiness and hints ----

  /** Go's uint32(int32) conversion. */
  function ToUint32(p: int32): (r: uint32)
    ensures r as int % UINT32_MODULUS == p as int % UINT32_MODULUS
  {
    if p < 0 then (p as int + UINT32_MODULUS) as uint32 else p as uint32
  }

  predicate PortMatches(want: PortRef, p: EndpointPort) {
    && p.name.Some? && p.port.Some?
    && if want.name != "" then p.name.value == want.name else p.port.value == want.number
  }

  function LookupPort(want: PortRef, ports: seq<EndpointPort>): Option<uint32> {
    if ports == [] then None
    else if PortMatches(want, ports[0]) then Some(ToUint32(ports[0].port.value))
    else LookupPort(want, ports[1..])
  }

  /** The lookup returns the first matching port, and fails exactly when there is none. */
  lemma {:induction false} LookupPortIsFirstMatch(want: PortRef, ports: seq<EndpointPort>)
    ensures var r := LookupPort(want, ports);
            match r
            case None => forall i :: 0 <= i < |ports| ==> !PortMatches(want, ports[i])
            case Some(n) => exists i :: 0 <= i < |ports| && PortMatches(want, ports[i])
                                        && n == ToUint32(ports[i].port.value)
                                        && forall j :: 0 <= j < i ==> !PortMatches(want, ports[j])
  {
    if ports != [] && !PortMatches(want, ports[0]) {
      var rest := ports[1..];
      LookupPortIsFirstMatch(want, rest);
      if LookupPort(want, rest).Some? {
        var i :| 0 <= i < |rest| && PortMatches(want, rest[i])
                 && LookupPort(want, rest).value == ToUint32(rest[i].port.value)
                 && forall j :: 0 <= j < i ==> !PortMatches(want, rest[j]);
        assert ports[i + 1] == rest[i];
        assert forall j :: 0 < j < i + 1 ==> ports[j] == rest[j - 1];
      } else {
        assert forall i :: 0 < i < |ports| ==> ports[i] == rest[i - 1];
      }
    }
  }

  predicate Ready(ep: Endpoint) { ep.ready == Some(true) }

  function FoldCase(s: string): string {
    Map(s, (c: char) => if 'A' <= c <= 'Z' then c + 32 as char else c)
  }

  /** strings.EqualFold on ASCII text. */
  predicate EqualFold(a: string, b: string) { FoldCase(a) == FoldCase(b) }

  predicate ContainsZone(zones: seq<string>, zone: string) {
    exists i :: 0 <= i < |zones| && EqualFold(zones[i], zone)
  }

  /** The endpoint's topology hints name the caller's zone. */
  predicate Hinted(ep: Endpoint, zone: string) {
    ep.hints.Some? && ContainsZone(ep.hints.value, zone)
  }

  function CallerZone(node: Node): string { if node.zone.Some? then node.zone.value else "" }

  // ---- what the loops accumulate ----

  predicate PortsKnown(want: PortRef, slices: seq<EndpointSlice>) {
    forall i :: 0 <= i < |slices| ==> LookupPort(want, slices[i].ports).Some?
  }

  function ReadyData(port: uint32, eps: seq<Endpoint>): seq<EndpointData> {
    if eps == [] then []
    else
      var last := eps[|eps| - 1];
      ReadyData(port, eps[..|eps| - 1]) + if Ready(last) then [EndpointData(port, last)] else []
  }

  /** Every ready endpoint with its slice's port, in slice order. */
  function AllReady(want: PortRef, slices: seq<EndpointSlice>): seq<EndpointData>
    requires PortsKnown(want, slices)
  {
    if slices == [] then []
    else
      var last := slices[|slices| - 1];
      AllReady(want, slices[..|slices| - 1]) + ReadyData(LookupPort(want, last.ports).value, last.endpoints)
  }

  /** The endpoints that are (or are not) hinted for the zone, in order. */
  function Part(data: seq<EndpointData>, zone: string, hinted: bool): seq<EndpointData> {
    if data == [] then []
    else
      var last := data[|data| - 1];
      Part(data[..|data| - 1], zone, hinted) + if Hinted(last.endpoint, zone) == hinted then [last] else []
  }

  /** The first non-empty zone of the group. */
  function GroupZone(data: seq<EndpointData>): string {
    if data == [] then ""
    else
      var z := GroupZone(data[..|data| - 1]);
      var last := data[|data| - 1].endpoint;
      if z == "" && last.zone.Some? then last.zone.value else z
  }

  function Lb(d: EndpointData): seq<LbEndpoint> {
    Map(d.endpoint.addresses, (a: string) => LbEndpoint(a, d.port))
  }

  /** One load-balancing endpoint per address, in order. */
  function LbAll(data: seq<EndpointData>): seq<LbEndpoint> {
    if data == [] then [] else LbAll(data[..|data| - 1]) + Lb(data[|data| - 1])
  }

  lemma LbAllStep(data: seq<EndpointData>, d: EndpointData)
    ensures LbAll(data + [d]) == LbAll(data) + Lb(d)
  {
    assert (data + [d])[..|data|] == data;
  }

  // ---- the zone-aware form ----

  function Group(data: seq<EndpointData>): Option<EndpointGroup> {
    if data == [] then None else Some(EndpointGroup(GroupZone(data), data))
  }

  function SubZone(svc: ServiceRef, priority: uint32): string {
    svc.name + "-" + Itoa(priority as int)
  }

  function PriorityGroup(svc: ServiceRef, data: seq<EndpointData>, priority: uint32): seq<LocalityLbEndpoints> {
    if data == [] then []
    else [LocalityLbEndpoints(GroupZone(data), SubZone(svc, priority), 1, priority, LbAll(data))]
  }

  /** The endpoints hinted for the zone, then the others; priority 1 only after a group of priority 0. */
  function Grouped(zone: string, svc: ServiceRef, all: seq<EndpointData>): seq<LocalityLbEndpoints> {
    var hinted, others := Part(all, zone, true), Part(all, zone, false);
    PriorityGroup(svc, hinted, 0) + PriorityGroup(svc, others, if hinted == [] then 0 else 1)
  }

  function ServiceEndpoints(zone: string, svc: ServiceRef, slices: seq<EndpointSlice>)
    : Result<seq<LocalityLbEndpoints>>
  {
    if !PortsKnown(svc.port, slices) then Err
    else
      Ok(Grouped(zone, svc, AllReady(svc.port, slices)))
  }

  /** makeLbEndpoints. */
  method MakeLbEndpoints(d: EndpointData) returns (eps: seq<LbEndpoint>)
    ensures eps == Lb(d)
    ensures |eps| == |d.endpoint.addresses|
    ensures forall i :: 0 <= i < |eps| ==> eps[i].address == d.endpoint.addresses[i] && eps[i].port == d.port
  {
    eps := [];
    for i := 0 to |d.endpoint.addresses|
      invariant eps == Lb(d)[..i]
    {
      eps := eps + [LbEndpoint(d.endpoint.addresses[i], d.port)];
    }
  }

  /** One pass of the inner loop of makeServiceEndpoints, on the two-slot group array. */
  method AddEndpoint(groups: array<Option<EndpointGroup>>, zone: string, d: EndpointData, ghost sofar: seq<EndpointData>)
    requires groups.Length == 2
    requires groups[0] == Group(Part(sofar, zone, true)) && groups[1] == Group(Part(sofar, zone, false))
    modifies groups
    ensures groups[0] == Group(Part(sofar + [d], zone, true))
    ensures groups[1] == Group(Part(sofar + [d], zone, false))
  {
    hide Part;
    PartStep(sofar, d, zone);
    GroupStep(Part(sofar, zone, true), d);
    GroupStep(Part(sofar, zone, false), d);
    hide GroupZone;
    var priority := 1;
    if d.endpoint.hints.Some? && ContainsZone(d.endpoint.hints.value, zone) {
      priority := 0;
    }
    var group := if groups[priority].Some? then groups[priority].value else EndpointGroup("", []);
    if group.zone == "" && d.endpoint.zone.Some? {
      group := group.(zone := d.endpoint.zone.value);
    }
    group := group.(endpoints := group.endpoints + [d]);
    groups[priority] := Some(group);
  }

  lemma PartStep(data: seq<EndpointData>, d: EndpointData, zone: string)
    ensures Part(data + [d], zone, Hinted(d.endpoint, zone)) == Part(data, zone, Hinted(d.endpoint, zone)) + [d]
    ensures Part(data + [d], zone, !Hinted(d.endpoint, zone)) == Part(data, zone, !Hinted(d.endpoint, zone))
  {
    hide Hinted;
    assert (data + [d])[..|data|] == data;
  }

  /** Appending to a group keeps its zone, or takes the endpoint's when the group has none yet. */
  lemma GroupStep(data: seq<EndpointData>, d: EndpointData)
    ensures GroupZone([]) == ""
    ensures Group(data + [d]) == Some(EndpointGroup(
                                        if GroupZone(data) == "" && d.endpoint.zone.Some? then d.endpoint.zone.value
                                        else GroupZone(data),
                                        data + [d]))
  {
    assert (data + [d])[..|data|] == data;
  }

  lemma ReadyDataStep(port: uint32, eps: seq<Endpoint>, j: nat)
    requires j < |eps|
    ensures ReadyData(port, eps[..j + 1]) ==
            ReadyData(port, eps[..j]) + if Ready(eps[j]) then [EndpointData(port, eps[j])] else []
  {
    assert eps[..j + 1][..j] == eps[..j];
  }

  lemma AllReadyStep(want: PortRef, slices: seq<EndpointSlice>, i: nat)
    requires i < |slices| && PortsKnown(want, slices[..i + 1])
    ensures PortsKnown(want, slices[..i])
    ensures LookupPort(want, slices[i].ports).Some?
    ensures AllReady(want, slices[..i + 1]) ==
            AllReady(want, slices[..i]) + ReadyData(LookupPort(want, slices[i].ports).value, slices[i].endpoints)
  {
    assert slices[..i + 1][..i] == slices[..i];
  }

  lemma PortsKnownStep(want: PortRef, slices: seq<EndpointSlice>, i: nat)
    requires i < |slices| && PortsKnown(want, slices[..i])
    ensures LookupPort(want, slices[i].ports).Some? ==> PortsKnown(want, slices[..i + 1])
    ensures LookupPort(want, slices[i].ports).None? ==> !PortsKnown(want, slices)
  {
  }

  /** The loop of makeServiceEndpoints over the endpoints of one slice. */
  method AddSlice(groups: array<Option<EndpointGroup>>, zone: string, port: uint32, eps: seq<Endpoint>,
                  ghost done: seq<EndpointData>)
    requires groups.Length == 2
    requires groups[0] == Group(Part(done, zone, true)) && groups[1] == Group(Part(done, zone, false))
    modifies groups
    ensures groups[0] == Group(Part(done + ReadyData(port, eps), zone, true))
    ensures groups[1] == Group(Part(done + ReadyData(port, eps), zone, false))
  {
    hide Part;
    hide Group;
    assert done + ReadyData(port, eps[..0]) == done;
    for j := 0 to |eps|
      invariant groups[0] == Group(Part(done + ReadyData(port, eps[..j]), zone, true))
      invariant groups[1] == Group(Part(done + ReadyData(port, eps[..j]), zone, false))
    {
      ghost var sofar := done + ReadyData(port, eps[..j]);
      ReadyDataStep(port, eps, j);
      if eps[j].ready != Some(true) {
        assert done + ReadyData(port, eps[..j + 1]) == sofar;
        continue;
      }
      AddEndpoint(groups, zone, EndpointData(port, eps[j]), sofar);
      assert sofar + [EndpointData(port, eps[j])] == done + ReadyData(port, eps[..j + 1]);
    }
    assert eps[..|eps|] == eps;
  }

  /** The loop of makeServiceEndpoints over the slices. */
  method CollectGroups(zone: string, want: PortRef, slices: seq<EndpointSlice>)
    returns (ok: bool, first: Option<EndpointGroup>, second: Option<EndpointGroup>)
    ensures ok == PortsKnown(want, slices)
    ensures ok ==> first == Group(Part(AllReady(want, slices), zone, true))
    ensures ok ==> second == Group(Part(AllReady(want, slices), zone, false))
  {
    var groups := new Option<EndpointGroup>[2](_ => None);
    assert groups[0] == Group(Part([], zone, true)) && groups[1] == Group(Part([], zone, false));
    assert PortsKnown(want, slices[..0]) && AllReady(want, slices[..0]) == [];
    hide *;
    for i := 0 to |slices|
      invariant PortsKnown(want, slices[..i])
      invariant groups[0] == Group(Part(AllReady(want, slices[..i]), zone, true))
      invariant groups[1] == Group(Part(AllReady(want, slices[..i]), zone, false))
    {
      var port := LookupPort(want, slices[i].ports);
      PortsKnownStep(want, slices, i);
      if port.None? {
        return false, None, None;
      }
      AddSlice(groups, zone, port.value, slices[i].endpoints, AllReady(want, slices[..i]));
      AllReadyStep(want, slices, i);
    }
    assert slices[..|slices|] == slices;
    return true, groups[0], groups[1];
  }

  /** makeServiceEndpoints. */
  method MakeServiceEndpoints(node: Node, svc: ServiceRef, slices: seq<EndpointSlice>)
    returns (r: Result<seq<LocalityLbEndpoints>>)
    ensures r == ServiceEndpoints(CallerZone(node), svc, slices)
  {
    var zone := "";
    if node.zone.Some? {
      zone := node.zone.value;
    }
    var ok, first, second := CollectGroups(zone, svc.port, slices);
    if !ok {
      return Err;
    }
    var result := EmitGroups(svc, first, second);
    r := Ok(result);
  }

  /** The closing loop of makeServiceEndpoints over the two slots. */
  method EmitGroups(svc: ServiceRef, first: Option<EndpointGroup>, second: Option<EndpointGroup>)
    returns (result: seq<LocalityLbEndpoints>)
    requires first == Group(if first.Some? then first.value.endpoints else [])
    requires second == Group(if second.Some? then second.value.endpoints else [])
    ensures result ==
              PriorityGroup(svc, if first.Some? then first.value.endpoints else [], 0) +
              PriorityGroup(svc, if second.Some? then second.value.endpoints else [], if first.Some? then 1 else 0)
  {
    result := [];
    var enableZonePrio := first.Some? && |first.value.endpoints| > 0;
    for prio := 0 to 2
      invariant prio == 0 ==> result == []
      invariant prio == 1 ==> result == PriorityGroup(svc, if first.Some? then first.value.endpoints else [], 0)
      invariant prio == 2 ==>
                  result ==
                  PriorityGroup(svc, if first.Some? then first.value.endpoints else [], 0) +
                  PriorityGroup(svc, if second.Some? then second.value.endpoints else [], if first.Some? then 1 else 0)
    {
      var group := if prio == 0 then first else second;
      if group.None? || |group.value.endpoints| == 0 {
        continue;
      }
      var appliedPrio: uint32 := if enableZonePrio then prio as uint32 else 0;
      var eps: seq<LbEndpoint> := [];
      var data := group.value.endpoints;
      for k := 0 to |data|
        invariant eps == LbAll(data[..k])
      {
        var more := MakeLbEndpoints(data[k]);
        eps := eps + more;
        assert data[..k + 1][..k] == data[..k];
      }
      assert data[..|data|] == data;
      result := result + [LocalityLbEndpoints(group.value.zone, SubZone(svc, appliedPrio), 1, appliedPrio, eps)];
    }
  }

  // ---- the flat form ----

  function FlatLocality(svc: ServiceRef, slices: seq<EndpointSlice>, weight: uint32, priority: uint32)
    : Result<LocalityLbEndpoints>
  {
    if !PortsKnown(svc.port, slices) then Err
    else Ok(LocalityLbEndpoints("", svc.name, weight, priority, LbAll(AllReady(svc.port, slices))))
  }

  /** The loop of makeFlatLocalityLbEndpoints over the endpoints of one slice. */
  method FlatSlice(port: uint32, eps: seq<Endpoint>, ghost done: seq<EndpointData>) returns (more: seq<LbEndpoint>)
    ensures LbAll(done) + more == LbAll(done + ReadyData(port, eps))
  {
    more := [];
    assert done + ReadyData(port, eps[..0]) == done;
    hide LbAll;
    hide Lb;
    hide ReadyData;
    for j := 0 to |eps|
      invariant LbAll(done) + more == LbAll(done + ReadyData(port, eps[..j]))
    {
      ghost var sofar := done + ReadyData(port, eps[..j]);
      ghost var before := more;
      ReadyDataStep(port, eps, j);
      if eps[j].ready != Some(true) {
        assert done + ReadyData(port, eps[..j + 1]) == sofar;
        continue;
      }
      var d := EndpointData(port, eps[j]);
      var lbs := MakeLbEndpoints(d);
      more := more + lbs;
      LbAllStep(sofar, d);
      assert done + ReadyData(port, eps[..j + 1]) == sofar + [d];
      assert LbAll(done) + more == (LbAll(done) + before) + lbs;
    }
    assert eps[..|eps|] == eps;
  }

  /** makeFlatLocalityLbEndpoints. */
  method MakeFlatLocalityLbEndpoints(svc: ServiceRef, slices: seq<EndpointSlice>, weight: uint32, priority: uint32)
    returns (r: Result<LocalityLbEndpoints>)
    ensures r == FlatLocality(svc, slices, weight, priority)
    ensures r.Ok? ==> r.value.weight == weight && r.value.priority == priority && r.value.zone == "" && r.value.subZone == svc.name
  {
    var xdsEndpoints: seq<LbEndpoint> := [];
    for i := 0 to |slices|
      invariant PortsKnown(svc.port, slices[..i])
      invariant xdsEndpoints == LbAll(AllReady(svc.port, slices[..i]))
    {
      var port := LookupPort(svc.port, slices[i].ports);
      if port.None? {
        return Err;
      }
      var more := FlatSlice(port.value, slices[i].endpoints, AllReady(svc.port, slices[..i]));
      xdsEndpoints := xdsEndpoints + more;
      AllReadyStep(svc.port, slices, i);
    }
    assert slices[..|slices|] == slices;
    r := Ok(LocalityLbEndpoints("", svc.name, weight, priority, xdsEndpoints));
  }
}
