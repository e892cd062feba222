/**
 * Which endpoints an assignment lists, read off the stored slices: a place is a slice, an endpoint in it and an
 * address of that, and the endpoints listed are those of the ready places, in order, each once.
 */
module Places {
  import opened Common
  import opened Spec
  import opened Endpoints
  import opened SliceOrder
  import opened Assignments

  // ---- ports ----

  /** The slice port is one that the reference asks for, by name if it has one and else by number. */
  predicate Offers(want: PortRef, p: EndpointPort) {
    && p.name.Some? && p.port.Some?
    && (want.name != "" ==> p.name.value == want.name)
    && (want.name == "" ==> p.port.value == want.number)
  }

  /** `n` is the number of the first such port, as a 32-bit unsigned one. */
  ghost predicate FirstOffer(want: PortRef, ports: seq<EndpointPort>, n: uint32) {
    exists i :: 0 <= i < |ports| && Offers(want, ports[i]) && n as int == ports[i].port.value as int % 0x1_0000_0000
                && forall j :: 0 <= j < i ==> !Offers(want, ports[j])
  }

  lemma {:induction false} PortIsFirstOffer(want: PortRef, ports: seq<EndpointPort>)
    ensures LookupPort(want, ports).Some? ==> FirstOffer(want, ports, LookupPort(want, ports).value)
    ensures LookupPort(want, ports).Some? <==> exists i :: 0 <= i < |ports| && Offers(want, ports[i])
  {
    LookupPortIsFirstMatch(want, ports);
    forall i | 0 <= i < |ports| ensures PortMatches(want, ports[i]) <==> Offers(want, ports[i]) {}
    hide LookupPort;
    hide PortMatches;
    hide Offers;
    match LookupPort(want, ports)
    case None =>
    case Some(n) =>
      var i :| 0 <= i < |ports| && PortMatches(want, ports[i]) && n == ToUint32(ports[i].port.value)
               && forall j :: 0 <= j < i ==> !PortMatches(want, ports[j]);
      assert Offers(want, ports[i]);
  }

  /** A named reference finds the number of the first port with that name and any number. */
  lemma PortByName(want: PortRef, ports: seq<EndpointPort>)
    requires want.name != ""
    ensures var found := LookupPort(want, ports);
            if found.None? then forall i :: 0 <= i < |ports| ==> !(ports[i].name == Some(want.name) && ports[i].port.Some?)
            else exists i :: 0 <= i < |ports| && ports[i].name == Some(want.name) && ports[i].port.Some?
                             && found.value as int == ports[i].port.value as int % 0x1_0000_0000
                             && forall j :: 0 <= j < i ==> !(ports[j].name == Some(want.name) && ports[j].port.Some?)
  {
    PortIsFirstOffer(want, ports);
    hide LookupPort;
    if LookupPort(want, ports).Some? {
      var i :| 0 <= i < |ports| && Offers(want, ports[i])
               && LookupPort(want, ports).value as int == ports[i].port.value as int % 0x1_0000_0000
               && forall j :: 0 <= j < i ==> !Offers(want, ports[j]);
      assert forall j :: 0 <= j < i ==> !(ports[j].name == Some(want.name) && ports[j].port.Some?);
      assert ports[i].name == Some(want.name);
    }
  }

  /** A reference without a name finds its number if a port has it, provided that port has a name. */
  lemma PortByNumber(want: PortRef, ports: seq<EndpointPort>)
    requires want.name == ""
    ensures LookupPort(want, ports) ==
            if exists i :: 0 <= i < |ports| && ports[i].port == Some(want.number) && ports[i].name.Some?
            then Some((want.number as int % 0x1_0000_0000) as uint32) else None
  {
    PortIsFirstOffer(want, ports);
    hide LookupPort;
    if LookupPort(want, ports).Some? {
      var i :| 0 <= i < |ports| && Offers(want, ports[i])
               && LookupPort(want, ports).value as int == ports[i].port.value as int % 0x1_0000_0000
               && forall j :: 0 <= j < i ==> !Offers(want, ports[j]);
      assert ports[i].port == Some(want.number) && ports[i].name.Some?;
    } else {
      forall i | 0 <= i < |ports| ensures !(ports[i].port == Some(want.number) && ports[i].name.Some?) {
        assert !Offers(want, ports[i]);
      }
    }
  }

  // ---- places ----

  datatype Place = Place(slice: nat, endpoint: nat, address: nat)
  {
    predicate Before(that: Place) {
      || slice < that.slice
      || (slice == that.slice && (endpoint < that.endpoint || (endpoint == that.endpoint && address < that.address)))
    }
  }

  /** A picked slice has a ready endpoint that is kept, with an address at this place. */
  predicate IsPlace(slices: seq<EndpointSlice>, pick: EndpointSlice -> bool, keep: Endpoint -> bool, t: Place) {
    && t.slice < |slices| && pick(slices[t.slice])
    && t.endpoint < |slices[t.slice].endpoints|
    && var ep := slices[t.slice].endpoints[t.endpoint];
       ep.ready == Some(true) && keep(ep) && t.address < |ep.addresses|
  }

  predicate Ascending(places: seq<Place>) {
    forall m, n :: 0 <= m < n < |places| ==> places[m].Before(places[n])
  }

  /** Exactly the places, in order and each once. */
  ghost predicate Lists(slices: seq<EndpointSlice>, pick: EndpointSlice -> bool, keep: Endpoint -> bool, places: seq<Place>) {
    Ascending(places) && forall t :: t in places <==> IsPlace(slices, pick, keep, t)
  }

  /** One endpoint per place: its address, with the first port of its slice that is asked for. */
  ghost predicate Emits(want: PortRef, slices: seq<EndpointSlice>, places: seq<Place>, lbs: seq<LbEndpoint>) {
    && |lbs| == |places|
    && forall n :: 0 <= n < |places| ==> EmitsAt(want, slices, places[n], lbs[n])
  }

  ghost predicate EmitsAt(want: PortRef, slices: seq<EndpointSlice>, t: Place, lb: LbEndpoint) {
    && t.slice < |slices| && t.endpoint < |slices[t.slice].endpoints|
    && t.address < |slices[t.slice].endpoints[t.endpoint].addresses|
    && lb.address == slices[t.slice].endpoints[t.endpoint].addresses[t.address]
    && FirstOffer(want, slices[t.slice].ports, lb.port)
  }

  /** The endpoints listed are those of the kept ready endpoints of the picked slices. */
  ghost predicate ListsReady(want: PortRef, slices: seq<EndpointSlice>, pick: EndpointSlice -> bool, keep: Endpoint -> bool,
                             lbs: seq<LbEndpoint>)
  {
    exists places :: Lists(slices, pick, keep, places) && Emits(want, slices, places, lbs)
  }

  /** Said of single pairs: an address and port are listed if and only if they are those of some place. */
  lemma ListedExactly(want: PortRef, slices: seq<EndpointSlice>, pick: EndpointSlice -> bool, keep: Endpoint -> bool,
                      lbs: seq<LbEndpoint>, lb: LbEndpoint)
    requires ListsReady(want, slices, pick, keep, lbs)
    ensures lb in lbs <==> exists t :: IsPlace(slices, pick, keep, t) && EmitsAt(want, slices, t, lb)
  {
    var places :| Lists(slices, pick, keep, places) && Emits(want, slices, places, lbs);
    if lb in lbs {
      var n :| 0 <= n < |lbs| && lbs[n] == lb;
      assert places[n] in places && EmitsAt(want, slices, places[n], lb);
    }
    if t :| IsPlace(slices, pick, keep, t) && EmitsAt(want, slices, t, lb) {
      assert t in places;
      var n :| 0 <= n < |places| && places[n] == t;
      assert EmitsAt(want, slices, t, lbs[n]);
      OneFirstOffer(want, slices[t.slice].ports, lb.port, lbs[n].port);
      assert lbs[n] == lb;
    }
  }

  lemma OneFirstOffer(want: PortRef, ports: seq<EndpointPort>, m: uint32, n: uint32)
    requires FirstOffer(want, ports, m) && FirstOffer(want, ports, n)
    ensures m == n
  {
    var i :| 0 <= i < |ports| && Offers(want, ports[i]) && m as int == ports[i].port.value as int % 0x1_0000_0000
             && forall j :: 0 <= j < i ==> !Offers(want, ports[j]);
    var k :| 0 <= k < |ports| && Offers(want, ports[k]) && n as int == ports[k].port.value as int % 0x1_0000_0000
             && forall j :: 0 <= j < k ==> !Offers(want, ports[j]);
    assert i == k;
  }

  // ---- listing places ----

  function EndpointPlaces(i: nat, j: nat, ep: Endpoint, keep: Endpoint -> bool): seq<Place> {
    if ep.ready == Some(true) && keep(ep) then seq(|ep.addresses|, k requires 0 <= k < |ep.addresses| => Place(i, j, k)) else []
  }

  function SlicePlaces(i: nat, eps: seq<Endpoint>, m: nat, keep: Endpoint -> bool): seq<Place>
    requires m <= |eps|
  {
    if m == 0 then [] else SlicePlaces(i, eps, m - 1, keep) + EndpointPlaces(i, m - 1, eps[m - 1], keep)
  }

  function PlacesUpTo(slices: seq<EndpointSlice>, n: nat, pick: EndpointSlice -> bool, keep: Endpoint -> bool): seq<Place>
    requires n <= |slices|
  {
    if n == 0 then []
    else
      PlacesUpTo(slices, n - 1, pick, keep) +
      if pick(slices[n - 1]) then SlicePlaces(n - 1, slices[n - 1].endpoints, |slices[n - 1].endpoints|, keep) else []
  }

  lemma AscendingAppend(a: seq<Place>, b: seq<Place>)
    requires Ascending(a) && Ascending(b) && forall t, u :: t in a && u in b ==> t.Before(u)
    ensures Ascending(a + b)
  {
    forall m, n | 0 <= m < n < |a + b|
      ensures (a + b)[m].Before((a + b)[n])
    {
      if m < |a| <= n {
        assert a[m] in a && b[n - |a|] in b;
      }
    }
  }

  lemma EndpointPlacesAre(i: nat, j: nat, ep: Endpoint, keep: Endpoint -> bool)
    ensures Ascending(EndpointPlaces(i, j, ep, keep))
    ensures forall t :: t in EndpointPlaces(i, j, ep, keep) <==>
                        t.slice == i && t.endpoint == j && ep.ready == Some(true) && keep(ep) && t.address < |ep.addresses|
  {
    var places := EndpointPlaces(i, j, ep, keep);
    forall t: Place | t.slice == i && t.endpoint == j && ep.ready == Some(true) && keep(ep) && t.address < |ep.addresses|
      ensures t in places
    {
      assert places[t.address] == t;
    }
  }

  lemma {:induction false} SlicePlacesAre(i: nat, eps: seq<Endpoint>, m: nat, keep: Endpoint -> bool)
    requires m <= |eps|
    ensures Ascending(SlicePlaces(i, eps, m, keep))
    ensures forall t :: t in SlicePlaces(i, eps, m, keep) <==>
                        t.slice == i && t.endpoint < m && eps[t.endpoint].ready == Some(true) && keep(eps[t.endpoint])
                        && t.address < |eps[t.endpoint].addresses|
  {
    hide EndpointPlaces;
    if m > 0 {
      SlicePlacesAre(i, eps, m - 1, keep);
      EndpointPlacesAre(i, m - 1, eps[m - 1], keep);
      AscendingAppend(SlicePlaces(i, eps, m - 1, keep), EndpointPlaces(i, m - 1, eps[m - 1], keep));
      hide Ascending;
    }
  }

  lemma {:induction false} PlacesUpToAre(slices: seq<EndpointSlice>, n: nat, pick: EndpointSlice -> bool, keep: Endpoint -> bool)
    requires n <= |slices|
    ensures Ascending(PlacesUpTo(slices, n, pick, keep))
    ensures forall t :: t in PlacesUpTo(slices, n, pick, keep) <==> t.slice < n && IsPlace(slices, pick, keep, t)
  {
    hide SlicePlaces;
    if n > 0 {
      var eps := slices[n - 1].endpoints;
      PlacesUpToAre(slices, n - 1, pick, keep);
      SlicePlacesAre(n - 1, eps, |eps|, keep);
      AscendingAppend(PlacesUpTo(slices, n - 1, pick, keep), SlicePlaces(n - 1, eps, |eps|, keep));
      assert PlacesUpTo(slices, n - 1, pick, keep) + [] == PlacesUpTo(slices, n - 1, pick, keep);
      hide Ascending;
    }
  }

  // ---- the endpoints emitted ----

  function Selected(keep: Endpoint -> bool): EndpointData -> seq<EndpointData> {
    (d: EndpointData) => if keep(d.endpoint) then [d] else []
  }

  /** The endpoints of the data whose endpoint is kept. */
  function Listed(data: seq<EndpointData>, keep: Endpoint -> bool): seq<LbEndpoint> {
    LbAll(FlatMap(data, Selected(keep)))
  }

  lemma ListedAppend(a: seq<EndpointData>, b: seq<EndpointData>, keep: Endpoint -> bool)
    ensures Listed(a + b, keep) == Listed(a, keep) + Listed(b, keep)
  {
    FlatMapAppend(a, b, Selected(keep));
    LbAllAppend(FlatMap(a, Selected(keep)), FlatMap(b, Selected(keep)));
  }

  lemma ListedOne(d: EndpointData, keep: Endpoint -> bool)
    ensures Listed([d], keep) == if keep(d.endpoint) then Lb(d) else []
  {
    FlatMapOne(d, Selected(keep));
    LbAllStep([], d);
    assert [] + [d] == [d];
  }

  lemma EmitsAppend(want: PortRef, slices: seq<EndpointSlice>, p1: seq<Place>, l1: seq<LbEndpoint>, p2: seq<Place>, l2: seq<LbEndpoint>)
    requires Emits(want, slices, p1, l1) && Emits(want, slices, p2, l2)
    ensures Emits(want, slices, p1 + p2, l1 + l2)
  {
    hide EmitsAt;
  }

  lemma EndpointEmits(want: PortRef, slices: seq<EndpointSlice>, i: nat, j: nat, port: uint32, keep: Endpoint -> bool)
    requires i < |slices| && j < |slices[i].endpoints| && FirstOffer(want, slices[i].ports, port)
    ensures var ep := slices[i].endpoints[j];
            Emits(want, slices, EndpointPlaces(i, j, ep, keep),
                  if ep.ready == Some(true) && keep(ep) then Lb(EndpointData(port, ep)) else [])
  {
    hide FirstOffer;
  }

  lemma NothingListed(keep: Endpoint -> bool)
    ensures Listed([], keep) == []
  {
    assert FlatMap([], Selected(keep)) == [] && LbAll([]) == [];
  }

  lemma EmitsNothing(want: PortRef, slices: seq<EndpointSlice>)
    ensures Emits(want, slices, [], [])
  {}

  /** What the next endpoint of a slice adds. */
  lemma ListedStep(port: uint32, eps: seq<Endpoint>, m: nat, keep: Endpoint -> bool)
    requires m < |eps|
    ensures Listed(ReadyData(port, eps[..m + 1]), keep) ==
            Listed(ReadyData(port, eps[..m]), keep) +
            if eps[m].ready == Some(true) && keep(eps[m]) then Lb(EndpointData(port, eps[m])) else []
  {
    var ep := eps[m];
    var before, more := ReadyData(port, eps[..m]), if Ready(ep) then [EndpointData(port, ep)] else [];
    ReadyDataStep(port, eps, m);
    ListedAppend(before, more, keep);
    ListedOne(EndpointData(port, ep), keep);
    NothingListed(keep);
    hide Listed;
    hide Lb;
    hide ReadyData;
  }

  lemma {:induction false} SliceEmits(want: PortRef, slices: seq<EndpointSlice>, i: nat, m: nat, port: uint32, keep: Endpoint -> bool)
    requires i < |slices| && m <= |slices[i].endpoints| && FirstOffer(want, slices[i].ports, port)
    ensures Emits(want, slices, SlicePlaces(i, slices[i].endpoints, m, keep), Listed(ReadyData(port, slices[i].endpoints[..m]), keep))
  {
    hide FirstOffer;
    hide Emits;
    hide Listed;
    var eps := slices[i].endpoints;
    if m == 0 {
      assert ReadyData(port, eps[..0]) == [] && SlicePlaces(i, eps, 0, keep) == [];
      NothingListed(keep);
      EmitsNothing(want, slices);
    } else {
      var ep := eps[m - 1];
      assert SlicePlaces(i, eps, m, keep) == SlicePlaces(i, eps, m - 1, keep) + EndpointPlaces(i, m - 1, ep, keep);
      hide *;
      SliceEmits(want, slices, i, m - 1, port, keep);
      ListedStep(port, eps, m - 1, keep);
      EndpointEmits(want, slices, i, m - 1, port, keep);
      EmitsAppend(want, slices, SlicePlaces(i, eps, m - 1, keep), Listed(ReadyData(port, eps[..m - 1]), keep),
                  EndpointPlaces(i, m - 1, ep, keep),
                  if ep.ready == Some(true) && keep(ep) then Lb(EndpointData(port, ep)) else []);
    }
  }

  /** The data of the picked slices among the first `n`. */
  function DataUpTo(want: PortRef, slices: seq<EndpointSlice>, n: nat, pick: EndpointSlice -> bool): seq<EndpointData>
    requires n <= |slices|
  {
    FlatMap(Filter(slices[..n], pick), DataOf(want))
  }

  lemma DataStep(want: PortRef, slices: seq<EndpointSlice>, n: nat, pick: EndpointSlice -> bool)
    requires n < |slices|
    ensures DataUpTo(want, slices, n + 1, pick) ==
            DataUpTo(want, slices, n, pick) + if pick(slices[n]) then DataOf(want)(slices[n]) else []
  {
    var s := slices[n];
    assert slices[..n + 1] == slices[..n] + [s];
    FilterAppend(slices[..n], [s], pick);
    FilterOne(s, pick);
    FlatMapAppend(Filter(slices[..n], pick), Filter([s], pick), DataOf(want));
    FlatMapOne(s, DataOf(want));
    assert FlatMap([], DataOf(want)) == [];
    hide Filter;
    hide DataOf;
  }

  lemma PickedEmits(want: PortRef, slices: seq<EndpointSlice>, i: nat, pick: EndpointSlice -> bool, keep: Endpoint -> bool)
    requires i < |slices| && pick(slices[i]) && PortsKnown(want, Filter(slices, pick))
    ensures Emits(want, slices, SlicePlaces(i, slices[i].endpoints, |slices[i].endpoints|, keep), Listed(DataOf(want)(slices[i]), keep))
  {
    var eps := slices[i].endpoints;
    PickedPort(want, slices, i, pick);
    SliceEmits(want, slices, i, |eps|, LookupPort(want, slices[i].ports).value, keep);
    assert eps[..|eps|] == eps;
    hide Emits;
    hide Listed;
    hide LookupPort;
    hide ReadyData;
  }

  lemma {:induction false} UpToEmits(want: PortRef, slices: seq<EndpointSlice>, n: nat, pick: EndpointSlice -> bool, keep: Endpoint -> bool)
    requires n <= |slices| && PortsKnown(want, Filter(slices, pick))
    ensures Emits(want, slices, PlacesUpTo(slices, n, pick, keep), Listed(DataUpTo(want, slices, n, pick), keep))
  {
    hide Emits;
    hide Listed;
    hide PortsKnown;
    if n == 0 {
      assert slices[..0] == [] && DataUpTo(want, slices, 0, pick) == [] && PlacesUpTo(slices, 0, pick, keep) == [];
      NothingListed(keep);
      EmitsNothing(want, slices);
    } else {
      var s, i := slices[n - 1], n - 1;
      var places := SlicePlaces(i, s.endpoints, |s.endpoints|, keep);
      assert PlacesUpTo(slices, n, pick, keep) == PlacesUpTo(slices, i, pick, keep) + if pick(s) then places else [];
      hide *;
      UpToEmits(want, slices, i, pick, keep);
      DataStep(want, slices, i, pick);
      if pick(s) {
        PickedEmits(want, slices, i, pick, keep);
        ListedAppend(DataUpTo(want, slices, i, pick), DataOf(want)(s), keep);
        EmitsAppend(want, slices, PlacesUpTo(slices, i, pick, keep), Listed(DataUpTo(want, slices, i, pick), keep),
                    places, Listed(DataOf(want)(s), keep));
      } else {
        assert DataUpTo(want, slices, i, pick) + [] == DataUpTo(want, slices, i, pick);
        assert PlacesUpTo(slices, i, pick, keep) + [] == PlacesUpTo(slices, i, pick, keep);
      }
    }
  }

  lemma PickedPort(want: PortRef, slices: seq<EndpointSlice>, i: nat, pick: EndpointSlice -> bool)
    requires i < |slices| && pick(slices[i]) && PortsKnown(want, Filter(slices, pick))
    ensures LookupPort(want, slices[i].ports).Some? && FirstOffer(want, slices[i].ports, LookupPort(want, slices[i].ports).value)
  {
    hide LookupPort;
    FilterMember(slices, pick, slices[i]);
    var k :| 0 <= k < |Filter(slices, pick)| && Filter(slices, pick)[k] == slices[i];
    PortIsFirstOffer(want, slices[i].ports);
  }

  /** What is listed of all ready endpoints of the picked slices. */
  lemma ListedIsReady(want: PortRef, slices: seq<EndpointSlice>, pick: EndpointSlice -> bool, keep: Endpoint -> bool)
    requires PortsKnown(want, Filter(slices, pick))
    ensures ListsReady(want, slices, pick, keep, Listed(AllReady(want, Filter(slices, pick)), keep))
  {
    PlacesUpToAre(slices, |slices|, pick, keep);
    UpToEmits(want, slices, |slices|, pick, keep);
    assert slices[..|slices|] == slices;
    AllReadyIsFlatMap(want, Filter(slices, pick));
    hide Emits;
    hide Ascending;
    assert Lists(slices, pick, keep, PlacesUpTo(slices, |slices|, pick, keep));
  }

  /** Every picked slice offers the port exactly if the look-up never fails. */
  lemma PortsAreOffered(want: PortRef, slices: seq<EndpointSlice>, pick: EndpointSlice -> bool)
    ensures PortsKnown(want, Filter(slices, pick)) <==>
            forall i :: 0 <= i < |slices| && pick(slices[i]) ==>
              exists p :: 0 <= p < |slices[i].ports| && Offers(want, slices[i].ports[p])
  {
    hide LookupPort;
    hide Offers;
    if PortsKnown(want, Filter(slices, pick)) {
      forall i | 0 <= i < |slices| && pick(slices[i])
        ensures exists p :: 0 <= p < |slices[i].ports| && Offers(want, slices[i].ports[p])
      {
        PickedPort(want, slices, i, pick);
        PortIsFirstOffer(want, slices[i].ports);
      }
    } else {
      var k :| 0 <= k < |Filter(slices, pick)| && !LookupPort(want, Filter(slices, pick)[k].ports).Some?;
      FilterMember(slices, pick, Filter(slices, pick)[k]);
      var i :| 0 <= i < |slices| && slices[i] == Filter(slices, pick)[k];
      PortIsFirstOffer(want, slices[i].ports);
    }
  }
}
