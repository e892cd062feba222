/** What endpoint grouping promises: nothing lost, order kept, contiguous priorities, agreement with the flat form. */
module Grouping {
  import opened Common
  import opened Text
  import opened Spec
  import opened Endpoints

  /** The elements of `whole` assigned to part `k`, in order. */
  function Picked<T>(whole: seq<T>, owner: seq<nat>, k: nat): seq<T>
    requires |owner| == |whole|
  {
    if whole == [] then []
    else
      var n := |whole| - 1;
      Picked(whole[..n], owner[..n], k) + if owner[n] == k then [whole[n]] else []
  }

  /** Every element of `whole` goes to exactly one part, and each part keeps the order of `whole`. */
  predicate StablePartition<T(==)>(whole: seq<T>, parts: seq<seq<T>>, owner: seq<nat>) {
    && |owner| == |whole|
    && (forall i :: 0 <= i < |owner| ==> owner[i] < |parts|)
    && (forall k :: 0 <= k < |parts| ==> parts[k] == Picked(whole, owner, k))
  }

  function Constant(n: nat, owner: nat): (r: seq<nat>)
    ensures |r| == n && forall i :: 0 <= i < n ==> r[i] == owner
  {
    seq(n, _ => owner)
  }

  lemma {:induction false} PickedBlock<T>(a: seq<T>, owner: seq<nat>, b: seq<T>, o: nat, k: nat)
    requires |owner| == |a|
    ensures Picked(a + b, owner + Constant(|b|, o), k) == Picked(a, owner, k) + if o == k then b else []
  {
    if b == [] {
      assert a + b == a && owner + Constant(0, o) == owner;
    } else {
      var n := |b| - 1;
      PickedBlock(a, owner, b[..n], o, k);
      var whole, owners := a + b, owner + Constant(|b|, o);
      assert whole[..|whole| - 1] == a + b[..n];
      assert owners[..|whole| - 1] == owner + Constant(n, o);
      assert b == b[..n] + [b[n]];
    }
  }

  /** The group of each (address, port) pair: 1 for endpoints not hinted for the zone when splitting, else 0. */
  function Owners(data: seq<EndpointData>, zone: string, split: bool): seq<nat> {
    if data == [] then []
    else
      var d := data[|data| - 1];
      Owners(data[..|data| - 1], zone, split) +
      Constant(|d.endpoint.addresses|, if split && !Hinted(d.endpoint, zone) then 1 else 0)
  }

  lemma {:induction false} OwnersPickParts(data: seq<EndpointData>, zone: string)
    ensures |Owners(data, zone, true)| == |LbAll(data)|
    ensures forall i :: 0 <= i < |Owners(data, zone, true)| ==> Owners(data, zone, true)[i] < 2
    ensures LbAll(Part(data, zone, true)) == Picked(LbAll(data), Owners(data, zone, true), 0)
    ensures LbAll(Part(data, zone, false)) == Picked(LbAll(data), Owners(data, zone, true), 1)
  {
    if data != [] {
      var rest, d := data[..|data| - 1], data[|data| - 1];
      OwnersPickParts(rest, zone);
      hide Hinted;
      hide Lb;
      LbLength(d);
      var o := if Hinted(d.endpoint, zone) then 0 else 1;
      PickedBlock(LbAll(rest), Owners(rest, zone, true), Lb(d), o, 0);
      PickedBlock(LbAll(rest), Owners(rest, zone, true), Lb(d), o, 1);
      LbAllStep(Part(rest, zone, o == 0), d);
      assert Part(data, zone, o == 0) == Part(rest, zone, o == 0) + [d];
      assert Part(data, zone, o != 0) == Part(rest, zone, o != 0);
    }
  }

  lemma LbLength(d: EndpointData)
    ensures |Lb(d)| == |d.endpoint.addresses|
  {}

  /** With nothing to split, or nothing but hinted endpoints, group 0 is everything. */
  lemma {:induction false} UniformParts(data: seq<EndpointData>, zone: string, hinted: bool)
    requires forall i :: 0 <= i < |data| ==> Hinted(data[i].endpoint, zone) == hinted
    ensures Part(data, zone, hinted) == data && Part(data, zone, !hinted) == []
    ensures |Owners(data, zone, hinted)| == |LbAll(data)|
    ensures forall i :: 0 <= i < |LbAll(data)| ==> Owners(data, zone, hinted)[i] == 0
    ensures Picked(LbAll(data), Owners(data, zone, hinted), 0) == LbAll(data)
  {
    hide Hinted;
    hide Lb;
    if data != [] {
      var rest, d := data[..|data| - 1], data[|data| - 1];
      UniformParts(rest, zone, hinted);
      LbLength(d);
      var owners, lbs := Owners(rest, zone, hinted), LbAll(rest);
      assert data == rest + [d];
      assert Owners(data, zone, hinted) == owners + Constant(|Lb(d)|, 0);
      assert LbAll(data) == lbs + Lb(d);
      hide Owners;
      hide LbAll;
      PickedBlock(lbs, owners, Lb(d), 0, 0);
    }
  }

  predicate SomeHinted(data: seq<EndpointData>, zone: string, hinted: bool) {
    exists i :: 0 <= i < |data| && Hinted(data[i].endpoint, zone) == hinted
  }

  lemma {:induction false} PartEmptiness(data: seq<EndpointData>, zone: string, hinted: bool)
    ensures Part(data, zone, hinted) != [] <==> SomeHinted(data, zone, hinted)
  {
    if data != [] {
      var rest := data[..|data| - 1];
      PartEmptiness(rest, zone, hinted);
      if SomeHinted(rest, zone, hinted) {
        var i :| 0 <= i < |rest| && Hinted(rest[i].endpoint, zone) == hinted;
        assert data[i] == rest[i];
      }
      if SomeHinted(data, zone, hinted) {
        var i :| 0 <= i < |data| && Hinted(data[i].endpoint, zone) == hinted;
        assert i < |rest| ==> rest[i] == data[i];
      }
    }
  }

  predicate HasZone(d: EndpointData) {
    d.endpoint.zone.Some? && d.endpoint.zone.value != ""
  }

  /** A group's zone is that of its first endpoint with a non-empty zone, and empty exactly when there is none. */
  lemma {:induction false} GroupZoneIsFirst(data: seq<EndpointData>)
    ensures if GroupZone(data) == "" then forall i :: 0 <= i < |data| ==> !HasZone(data[i])
            else exists i :: 0 <= i < |data| && HasZone(data[i]) && GroupZone(data) == data[i].endpoint.zone.value
                             && forall j :: 0 <= j < i ==> !HasZone(data[j])
  {
    if data != [] {
      var rest := data[..|data| - 1];
      GroupZoneIsFirst(rest);
      assert forall i :: 0 <= i < |rest| ==> data[i] == rest[i];
      if GroupZone(rest) == "" {
        assert HasZone(data[|data| - 1]) || GroupZone(data) == "";
      } else {
        var i :| 0 <= i < |rest| && HasZone(rest[i]) && GroupZone(rest) == rest[i].endpoint.zone.value
                 && forall j :: 0 <= j < i ==> !HasZone(rest[j]);
        assert data[i] == rest[i] && HasZone(data[i]);
      }
    }
  }

  function GroupEndpoints(groups: seq<LocalityLbEndpoints>): seq<seq<LbEndpoint>> {
    Map(groups, (g: LocalityLbEndpoints) => g.endpoints)
  }

  /**
   * Grouping succeeds exactly when every slice has the wanted port. It then yields a stable partition of
   * all (address, slice port) pairs of ready endpoints; a pair is in group 1 exactly when its endpoint is
   * not hinted for the caller's zone while some ready endpoint is.
   */
  lemma {:induction false} EndpointsAreConserved(zone: string, svc: ServiceRef, slices: seq<EndpointSlice>)
    ensures ServiceEndpoints(zone, svc, slices).Ok? <==> PortsKnown(svc.port, slices)
    ensures PortsKnown(svc.port, slices) ==>
              (var all := AllReady(svc.port, slices);
               StablePartition(LbAll(all), GroupEndpoints(ServiceEndpoints(zone, svc, slices).value),
                               Owners(all, zone, SomeHinted(all, zone, true))))
  {
    if PortsKnown(svc.port, slices) {
      GroupsPartition(zone, svc, AllReady(svc.port, slices));
    }
  }

  /** The endpoint lists of the groups: those hinted for the zone, then the others, when not empty. */
  lemma GroupLists(zone: string, svc: ServiceRef, all: seq<EndpointData>)
    ensures var hinted, others := Part(all, zone, true), Part(all, zone, false);
            GroupEndpoints(Grouped(zone, svc, all)) ==
            (if hinted == [] then [] else [LbAll(hinted)]) + (if others == [] then [] else [LbAll(others)])
  {
    hide Part;
    hide LbAll;
    hide GroupZone;
    hide SubZone;
  }

  lemma OnePart<T>(whole: seq<T>, owner: seq<nat>)
    requires |owner| == |whole| && Picked(whole, owner, 0) == whole
    requires forall i :: 0 <= i < |owner| ==> owner[i] == 0
    ensures StablePartition(whole, [whole], owner)
  {
    hide Picked;
  }

  lemma TwoParts<T>(whole: seq<T>, a: seq<T>, b: seq<T>, owner: seq<nat>)
    requires |owner| == |whole| && Picked(whole, owner, 0) == a && Picked(whole, owner, 1) == b
    requires forall i :: 0 <= i < |owner| ==> owner[i] < 2
    ensures StablePartition(whole, [a, b], owner)
  {
    hide Picked;
  }

  /** All ready endpoints hinted, or none: one group with everything. */
  lemma UniformPartition(all: seq<EndpointData>, zone: string, hinted: bool)
    requires all != [] && !SomeHinted(all, zone, !hinted)
    ensures Part(all, zone, hinted) == all && Part(all, zone, !hinted) == []
    ensures SomeHinted(all, zone, hinted)
    ensures StablePartition(LbAll(all), [LbAll(all)], Owners(all, zone, hinted))
  {
    hide StablePartition;
    hide Hinted;
    forall i | 0 <= i < |all| ensures Hinted(all[i].endpoint, zone) == hinted {}
    assert Hinted(all[0].endpoint, zone) == hinted;
    UniformParts(all, zone, hinted);
    OnePart(LbAll(all), Owners(all, zone, hinted));
  }

  lemma GroupsPartition(zone: string, svc: ServiceRef, all: seq<EndpointData>)
    ensures StablePartition(LbAll(all), GroupEndpoints(Grouped(zone, svc, all)), Owners(all, zone, SomeHinted(all, zone, true)))
  {
    hide Hinted;
    hide StablePartition;
    var hinted, others := Part(all, zone, true), Part(all, zone, false);
    var parts := GroupEndpoints(Grouped(zone, svc, all));
    GroupLists(zone, svc, all);
    hide Grouped;
    hide GroupEndpoints;
    if all == [] {
      assert LbAll(all) == [] && Owners(all, zone, false) == [];
      assert parts == [];
      EmptyPartition(LbAll(all), Owners(all, zone, false));
    } else if !SomeHinted(all, zone, true) {
      UniformPartition(all, zone, false);
      assert parts == [LbAll(all)];
    } else if !SomeHinted(all, zone, false) {
      UniformPartition(all, zone, true);
      assert parts == [LbAll(all)];
    } else {
      PartEmptiness(all, zone, true);
      PartEmptiness(all, zone, false);
      OwnersPickParts(all, zone);
      hide SomeHinted;
      hide Part;
      hide Owners;
      hide LbAll;
      TwoParts(LbAll(all), LbAll(hinted), LbAll(others), Owners(all, zone, true));
      assert parts == [LbAll(hinted), LbAll(others)];
    }
  }

  lemma EmptyPartition<T>(whole: seq<T>, owner: seq<nat>)
    requires whole == [] && owner == []
    ensures StablePartition(whole, [], owner)
  {}

  /** Group `k` has priority `k`, so priorities ascend from 0 without gaps; localities differ by sub-zone. */
  lemma {:induction false} PrioritiesAreContiguous(zone: string, svc: ServiceRef, slices: seq<EndpointSlice>)
    requires PortsKnown(svc.port, slices)
    ensures var groups := ServiceEndpoints(zone, svc, slices).value;
            var all := AllReady(svc.port, slices);
            && (forall k :: 0 <= k < |groups| ==> groups[k].priority as int == k)
            && (forall j, k :: 0 <= j < k < |groups| ==> groups[j].subZone != groups[k].subZone)
            && |groups| == (if all == [] then 0
                            else if SomeHinted(all, zone, true) && SomeHinted(all, zone, false) then 2
                            else 1)
  {
    var all := AllReady(svc.port, slices);
    PartEmptiness(all, zone, true);
    PartEmptiness(all, zone, false);
    if all != [] {
      assert SomeHinted(all, zone, Hinted(all[0].endpoint, zone));
    }
    SubZonesDiffer(svc);
  }

  lemma SubZonesDiffer(svc: ServiceRef)
    ensures SubZone(svc, 0) != SubZone(svc, 1)
  {
    var a, b := SubZone(svc, 0), SubZone(svc, 1);
    assert Itoa(0) == "0" && Itoa(1) == "1";
    assert a[|a| - 1] == '0' && b[|b| - 1] == '1';
  }

  lemma {:induction false} PickedMultiset<T>(whole: seq<T>, owner: seq<nat>)
    requires |owner| == |whole|
    requires forall i :: 0 <= i < |owner| ==> owner[i] < 2
    ensures multiset(whole) == multiset(Picked(whole, owner, 0)) + multiset(Picked(whole, owner, 1))
  {
    if whole != [] {
      var n := |whole| - 1;
      var w, o := whole[..n], owner[..n];
      PickedMultiset(w, o);
      assert whole == w + [whole[n]];
      assert multiset(whole) == multiset(w) + multiset{whole[n]};
      if owner[n] == 0 {
        assert multiset(Picked(whole, owner, 0)) == multiset(Picked(w, o, 0)) + multiset{whole[n]};
        assert Picked(whole, owner, 1) == Picked(w, o, 1);
      } else {
        assert multiset(Picked(whole, owner, 1)) == multiset(Picked(w, o, 1)) + multiset{whole[n]};
        assert Picked(whole, owner, 0) == Picked(w, o, 0);
      }
    }
  }

  /**
   * The zone-aware form refines the flat one: both succeed or both fail, they carry the same endpoints as
   * multisets, and without any hint for the caller there is one group, equal to the flat sequence.
   */
  lemma {:induction false} ZoneAwareRefinesFlat(
    zone: string, svc: ServiceRef, slices: seq<EndpointSlice>, weight: uint32, priority: uint32)
    ensures ServiceEndpoints(zone, svc, slices).Ok? <==> FlatLocality(svc, slices, weight, priority).Ok?
    ensures PortsKnown(svc.port, slices) ==>
              (var groups := ServiceEndpoints(zone, svc, slices).value;
               var flat := FlatLocality(svc, slices, weight, priority).value.endpoints;
               var all := AllReady(svc.port, slices);
               && multiset(Flatten(GroupEndpoints(groups))) == multiset(flat)
               && (all != [] && !SomeHinted(all, zone, true) ==>
                     |groups| == 1 && groups[0].endpoints == flat && groups[0].priority == 0))
  {
    if PortsKnown(svc.port, slices) {
      var all := AllReady(svc.port, slices);
      PartEmptiness(all, zone, true);
      if !SomeHinted(all, zone, true) {
        UniformParts(all, zone, false);
      } else {
        OwnersPickParts(all, zone);
        PickedMultiset(LbAll(all), Owners(all, zone, true));
      }
      GroupsFlatten(zone, svc, slices);
    }
  }

  lemma GroupsFlatten(zone: string, svc: ServiceRef, slices: seq<EndpointSlice>)
    requires PortsKnown(svc.port, slices)
    ensures var all := AllReady(svc.port, slices);
            Flatten(GroupEndpoints(ServiceEndpoints(zone, svc, slices).value)) ==
            LbAll(Part(all, zone, true)) + LbAll(Part(all, zone, false))
  {
    var all := AllReady(svc.port, slices);
    var hinted, others := Part(all, zone, true), Part(all, zone, false);
    var parts := GroupEndpoints(ServiceEndpoints(zone, svc, slices).value);
    var l1 := if hinted == [] then [] else [LbAll(hinted)];
    var l2 := if others == [] then [] else [LbAll(others)];
    assert parts == l1 + l2;
    FlattenAppend(l1, l2);
    assert forall x: seq<LbEndpoint> :: Flatten([x]) == x by {
      forall x: seq<LbEndpoint> ensures Flatten([x]) == x {
        assert [x][1..] == [];
      }
    }
  }
}
