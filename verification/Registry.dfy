/**
 * The subscription registry: which watchers are subscribed to which reference.
 * `Registry` is the value; the classes below are the objects of the control plane, whose lock sections
 * each carry out one operation on that value.
 */
module Registry {
  import opened Common
  import opened Resolver

  /** `O` identifies resourceWatchers objects and `W` watchers. Each lock section is one operation. */
  datatype Registry<W(==), O(==)> = Registry(entries: map<Ref, O>, members: map<O, set<W>>)
  {
    /** Entries point to distinct, known objects. */
    ghost predicate Valid() {
      && (forall r :: r in entries ==> entries[r] in members)
      && (forall r1, r2 :: r1 in entries && r2 in entries && entries[r1] == entries[r2] ==> r1 == r2)
    }

    predicate Subscribed(ref: Ref, w: W)
      requires ref in entries ==> entries[ref] in members
    {
      ref in entries && w in members[entries[ref]]
    }

    /** Second half of getOrCreateResourceWatchers, under the write lock. */
    function GetOrCreate(ref: Ref, unused: O): (Registry<W, O>, O)
    {
      if ref in entries then (this, entries[ref])
      else (Registry(entries[ref := unused], members[unused := {}]), unused)
    }

    function Add(o: O, w: W): Registry<W, O>
      requires o in members
    {
      this.(members := members[o := members[o] + {w}])
    }

    function Remove(o: O, w: W): Registry<W, O>
      requires o in members
    {
      this.(members := members[o := members[o] - {w}])
    }

    /** Leaving several objects, one after the other. */
    function RemoveAll(objects: set<O>, w: W): Registry<W, O>
    {
      this.(members := map o | o in members :: if o in objects then members[o] - {w} else members[o])
    }

    lemma RemoveAllStep(objects: set<O>, o: O, w: W)
      requires o in members
      ensures RemoveAll({}, w) == this
      ensures RemoveAll(objects, w).Remove(o, w) == RemoveAll(objects + {o}, w)
    {
      assert RemoveAll({}, w).members == members;
      var one, all := RemoveAll(objects, w).Remove(o, w).members, RemoveAll(objects + {o}, w).members;
      assert one.Keys == all.Keys;
      assert forall x :: x in all ==> one[x] == all[x];
      assert one == all;
    }

    /** An entry, once made, is never replaced or removed, and creating one disturbs no subscription. */
    lemma GetOrCreateEffect(ref: Ref, unused: O)
      requires Valid() && unused !in members
      ensures var (after, o) := GetOrCreate(ref, unused);
              && after.Valid()
              && ref in after.entries && after.entries[ref] == o
              && (forall r :: r in entries ==> r in after.entries && after.entries[r] == entries[r])
              && (forall r :: r in after.entries ==> r in entries || r == ref)
              && members.Keys <= after.members.Keys
              && (forall r, w :: after.Subscribed(r, w) <==> Subscribed(r, w))
    {}

    /** Every object ever made is the entry of some reference. */
    ghost predicate NoStrayObject() {
      members.Keys <= entries.Values
    }

    lemma NoStrayObjectIsKept(ref: Ref, unused: O, w: W)
      requires Valid() && NoStrayObject() && unused !in members
      ensures GetOrCreate(ref, unused).0.NoStrayObject()
      ensures ref in entries ==> Add(entries[ref], w).NoStrayObject() && Remove(entries[ref], w).NoStrayObject()
    {
      if ref !in entries {
        var after := GetOrCreate(ref, unused).0;
        forall o | o in after.members
          ensures o in after.entries.Values
        {
          if o in members {
            var r :| r in entries && entries[r] == o;
            assert after.entries[r] == o;
          } else {
            assert after.entries[ref] == o;
          }
        }
      }
    }

    lemma AddEffect(ref: Ref, w: W)
      requires Valid() && ref in entries
      ensures var after := Add(entries[ref], w);
              && after.Valid() && after.entries == entries && after.members.Keys == members.Keys
              && forall r, x :: after.Subscribed(r, x) <==> Subscribed(r, x) || (r == ref && x == w)
    {}

    lemma RemoveEffect(ref: Ref, w: W)
      requires Valid() && ref in entries
      ensures var after := Remove(entries[ref], w);
              && after.Valid() && after.entries == entries && after.members.Keys == members.Keys
              && forall r, x :: after.Subscribed(r, x) <==> Subscribed(r, x) && !(r == ref && x == w)
    {}
  }

  // ---- the objects ----

  class Watcher {
    var watchedResources: set<Ref>
    var doneClosed: bool

    constructor ()
      ensures watchedResources == {} && !doneClosed
    {
      watchedResources := {};
      doneClosed := false;
    }
  }

  class ResourceWatchers {
    var watchers: set<Watcher>

    constructor ()
      ensures watchers == {}
    {
      watchers := {};
    }

    /** One delivery goroutine per member: the loop visits each member exactly once. */
    method NotifyChanged(ref: Ref) returns (spawned: multiset<(Watcher, Ref)>)
      ensures spawned == multiset(set w | w in watchers :: (w, ref))
    {
      spawned := multiset{};
      var rest := watchers;
      while rest != {}
        invariant rest <= watchers
        invariant spawned == multiset(set w | w in watchers - rest :: (w, ref))
        decreases rest
      {
        var w :| w in rest;
        spawned := spawned + multiset{(w, ref)};
        assert (set x | x in watchers - (rest - {w}) :: (x, ref)) == (set x | x in watchers - rest :: (x, ref)) + {(w, ref)};
        rest := rest - {w};
      }
      assert watchers - {} == watchers;
    }

    method Watch(w: Watcher)
      modifies this
      ensures watchers == old(watchers) + {w}
    {
      var ok := w in watchers;
      if ok {
        return;
      }
      watchers := watchers + {w};
    }

    method StopWatch(w: Watcher)
      modifies this
      ensures watchers == old(watchers) - {w}
    {
      var ok := w in watchers;
      if !ok {
        return;
      }
      watchers := watchers - {w};
    }
  }

  class Watches {
    var watchers: map<Ref, ResourceWatchers>

    constructor ()
      ensures Valid() && watchers == map[]
    {
      watchers := map[];
    }

    /** No two references share an object. */
    ghost predicate Valid()
      reads this
    {
      forall r1, r2 :: r1 in watchers && r2 in watchers && watchers[r1] == watchers[r2] ==> r1 == r2
    }

    ghost function Value(): Registry<Watcher, ResourceWatchers>
      reads this, watchers.Values
    {
      Registry.Registry(watchers, map o | o in watchers.Values :: o.watchers)
    }

    /** The watchers a notification of `ref` reaches. */
    ghost function Members(ref: Ref): set<Watcher>
      reads this, watchers.Values
    {
      if ref in watchers then watchers[ref].watchers else {}
    }

    method GetResourceWatchers(ref: Ref) returns (rw: Option<ResourceWatchers>)
      ensures rw == if ref in watchers then Some(watchers[ref]) else None
    {
      if ref in watchers {
        return Some(watchers[ref]);
      }
      return None;
    }

    /** Double-checked creation; the entry of a reference never changes once it exists. */
    method GetOrCreateResourceWatchers(ref: Ref) returns (rw: ResourceWatchers)
      requires Valid()
      modifies this
      ensures Valid() && ref in watchers && watchers[ref] == rw
      ensures ref in old(watchers) ==> watchers == old(watchers)
      ensures ref !in old(watchers) ==> watchers == old(watchers)[ref := rw] && fresh(rw) && rw.watchers == {}
      ensures Value() == old(Value()).GetOrCreate(ref, rw).0
    {
      var found := GetResourceWatchers(ref);
      if found.Some? {
        return found.value;
      }
      rw := CreateResourceWatchers(ref);
    }

    /** The write-locked half, which looks again: another caller may have created the entry meanwhile. */
    method CreateResourceWatchers(ref: Ref) returns (rw: ResourceWatchers)
      requires Valid()
      modifies this
      ensures Valid() && ref in watchers && watchers[ref] == rw
      ensures ref in old(watchers) ==> watchers == old(watchers)
      ensures ref !in old(watchers) ==> watchers == old(watchers)[ref := rw] && fresh(rw) && rw.watchers == {}
      ensures Value() == old(Value()).GetOrCreate(ref, rw).0
    {
      if ref in watchers {
        return watchers[ref];
      }
      rw := new ResourceWatchers();
      watchers := watchers[ref := rw];
      assert watchers.Values == old(watchers).Values + {rw} by {
        assert forall r :: r in old(watchers) ==> watchers[r] == old(watchers)[r];
        assert watchers[ref] == rw;
      }
      assert Value().members == old(Value()).members[rw := {}];
    }

    /** watcher.watch. */
    method Watch(w: Watcher, ref: Ref)
      requires Valid() && w.watchedResources == set r | r in watchers && w in watchers[r].watchers
      modifies this, watchers.Values, w
      ensures Valid()
      ensures ref in watchers
      ensures ref in old(watchers) ==> watchers[ref] == old(watchers[ref]) && watchers[ref] in old(Value()).members
      ensures Value() == old(Value()).GetOrCreate(ref, watchers[ref]).0.Add(watchers[ref], w)
      ensures Members(ref) == old(Members(ref)) + {w}
      ensures forall r :: r != ref ==> Members(r) == old(Members(r))
      ensures forall r :: r in old(watchers) ==> r in watchers && watchers[r] == old(watchers)[r]
      ensures w.watchedResources == old(w.watchedResources) + {ref}
      ensures w.watchedResources == set r | r in watchers && w in Members(r)
      ensures fresh(watchers.Values - old(watchers.Values))
    {
      Subscribe(w, ref);
      w.watchedResources := w.watchedResources + {ref};
    }

    /** The first half of watcher.watch: get or create the entry, then join it. */
    method Subscribe(w: Watcher, ref: Ref)
      requires Valid()
      modifies this, watchers.Values
      ensures Valid()
      ensures ref in watchers
      ensures ref in old(watchers) ==> watchers[ref] == old(watchers[ref]) && watchers[ref] in old(Value()).members
      ensures Value() == old(Value()).GetOrCreate(ref, watchers[ref]).0.Add(watchers[ref], w)
      ensures Members(ref) == old(Members(ref)) + {w}
      ensures forall r :: r != ref ==> Members(r) == old(Members(r))
      ensures forall r :: r in old(watchers) ==> r in watchers && watchers[r] == old(watchers)[r]
      ensures fresh(watchers.Values - old(watchers.Values))
    {
      var rw := GetOrCreateResourceWatchers(ref);
      assert forall r :: r in watchers && r != ref ==> r in old(watchers) && watchers[r] == old(watchers)[r] != rw;
      assert rw.watchers == old(Members(ref));
      Join(ref, rw, w);
    }

    /** The write lock section of resourceWatchers.watch, on the registry. */
    method Join(ref: Ref, rw: ResourceWatchers, w: Watcher)
      requires Valid() && ref in watchers && watchers[ref] == rw
      modifies rw
      ensures rw.watchers == old(rw.watchers) + {w}
      ensures Value() == old(Value()).Add(rw, w)
    {
      rw.Watch(w);
      assert rw in watchers.Values;
    }

    /** The write lock section of resourceWatchers.stopWatch, on the registry. */
    method Leave(ref: Ref, rw: ResourceWatchers, w: Watcher)
      requires Valid() && ref in watchers && watchers[ref] == rw
      modifies rw
      ensures rw.watchers == old(rw.watchers) - {w}
      ensures Value() == old(Value()).Remove(rw, w)
    {
      rw.StopWatch(w);
      assert rw in watchers.Values;
    }

    /** The objects under these references. */
    ghost function Objects(refs: set<Ref>): set<ResourceWatchers>
      reads this
    {
      set r | r in refs && r in watchers :: watchers[r]
    }

    /** One pass of the loop of stopAllWatches. */
    method StopOne(w: Watcher, ref: Ref, ghost start: Registry<Watcher, ResourceWatchers>, ghost left: set<Ref>)
      requires Valid() && start.members.Keys == watchers.Values && Value() == start.RemoveAll(Objects(left), w)
      modifies watchers.Values
      ensures Value() == start.RemoveAll(Objects(left + {ref}), w)
    {
      var rw := GetResourceWatchers(ref);
      if rw.None? {
        assert Objects(left + {ref}) == Objects(left);
        return;
      }
      Leave(ref, rw.value, w);
      assert Objects(left + {ref}) == Objects(left) + {rw.value};
      start.RemoveAllStep(Objects(left), rw.value, w);
    }

    twostate lemma LeftEverywhere(w: Watcher)
      requires watchers == old(watchers) && w.watchedResources == old(w.watchedResources)
      requires old(w.watchedResources) == set r | r in old(watchers) && w in old(watchers[r].watchers)
      requires Value() == old(Value()).RemoveAll(Objects(w.watchedResources), w)
      ensures forall r :: Members(r) == old(Members(r)) - {w}
    {
      forall r | r in watchers
        ensures watchers[r].watchers == old(watchers[r].watchers) - {w}
      {
        assert watchers[r] in watchers.Values;
        assert Value().members[watchers[r]] == watchers[r].watchers;
        assert old(Value()).members[watchers[r]] == old(watchers[r].watchers);
        if r in w.watchedResources {
          assert watchers[r] in Objects(w.watchedResources);
        }
      }
    }

    /** stopAllWatches: leaves the watcher in no set and every other subscription alone. */
    method StopAllWatches(w: Watcher)
      requires Valid() && w.watchedResources == set r | r in watchers && w in watchers[r].watchers
      modifies watchers.Values
      ensures Value() == old(Value()).RemoveAll(Objects(w.watchedResources), w)
      ensures forall r :: Members(r) == old(Members(r)) - {w}
    {
      ghost var start := Value();
      var rest := w.watchedResources;
      assert start.RemoveAll(Objects(w.watchedResources - rest), w) == start;
      while rest != {}
        invariant rest <= w.watchedResources
        invariant Value() == start.RemoveAll(Objects(w.watchedResources - rest), w)
        decreases rest
      {
        var ref :| ref in rest;
        StopOne(w, ref, start, w.watchedResources - rest);
        assert w.watchedResources - (rest - {ref}) == w.watchedResources - rest + {ref};
        rest := rest - {ref};
      }
      assert w.watchedResources - {} == w.watchedResources;
      LeftEverywhere(w);
    }

    method NotifyChanged(ref: Ref) returns (spawned: multiset<(Watcher, Ref)>)
      ensures spawned == multiset(set w | w in Members(ref) :: (w, ref))
    {
      var rw := GetResourceWatchers(ref);
      if rw.None? {
        return multiset{};
      }
      spawned := rw.value.NotifyChanged(ref);
    }

    /** The release function built by buildWatch. */
    method Release(w: Watcher)
      requires Valid() && w.watchedResources == set r | r in watchers && w in watchers[r].watchers
      requires !w.doneClosed
      modifies watchers.Values, w`doneClosed
      ensures w.doneClosed
      ensures Value() == old(Value()).RemoveAll(Objects(w.watchedResources), w)
      ensures forall r :: w !in Members(r) && Members(r) == old(Members(r)) - {w}
    {
      StopAllWatches(w);
      w.doneClosed := true;
    }
  }
}
