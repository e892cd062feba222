/** Small value types and sequence helpers shared by the other modules. */
module Common {

  datatype Option<+T> = None | Some(value: T)

  /** The outcome of a Go function that returns a value and an error. */
  datatype Result<+T> = Ok(value: T) | Err

  const UINT32_MODULUS: int := 0x1_0000_0000

  newtype uint32 = x: int | 0 <= x < UINT32_MODULUS

  /** The elements of `s` that satisfy `keep`, in order. */
  function Filter<T>(s: seq<T>, keep: T -> bool): seq<T> {
    if s == [] then []
    else (if keep(s[0]) then [s[0]] else []) + Filter(s[1..], keep)
  }

  lemma {:induction false} FilterAppend<T>(a: seq<T>, b: seq<T>, keep: T -> bool)
    ensures Filter(a + b, keep) == Filter(a, keep) + Filter(b, keep)
  {
    if a == [] {
      assert a + b == b;
    } else {
      var head := if keep(a[0]) then [a[0]] else [];
      assert (a + b)[0] == a[0] && (a + b)[1..] == a[1..] + b;
      FilterAppend(a[1..], b, keep);
      assert head + (Filter(a[1..], keep) + Filter(b, keep)) == (head + Filter(a[1..], keep)) + Filter(b, keep);
    }
  }

  /** Filtering twice, when the second filter is implied by the first. */
  lemma {:induction false} FilterFilter<T>(s: seq<T>, outer: T -> bool, inner: T -> bool)
    requires forall x :: x in s && inner(x) ==> outer(x)
    ensures Filter(Filter(s, outer), inner) == Filter(s, inner)
  {
    if s != [] {
      FilterFilter(s[1..], outer, inner);
      FilterAppend(if outer(s[0]) then [s[0]] else [], Filter(s[1..], outer), inner);
    }
  }

  /** An outer filter leaves no more of what an inner one keeps, and less if it drops some of that. */
  lemma {:induction false} FilterShorter<T>(s: seq<T>, outer: T -> bool, inner: T -> bool)
    ensures |Filter(Filter(s, outer), inner)| <= |Filter(s, inner)|
    ensures (exists x :: x in s && inner(x) && !outer(x)) ==> |Filter(Filter(s, outer), inner)| < |Filter(s, inner)|
  {
    if s != [] {
      FilterShorter(s[1..], outer, inner);
      var head := if outer(s[0]) then [s[0]] else [];
      FilterAppend(head, Filter(s[1..], outer), inner);
      assert [s[0]][1..] == [];
      if x :| x in s && inner(x) && !outer(x) {
        assert x == s[0] || x in s[1..];
      }
    }
  }

  lemma FilterOne<T>(x: T, keep: T -> bool)
    ensures Filter([x], keep) == if keep(x) then [x] else []
  {
    assert [x][1..] == [];
  }

  lemma {:induction false} FilterMember<T>(s: seq<T>, keep: T -> bool, x: T)
    ensures x in Filter(s, keep) <==> x in s && keep(x)
  {
    if s != [] {
      FilterMember(s[1..], keep, x);
      assert s == [s[0]] + s[1..];
    }
  }

  /** Concatenation of a sequence of sequences. */
  function Flatten<T>(parts: seq<seq<T>>): seq<T> {
    if parts == [] then [] else parts[0] + Flatten(parts[1..])
  }

  lemma {:induction false} FlattenAppend<T>(a: seq<seq<T>>, b: seq<seq<T>>)
    ensures Flatten(a + b) == Flatten(a) + Flatten(b)
  {
    if a == [] {
      assert a + b == b;
    } else {
      assert (a + b)[1..] == a[1..] + b;
      FlattenAppend(a[1..], b);
    }
  }

  /** The images of the elements, one after the other. */
  function FlatMap<T, U>(s: seq<T>, f: T -> seq<U>): seq<U> {
    if s == [] then [] else f(s[0]) + FlatMap(s[1..], f)
  }

  lemma {:induction false} FlatMapAppend<T, U>(a: seq<T>, b: seq<T>, f: T -> seq<U>)
    ensures FlatMap(a + b, f) == FlatMap(a, f) + FlatMap(b, f)
  {
    if a == [] {
      assert a + b == b;
    } else {
      assert (a + b)[0] == a[0] && (a + b)[1..] == a[1..] + b;
      FlatMapAppend(a[1..], b, f);
      assert f(a[0]) + (FlatMap(a[1..], f) + FlatMap(b, f)) == (f(a[0]) + FlatMap(a[1..], f)) + FlatMap(b, f);
    }
  }

  lemma FlatMapOne<T, U>(x: T, f: T -> seq<U>)
    ensures FlatMap([x], f) == f(x)
  {
    assert [x][1..] == [];
  }

  lemma FlatMapInsert<T, U>(left: seq<T>, x: T, right: seq<T>, f: T -> seq<U>)
    ensures multiset(FlatMap(left + [x] + right, f)) == multiset(f(x)) + multiset(FlatMap(left + right, f))
  {
    FlatMapAppend(left, right, f);
    FlatMapAppend(left + [x], right, f);
    FlatMapAppend(left, [x], f);
    FlatMapOne(x, f);
    hide FlatMap;
  }

  lemma SameRest<T>(x: T, a: seq<T>, left: seq<T>, right: seq<T>)
    requires multiset([x] + a) == multiset(left + [x] + right)
    ensures multiset(a) == multiset(left + right)
  {
    assert multiset([x] + a) - multiset{x} == multiset(a);
    assert multiset(left + [x] + right) == multiset(left) + multiset{x} + multiset(right);
    assert multiset(left + [x] + right) - multiset{x} == multiset(left) + multiset(right);
  }

  lemma SplitAt<T>(s: seq<T>, x: T) returns (left: seq<T>, right: seq<T>)
    requires x in s
    ensures s == left + [x] + right
  {
    var j :| 0 <= j < |s| && s[j] == x;
    left, right := s[..j], s[j + 1..];
  }

  /** Reordering the elements reorders the images. */
  lemma {:induction false} FlatMapPermutes<T, U>(a: seq<T>, b: seq<T>, f: T -> seq<U>)
    requires multiset(a) == multiset(b)
    ensures multiset(FlatMap(a, f)) == multiset(FlatMap(b, f))
  {
    if a == [] {
      SameElements(a, b);
      assert b == [];
    } else {
      SameElements(a, b);
      var x, rest := a[0], a[1..];
      var left, right := SplitAt(b, x);
      assert a == [x] + rest;
      SameRest(x, rest, left, right);
      FlatMapInsert(left, x, right, f);
      assert FlatMap(a, f) == f(x) + FlatMap(rest, f);
      hide FlatMap;
      FlatMapPermutes(rest, left + right, f);
    }
  }

  lemma SameElements<T>(a: seq<T>, b: seq<T>)
    requires multiset(a) == multiset(b)
    ensures |a| == |b| && forall x :: x in a ==> x in b
  {
    assert |multiset(a)| == |a| && |multiset(b)| == |b|;
    forall x | x in a ensures x in b {
      assert x in multiset(a);
      assert x in multiset(b);
    }
  }

  /**
   * What an outer filter drops of what an inner one keeps: the images get no longer, and they stay as long, and
   * then the same, exactly when everything dropped has an empty image.
   */
  lemma {:induction false} FlatMapFiltered<T, U>(s: seq<T>, outer: T -> bool, inner: T -> bool, f: T -> seq<U>)
    ensures var fewer, all := FlatMap(Filter(Filter(s, outer), inner), f), FlatMap(Filter(s, inner), f);
            && |fewer| <= |all|
            && (fewer == all <==> |fewer| == |all|)
            && (fewer == all <==> forall x :: x in s && inner(x) && !outer(x) ==> f(x) == [])
  {
    if s != [] {
      var x, rest := s[0], s[1..];
      FlatMapFiltered(rest, outer, inner, f);
      FilterAppend(if outer(x) then [x] else [], Filter(rest, outer), inner);
      FilterOne(x, inner);
      var head := if inner(x) then [x] else [];
      var kept := if outer(x) then head else [];
      assert Filter([], inner) == [];
      FlatMapAppend(head, Filter(rest, inner), f);
      FlatMapAppend(kept, Filter(Filter(rest, outer), inner), f);
      FlatMapOne(x, f);
      DroppedFirst(s, outer, inner, f);
      var fewer, all := FlatMap(Filter(Filter(rest, outer), inner), f), FlatMap(Filter(rest, inner), f);
      hide Filter;
      assert FlatMap(head, f) + all == FlatMap(head, f) + fewer <==> all == fewer by {
        if FlatMap(head, f) + all == FlatMap(head, f) + fewer {
          assert (FlatMap(head, f) + all)[|FlatMap(head, f)|..] == all;
          assert (FlatMap(head, f) + fewer)[|FlatMap(head, f)|..] == fewer;
        }
      }
    }
  }

  lemma DroppedFirst<T, U>(s: seq<T>, outer: T -> bool, inner: T -> bool, f: T -> seq<U>)
    requires s != []
    ensures (forall x :: x in s && inner(x) && !outer(x) ==> f(x) == []) <==>
            (inner(s[0]) && !outer(s[0]) ==> f(s[0]) == []) && forall x :: x in s[1..] && inner(x) && !outer(x) ==> f(x) == []
  {
    assert forall x :: x in s <==> x == s[0] || x in s[1..];
  }

  /** The elements of `m` that satisfy `keep`, as often as `m` has them. */
  ghost function Only<T>(m: multiset<T>, keep: T -> bool): multiset<T>
    decreases |m|
  {
    if m == multiset{} then multiset{}
    else
      var x :| x in m;
      (if keep(x) then multiset{x} else multiset{}) + Only(m - multiset{x}, keep)
  }

  lemma OneFewer<T>(m: multiset<T>, x: T, y: T)
    requires x in m
    ensures (m - multiset{x})[y] == if y == x then m[y] - 1 else m[y]
  {}

  lemma {:induction false} OnlyCount<T>(m: multiset<T>, keep: T -> bool, y: T)
    ensures Only(m, keep)[y] == if keep(y) then m[y] else 0
    decreases |m|
  {
    if m != multiset{} {
      var x :| x in m && Only(m, keep) == (if keep(x) then multiset{x} else multiset{}) + Only(m - multiset{x}, keep);
      var rest := m - multiset{x};
      OnlyCount(rest, keep, y);
      OneFewer(m, x, y);
      assert Only(m, keep)[y] == (if keep(x) && y == x then 1 else 0) + Only(rest, keep)[y];
    }
  }

  /** Having no more of anything kept means keeping no more in total, and fewer if fewer of something. */
  lemma OnlyTotal<T(!new)>(a: multiset<T>, b: multiset<T>, keep: T -> bool)
    requires forall x :: keep(x) ==> a[x] <= b[x]
    ensures |Only(a, keep)| <= |Only(b, keep)|
    ensures (exists x :: keep(x) && a[x] < b[x]) ==> |Only(a, keep)| < |Only(b, keep)|
  {
    var ka, kb := Only(a, keep), Only(b, keep);
    forall x ensures ka[x] <= kb[x] {
      OnlyCount(a, keep, x);
      OnlyCount(b, keep, x);
    }
    assert kb == ka + (kb - ka);
    if exists x :: keep(x) && a[x] < b[x] {
      var x :| keep(x) && a[x] < b[x];
      OnlyCount(a, keep, x);
      OnlyCount(b, keep, x);
      assert x in kb - ka;
    }
  }

  function Map<T, U>(s: seq<T>, f: T -> U): (r: seq<U>)
    ensures |r| == |s|
    ensures forall i :: 0 <= i < |s| ==> r[i] == f(s[i])
  {
    seq(|s|, i requires 0 <= i < |s| => f(s[i]))
  }
}
