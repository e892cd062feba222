/** Go's `path.Clean` and `path.Join`, which every printed resource name goes through. */
module Paths {
  import opened Text

  /** Drops empty and `.` segments and resolves `..` against the segments kept so far. */
  function Reduce(segs: seq<string>, rooted: bool, kept: seq<string>): seq<string>
    decreases |segs|
  {
    if segs == [] then kept
    else if segs[0] == "" || segs[0] == "." then Reduce(segs[1..], rooted, kept)
    else if segs[0] != ".." then Reduce(segs[1..], rooted, kept + [segs[0]])
    else if kept != [] && kept[|kept| - 1] != ".." then Reduce(segs[1..], rooted, kept[..|kept| - 1])
    else if rooted then Reduce(segs[1..], rooted, kept)
    else Reduce(segs[1..], rooted, kept + [".."])
  }

  function Clean(p: string): string {
    if p == "" then "."
    else if p[0] == '/' then "/" + Join(Reduce(Split(p, '/'), true, []), '/')
    else
      var kept := Reduce(Split(p, '/'), false, []);
      if kept == [] then "." else Join(kept, '/')
  }

  /** The text that path.Join hands to Clean: leading empty elements leave no separator. */
  function JoinRaw(elems: seq<string>, buf: string): string
    decreases |elems|
  {
    if elems == [] then buf
    else if buf != "" then JoinRaw(elems[1..], buf + "/" + elems[0])
    else JoinRaw(elems[1..], elems[0])
  }

  function PathJoin(elems: seq<string>): string {
    if forall i :: 0 <= i < |elems| ==> elems[i] == "" then ""
    else Clean(JoinRaw(elems, ""))
  }

  /** Segments that Reduce leaves alone: no empty or `.` segment, and `..` only as an unrooted lead. */
  predicate Reduced(segs: seq<string>, rooted: bool) {
    forall i :: 0 <= i < |segs| ==>
      && segs[i] != "" && segs[i] != "."
      && (segs[i] == ".." ==> !rooted && forall j :: 0 <= j < i ==> segs[j] == "..")
  }

  lemma {:induction false} ReduceGivesReduced(segs: seq<string>, rooted: bool, kept: seq<string>)
    requires Reduced(kept, rooted)
    ensures Reduced(Reduce(segs, rooted, kept), rooted)
    decreases |segs|
  {
    if segs != [] {
      if segs[0] == "" || segs[0] == "." {
        ReduceGivesReduced(segs[1..], rooted, kept);
      } else if segs[0] != ".." {
        ReduceGivesReduced(segs[1..], rooted, kept + [segs[0]]);
      } else if kept != [] && kept[|kept| - 1] != ".." {
        ReduceGivesReduced(segs[1..], rooted, kept[..|kept| - 1]);
      } else if rooted {
        ReduceGivesReduced(segs[1..], rooted, kept);
      } else {
        ReduceGivesReduced(segs[1..], rooted, kept + [".."]);
      }
    }
  }

  lemma {:induction false} ReduceKeepsReduced(segs: seq<string>, rooted: bool, kept: seq<string>)
    requires Reduced(kept + segs, rooted)
    ensures Reduce(segs, rooted, kept) == kept + segs
    decreases |segs|
  {
    if segs == [] {
      assert kept + segs == kept;
    } else {
      var more := kept + [segs[0]];
      assert (kept + segs)[|kept|] == segs[0];
      assert more + segs[1..] == kept + segs;
      ReduceKeepsReduced(segs[1..], rooted, more);
      if segs[0] == ".." && kept != [] {
        assert (kept + segs)[|kept| - 1] == kept[|kept| - 1];
      }
    }
  }

  lemma {:induction false} ReduceKeepsSlashFree(segs: seq<string>, rooted: bool, kept: seq<string>)
    requires forall i :: 0 <= i < |segs| ==> '/' !in segs[i]
    requires forall i :: 0 <= i < |kept| ==> '/' !in kept[i]
    ensures forall i :: 0 <= i < |Reduce(segs, rooted, kept)| ==> '/' !in Reduce(segs, rooted, kept)[i]
    decreases |segs|
  {
    if segs != [] {
      ReduceKeepsSlashFree(segs[1..], rooted, kept);
      ReduceKeepsSlashFree(segs[1..], rooted, kept + [segs[0]]);
      if kept != [] {
        ReduceKeepsSlashFree(segs[1..], rooted, kept[..|kept| - 1]);
      }
    }
  }

  /** The paths that Clean returns unchanged, read off the text. */
  predicate IsClean(p: string) {
    p == "." || p == "/" ||
    (p != "" && if p[0] == '/' then Reduced(Split(p[1..], '/'), true) else Reduced(Split(p, '/'), false))
  }

  lemma CleanOfDotAndRoot()
    ensures Clean(".") == "." && Clean("/") == "/"
  {
    SplitPrefix(".", "", '/');
    assert ["."][1..] == [];
    assert Reduce(["."], false, []) == [];
    assert "/"[1..] == "";
    assert Split("/", '/') == ["", ""];
    assert ["", ""][1..] == [""] && [""][1..] == [];
    assert Reduce(["", ""], true, []) == Reduce([""], true, []) == [];
  }

  lemma {:induction false} CleanOfClean(p: string)
    requires IsClean(p)
    ensures Clean(p) == p
  {
    if p == "." || p == "/" {
      CleanOfDotAndRoot();
    } else if p[0] == '/' {
      var segs := Split(p[1..], '/');
      ReduceKeepsReduced(segs, true, []);
      assert [] + segs == segs;
      assert Split(p, '/')[1..] == segs;
      JoinOfSplit(p[1..], '/');
    } else {
      ReduceKeepsReduced(Split(p, '/'), false, []);
      assert [] + Split(p, '/') == Split(p, '/');
      JoinOfSplit(p, '/');
    }
  }

  lemma {:induction false} CleanGivesClean(p: string)
    ensures IsClean(Clean(p))
  {
    if p != "" {
      var rooted := p[0] == '/';
      var kept := Reduce(Split(p, '/'), rooted, []);
      JoinOfSplit(p, '/');
      ReduceGivesReduced(Split(p, '/'), rooted, []);
      ReduceKeepsSlashFree(Split(p, '/'), rooted, []);
      if kept != [] {
        SplitOfJoin(kept, '/');
        assert Clean(p)[if rooted then 1 else 0..] == Join(kept, '/');
        assert Join(kept, '/')[0] == kept[0][0];
      }
    }
  }

  /** Clean is a projection onto exactly the syntactically clean paths. */
  lemma CleanFixesExactlyCleanPaths(p: string)
    ensures Clean(p) == p <==> IsClean(p)
    ensures Clean(Clean(p)) == Clean(p)
  {
    CleanGivesClean(p);
    CleanOfClean(Clean(p));
    if IsClean(p) {
      CleanOfClean(p);
    }
  }

  lemma {:induction false} JoinRawIsJoin(elems: seq<string>, buf: string)
    requires buf != ""
    ensures JoinRaw(elems, buf) == Join([buf] + elems, '/')
    decreases |elems|
  {
    var all := [buf] + elems;
    if elems == [] {
      assert all == [buf];
    } else {
      var next := buf + "/" + elems[0];
      JoinRawIsJoin(elems[1..], next);
      assert all[1..] == elems;
      var rest := [next] + elems[1..];
      assert rest[1..] == elems[1..];
      if |elems| == 1 {
        assert Join(elems, '/') == elems[0];
      } else {
        assert Join(rest, '/') == next + "/" + Join(elems[1..], '/');
        assert Join(elems, '/') == elems[0] + "/" + Join(elems[1..], '/');
      }
    }
  }

  /** path.Join only puts slashes between segments that are already in reduced form. */
  lemma {:induction false} PathJoinOfReduced(segs: seq<string>)
    requires |segs| >= 1 && Reduced(segs, false)
    requires forall i :: 0 <= i < |segs| ==> '/' !in segs[i]
    ensures PathJoin(segs) == Join(segs, '/')
    ensures Split(PathJoin(segs), '/') == segs
  {
    SplitOfJoin(segs, '/');
    JoinRawIsJoin(segs[1..], segs[0]);
    assert [segs[0]] + segs[1..] == segs;
    var raw := Join(segs, '/');
    assert JoinRaw(segs, "") == raw;
    assert raw[0] == segs[0][0] != '/';
    CleanOfClean(raw);
  }
}
