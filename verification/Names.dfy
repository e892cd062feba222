/** Resource names: how listeners and backends are printed and parsed. */
module Names {
  import opened Common
  import opened Text
  import opened Paths

  // ---- backends: namespace/name/route/<route id>/backend/<backend id> ----

  datatype ParsedBackendName = ParsedBackendName(
    namespace: string, listenerName: string, routeId: int, backendId: int)
  {
    function Print(): string { BackendName(namespace, listenerName, routeId, backendId) }
  }

  function BackendSegments(namespace: string, name: string, routeId: int, backendId: int): seq<string> {
    [namespace, name, "route", Itoa(routeId), "backend", Itoa(backendId)]
  }

  function BackendName(namespace: string, name: string, routeId: int, backendId: int): string {
    PathJoin(BackendSegments(namespace, name, routeId, backendId))
  }

  /** The fixed words are not looked at: only the number of segments and the two ids are. */
  function ParseBackendName(s: string): Result<ParsedBackendName> {
    var sp := Split(s, '/');
    if |sp| != 6 then Err
    else
      match (Atoi(sp[3]), Atoi(sp[5]))
      case (Some(r), Some(b)) => Ok(ParsedBackendName(sp[0], sp[1], r, b))
      case _ => Err
  }

  predicate Segment(s: string) { s != "" && s != "." && '/' !in s }

  /** The namespace and name pairs whose printed backend names parse back to them. */
  predicate RoundTrips(namespace: string, name: string) {
    Segment(namespace) && Segment(name) && (name == ".." ==> namespace == "..")
  }

  lemma {:induction false} BackendNameIsJoin(namespace: string, name: string, r: int, b: int)
    requires RoundTrips(namespace, name) && IsInt(r) && IsInt(b)
    ensures BackendName(namespace, name, r, b) == Join(BackendSegments(namespace, name, r, b), '/')
    ensures Split(BackendName(namespace, name, r, b), '/') == BackendSegments(namespace, name, r, b)
  {
    ItoaIsSegment(r);
    ItoaIsSegment(b);
    WordsAreSegments();
    SegmentsAreReduced(namespace, name, "route", Itoa(r), "backend", Itoa(b));
    PathJoinOfReduced(BackendSegments(namespace, name, r, b));
  }

  predicate PlainSegment(s: string) { Segment(s) && s != ".." }

  lemma WordsAreSegments()
    ensures PlainSegment("route") && PlainSegment("backend")
  {
    assert "route"[0] == 'r' && "backend"[0] == 'b';
  }

  lemma ItoaIsSegment(n: int)
    requires IsInt(n)
    ensures PlainSegment(Itoa(n))
  {
    AtoiOfItoa(n);
    assert ".."[0] == '.';
    assert "."[0] == '.';
  }

  lemma SegmentsAreReduced(s0: string, s1: string, s2: string, s3: string, s4: string, s5: string)
    requires RoundTrips(s0, s1)
    requires PlainSegment(s2) && PlainSegment(s3) && PlainSegment(s4) && PlainSegment(s5)
    ensures Reduced([s0, s1, s2, s3, s4, s5], false)
    ensures forall i :: 0 <= i < 6 ==> '/' !in [s0, s1, s2, s3, s4, s5][i]
  {}

  lemma {:induction false} ReduceBound(segs: seq<string>, rooted: bool, kept: seq<string>)
    ensures |Reduce(segs, rooted, kept)| <= |kept| + |segs|
    decreases |segs|
  {
    if segs != [] {
      ReduceBound(segs[1..], rooted, kept);
      ReduceBound(segs[1..], rooted, kept + [segs[0]]);
      if kept != [] {
        ReduceBound(segs[1..], rooted, kept[..|kept| - 1]);
      }
    }
  }

  /** When path.Join drops or merges a segment, fewer than six are left to parse. */
  lemma {:induction false} MergedNameIsRejected(segs: seq<string>, lead: nat)
    requires lead < |segs| <= 6
    requires forall i :: 0 <= i < |segs| ==> '/' !in segs[i]
    requires forall i :: 0 <= i < lead ==> segs[i] == ""
    requires segs[lead] != ""
    requires |Reduce(segs[lead..], false, [])| < 6
    ensures ParseBackendName(PathJoin(segs)) == Err
  {
    var rest := segs[lead..];
    JoinRawLead(segs, lead);
    JoinRawIsJoin(rest[1..], rest[0]);
    assert [rest[0]] + rest[1..] == rest;
    var raw := Join(rest, '/');
    SplitOfJoin(rest, '/');
    assert raw != "" && raw[0] == rest[0][0] != '/';
    ReduceKeepsSlashFree(rest, false, []);
    var kept := Reduce(rest, false, []);
    if kept == [] {
      SplitPrefix(".", "", '/');
    } else {
      SplitOfJoin(kept, '/');
    }
  }

  lemma {:induction false} JoinRawLead(segs: seq<string>, lead: nat)
    requires lead < |segs|
    requires forall i :: 0 <= i < lead ==> segs[i] == ""
    requires segs[lead] != ""
    ensures JoinRaw(segs, "") == JoinRaw(segs[lead..][1..], segs[lead])
  {
    if lead > 0 {
      JoinRawLead(segs[1..], lead - 1);
      assert segs[1..][lead - 1..] == segs[lead..];
    } else {
      assert segs[lead..] == segs;
    }
  }

  lemma {:induction false} OddLeadIsRejected(s0: string, s1: string, tail: seq<string>)
    requires !RoundTrips(s0, s1) && '/' !in s0 && '/' !in s1
    requires |tail| == 4 && tail[0] != ""
    requires forall i :: 0 <= i < 4 ==> '/' !in tail[i]
    ensures ParseBackendName(PathJoin([s0, s1] + tail)) == Err
  {
    var segs := [s0, s1] + tail;
    var lead := if s0 != "" then 0 else if s1 != "" then 1 else 2;
    assert segs[0..] == segs && segs[1..] == [s1] + tail && segs[2..] == tail && segs[1..][1..] == tail;
    ReduceBound(segs[1..], false, []);
    ReduceBound(tail, false, []);
    if lead == 0 && s0 != "." {
      ReduceBound(tail, false, [s0]);
      assert [] + [s0] == [s0] && [s0][..0] == [];
      assert Reduce(segs, false, []) == Reduce(segs[1..], false, [s0]);
    }
    MergedNameIsRejected(segs, lead);
  }

  /**
   * Printing and then parsing returns the same four parts exactly for these namespace and name pairs.
   * A leading `..` survives path.Clean, so it is the one odd segment that still round-trips.
   */
  lemma {:induction false} BackendNameRoundTrip(namespace: string, name: string, r: int, b: int)
    requires IsInt(r) && IsInt(b)
    ensures ParseBackendName(BackendName(namespace, name, r, b)) == Ok(ParsedBackendName(namespace, name, r, b))
       <==> RoundTrips(namespace, name)
  {
    if RoundTrips(namespace, name) {
      AtoiOfItoa(r);
      AtoiOfItoa(b);
      BackendNameIsJoin(namespace, name, r, b);
    } else if '/' in namespace || '/' in name {
      JoinOfSplit(BackendName(namespace, name, r, b), '/');
    } else {
      var tail := ["route", Itoa(r), "backend", Itoa(b)];
      ItoaIsSegment(r);
      ItoaIsSegment(b);
      WordsAreSegments();
      OddLeadIsRejected(namespace, name, tail);
      assert [namespace, name] + tail == BackendSegments(namespace, name, r, b);
    }
  }

  lemma BackendNameInjective(p: ParsedBackendName, q: ParsedBackendName)
    requires RoundTrips(p.namespace, p.listenerName) && IsInt(p.routeId) && IsInt(p.backendId)
    requires RoundTrips(q.namespace, q.listenerName) && IsInt(q.routeId) && IsInt(q.backendId)
    requires p.Print() == q.Print()
    ensures p == q
  {
    BackendNameRoundTrip(p.namespace, p.listenerName, p.routeId, p.backendId);
    BackendNameRoundTrip(q.namespace, q.listenerName, q.routeId, q.backendId);
  }

  /** The spelling the control plane itself prints. */
  predicate CanonicalBackendName(s: string) {
    var sp := Split(s, '/');
    && |sp| == 6
    && RoundTrips(sp[0], sp[1])
    && sp[2] == "route" && sp[4] == "backend"
    && CanonicalDecimal(sp[3]) && CanonicalDecimal(sp[5])
  }

  /**
   * For any accepted name: printing its parse gives the text back exactly when the text was canonical,
   * and when the first two segments round-trip, parse-print-parse is the first parse.
   */
  lemma {:induction false} BackendNameNormalisation(s: string)
    requires ParseBackendName(s).Ok?
    ensures ParseBackendName(s).value.Print() == s <==> CanonicalBackendName(s)
    ensures RoundTrips(Split(s, '/')[0], Split(s, '/')[1]) <==>
            ParseBackendName(ParseBackendName(s).value.Print()) == ParseBackendName(s)
  {
    var sp := Split(s, '/');
    var p := ParseBackendName(s).value;
    BackendNameRoundTrip(p.namespace, p.listenerName, p.routeId, p.backendId);
    if RoundTrips(sp[0], sp[1]) {
      BackendNameIsJoin(p.namespace, p.listenerName, p.routeId, p.backendId);
      SegmentsCanonical(s, p);
    }
  }

  lemma {:induction false} SegmentsCanonical(s: string, p: ParsedBackendName)
    requires ParseBackendName(s) == Ok(p)
    ensures Join(BackendSegments(p.namespace, p.listenerName, p.routeId, p.backendId), '/') == s ==>
              |Split(s, '/')| == 6
    ensures Split(s, '/') == BackendSegments(p.namespace, p.listenerName, p.routeId, p.backendId) <==>
            (var sp := Split(s, '/');
             sp[2] == "route" && sp[4] == "backend" && CanonicalDecimal(sp[3]) && CanonicalDecimal(sp[5]))
    ensures Join(Split(s, '/'), '/') == s
  {
    var sp := Split(s, '/');
    ItoaOfAtoi(sp[3]);
    ItoaOfAtoi(sp[5]);
    JoinOfSplit(s, '/');
  }

  // ---- listeners: namespace/name ----

  function ListenerName(namespace: string, name: string): string {
    namespace + "/" + name
  }

  function ParseListenerName(s: string): Result<(string, string)> {
    match Cut(s, '/')
    case None => Err
    case Some(pair) => Ok(pair)
  }

  /** Printing inverts every accepted parse, and parsing inverts printing exactly for slash-free namespaces. */
  lemma ListenerNameInverse(s: string, namespace: string, name: string)
    ensures ParseListenerName(s).Ok? ==>
              ListenerName(ParseListenerName(s).value.0, ParseListenerName(s).value.1) == s
    ensures ParseListenerName(ListenerName(namespace, name)) == Ok((namespace, name)) <==> '/' !in namespace
    ensures ParseListenerName(s) == Err <==> '/' !in s
  {
    if '/' !in namespace {
      CutAt(namespace, name, '/');
    }
  }
}
