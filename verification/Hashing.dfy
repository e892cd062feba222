/** The meaning of hash policies is preserved: a call is hashed from the same values, by the spec and by xDS. */
module Hashing {
  import opened Common
  import opened Spec
  import opened Routes
  import opened Refusals

  /** What a call offers to hash: its metadata and the identity of its channel. */
  datatype Caller = Caller(metadata: map<string, string>, channel: string)

  function MetadataValue(caller: Caller, name: string): Option<string> {
    if name in caller.metadata then Some(caller.metadata[name]) else None
  }

  // ---- by the spec ----

  function SpecKey(p: HashPolicy, caller: Caller): Option<string> {
    if p.metadata != "" then MetadataValue(caller, p.metadata)
    else if p.channel == Some(true) then Some(caller.channel)
    else None
  }

  /** The values hashed, in order; a terminal policy ends the list once there is something in it. */
  function SpecKeys(policies: seq<HashPolicy>, caller: Caller, sofar: seq<string>): seq<string>
    decreases |policies|
  {
    if policies == [] then sofar
    else
      var key := SpecKey(policies[0], caller);
      var keys := if key.Some? then sofar + [key.value] else sofar;
      if policies[0].terminal && keys != [] then keys else SpecKeys(policies[1..], caller, keys)
  }

  // ---- by the xDS configuration, as gRFC A42 reads it ----

  function XdsKey(p: HashPolicySpecifier, caller: Caller): Option<string> {
    match p
    case Header(name, _) => MetadataValue(caller, name)
    case FilterState(key, _) => if key == "io.grpc.channel_id" then Some(caller.channel) else None
  }

  function XdsKeys(policies: seq<HashPolicySpecifier>, caller: Caller, sofar: seq<string>): seq<string>
    decreases |policies|
  {
    if policies == [] then sofar
    else
      var key := XdsKey(policies[0], caller);
      var keys := if key.Some? then sofar + [key.value] else sofar;
      if policies[0].terminal && keys != [] then keys else XdsKeys(policies[1..], caller, keys)
  }

  // ---- the translation preserves the meaning ----

  lemma PolicyPreserved(p: HashPolicy, caller: Caller)
    requires HashPolicySpecifierOf(p).Ok?
    ensures var x := HashPolicySpecifierOf(p).value;
            XdsKey(x, caller) == SpecKey(p, caller) && x.terminal == p.terminal
  {}

  lemma {:induction false} PoliciesPreserved(policies: seq<HashPolicy>, xds: seq<HashPolicySpecifier>, caller: Caller, sofar: seq<string>)
    requires |xds| == |policies| && forall i :: 0 <= i < |policies| ==> Ok(xds[i]) == HashPolicySpecifierOf(policies[i])
    ensures XdsKeys(xds, caller, sofar) == SpecKeys(policies, caller, sofar)
    decreases |policies|
  {
    if policies != [] {
      PolicyPreserved(policies[0], caller);
      var key := SpecKey(policies[0], caller);
      PoliciesPreserved(policies[1..], xds[1..], caller, if key.Some? then sofar + [key.value] else sofar);
    }
  }

  /** On every route of every translated listener, every call is hashed from the values the spec names. */
  lemma HashingIsPreserved(listenerName: string, listener: Listener, i: nat, caller: Caller)
    requires RouteConfigOf(listenerName, listener).Ok? && i < |listener.routes|
    ensures XdsKeys(RouteConfigOf(listenerName, listener).value.routes[i].hashPolicy, caller, []) ==
            SpecKeys(listener.routes[i].hashPolicy, caller, [])
  {
    var route := listener.routes[i];
    assert Translatable(route);
    PoliciesPreserved(route.hashPolicy, RouteConfigOf(listenerName, listener).value.routes[i].hashPolicy, caller, []);
  }

  /** A policy is refused exactly if it names neither. */
  lemma PolicyTranslatesExactly(p: HashPolicy)
    ensures HashPolicySpecifierOf(p).Ok? <==> ValidHashPolicy(p)
  {}
}
