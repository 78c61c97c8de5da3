/** The last step before the wire (src/connector/instance/load_balancer.ts): the serialised rule without
    negative numbers, without the probe of an unmonitored rule, without an inert client-certificate policy. */
module RuleWire {
  import opened Text
  import opened RuleFields
  import opened AiSerialize

  predicate Negative(v: Val) { v.Num? && v.r < 0.0 }

  /** A value without the negative numbers inside it. */
  function Cleaned(v: Val): Val
  {
    match v
    case Obj(m) => Obj(map k | k in m && !Negative(m[k]) :: Cleaned(m[k]))
    case _ => v
  }

  function CleanedMembers<K(==)>(m: map<K, Val>): map<K, Val>
  {
    map k | k in m && !Negative(m[k]) :: Cleaned(m[k])
  }

  method CleanNegativeNumbers<K(==)>(m: map<K, Val>) returns (cleaned: map<K, Val>)
    ensures cleaned == CleanedMembers(m)
  {
    cleaned := map[];
    var rest := m.Keys;
    while rest != {}
      invariant rest <= m.Keys
      invariant forall k :: k in cleaned <==> k in m.Keys - rest && !Negative(m[k])
      invariant forall k | k in cleaned :: cleaned[k] == Cleaned(m[k])
      decreases |rest|
    {
      var key :| key in rest;
      rest := rest - {key};
      if !Negative(m[key]) { cleaned := cleaned[key := Cleaned(m[key])]; }
    }
  }

  const MONITOR := Other("monitor")
  const FRONTEND := Other("mtls_frontend")

  predicate Probe(f: Field)
  {
    f.Other? && f.name in {"probetype", "probeport", "probereq", "proberesp", "probeTimeout", "probeRetries"}
  }

  predicate Monitored(a: Args) { Truthy(Get(a, MONITOR)) && !Negative(Get(a, MONITOR)) }

  function ClientCertMode(v: Val): Val
  {
    if v.Obj? && "client_cert_mode" in v.members then v.members["client_cert_mode"] else Undef
  }

  /** A client-certificate policy that verifies nothing. */
  predicate Inert(v: Val)
  {
    Truthy(v) && (!Truthy(ClientCertMode(v)) || ClientCertMode(v) == Str("disabled"))
  }

  function WithoutProbe(a: Args): Args
  {
    if Truthy(Get(a, MONITOR)) then a else map f | f in a && !Probe(f) :: a[f]
  }

  function WithoutInert(a: Args): Args { if Inert(Get(a, FRONTEND)) then a - {FRONTEND} else a }

  function WireArgs(a: Args): Args { WithoutInert(WithoutProbe(CleanedMembers(SerializedArgs(a)))) }

  function Wired(r: Rule): Rule
  {
    var s := Serialized(r);
    Rule(WireArgs(r.args), seq(|s.endpoints|, k requires 0 <= k < |s.endpoints| => CleanedMembers(s.endpoints[k])),
         CleanedMembers(r.rest))
  }

  /** Whether `f`, holding `v`, is sent by a rule of this context, and what is sent for it. */
  predicate Sent(f: Field, v: Val, c: Context, monitored: bool)
  {
    && Travels(f, v, c) && !Negative(v)
    && (Probe(f) ==> monitored)
    && (f == FRONTEND ==> !Inert(Cleaned(v)))
  }

  function SentValue(f: Field, v: Val, c: Context): Val { Cleaned(Wire(f, v, c.tls)) }

  lemma CleanedAt(a: Args, f: Field)
    ensures var s := CleanedMembers(SerializedArgs(a));
            && (f in s <==> f in a && Travels(f, a[f], ContextOf(a)) && !Negative(a[f]))
            && (f in s ==> s[f] == SentValue(f, a[f], ContextOf(a)))
  {
    hide Travels, ContextOf, Cleaned;
    if f in a && Travels(f, a[f], ContextOf(a)) { WireSign(f, a[f], ContextOf(a)); }
  }

  lemma WireSign(f: Field, v: Val, c: Context)
    requires Travels(f, v, c)
    ensures Negative(Wire(f, v, c.tls)) == Negative(v)
  {
    hide AiTravels, KeptMtls;
  }

  lemma OtherTravels(f: Field, v: Val, c: Context)
    requires f.Other?
    ensures Travels(f, v, c) && Wire(f, v, c.tls) == v
  {
  }

  /** Each member travels by itself: what is sent for it depends on its own value, on the context of the
      rule and on whether the rule is monitored. */
  lemma SentExactly(a: Args, f: Field)
    ensures f in WireArgs(a) <==> f in a && Sent(f, a[f], ContextOf(a), Monitored(a))
    ensures f in WireArgs(a) ==> WireArgs(a)[f] == SentValue(f, a[f], ContextOf(a))
  {
    hide SerializedArgs, CleanedMembers, ContextOf, Travels, Wire, Cleaned, ClientCertMode, Inert;
    CleanedAt(a, f);
    CleanedAt(a, MONITOR);
    CleanedAt(a, FRONTEND);
    if MONITOR in a { OtherTravels(MONITOR, a[MONITOR], ContextOf(a)); CleanedTruthy(a[MONITOR]); }
    if FRONTEND in a { OtherTravels(FRONTEND, a[FRONTEND], ContextOf(a)); }
    UndefIsNotInert();
  }

  lemma CleanedTruthy(v: Val)
    ensures Truthy(Cleaned(v)) == Truthy(v)
  {
  }

  lemma UndefIsNotInert()
    ensures !Inert(Undef)
  {
  }

  method SerializeCreateBody(r: Rule) returns (wire: Rule)
    ensures wire == Wired(r)
  {
    hide Serialized, Travels, ContextOf;
    var s := SerializeRule(r);
    var args := CleanNegativeNumbers(s.args);
    var endpoints: seq<Endpoint> := [];
    for k := 0 to |s.endpoints|
      invariant |endpoints| == k
      invariant forall j | 0 <= j < k :: endpoints[j] == CleanedMembers(s.endpoints[j])
    {
      var e := CleanNegativeNumbers(s.endpoints[k]);
      endpoints := endpoints + [e];
    }
    var rest := CleanNegativeNumbers(s.rest);
    SerializedParts(r);
    if !Truthy(Get(args, MONITOR)) { args := map f | f in args && !Probe(f) :: args[f]; }
    var frontend := Get(args, FRONTEND);
    if Truthy(frontend) && (!Truthy(ClientCertMode(frontend)) || ClientCertMode(frontend) == Str("disabled")) {
      args := args - {FRONTEND};
    }
    wire := Rule(args, endpoints, rest);
  }

  lemma SerializedParts(r: Rule)
    ensures Serialized(r).args == SerializedArgs(r.args) && Serialized(r).rest == r.rest
  {
  }

  //-------------------------------------------------------
  // The three steps by the members they name
  //-------------------------------------------------------

  const PROBE_NAMES: set<string> := {"probetype", "probeport", "probereq", "proberesp", "probeTimeout", "probeRetries"}

  /** Every member no rule names is sent as it is unless it is negative; those of the probe only with `monitor` on. */
  lemma NamedSent(a: Args, name: string)
    requires name != "mtls_frontend"
    ensures var f, monitor := Other(name), Get(a, Other("monitor"));
            && (f in WireArgs(a) <==>
                  f in a && !Negative(a[f]) && (name in PROBE_NAMES ==> Truthy(monitor) && !Negative(monitor)))
            && (f in WireArgs(a) ==> WireArgs(a)[f] == Cleaned(a[f]))
  {
    hide WireArgs, Cleaned, Truthy, Travels, Wire, ContextOf;
    SentExactly(a, Other(name));
    if Other(name) in a { OtherTravels(Other(name), a[Other(name)], ContextOf(a)); }
    assert FRONTEND == Other("mtls_frontend") && MONITOR == Other("monitor");
  }

  /** The client-certificate policy of the frontend is sent only with a mode other than `disabled`. */
  lemma FrontendSent(a: Args, members: map<string, Val>)
    requires Other("mtls_frontend") in a && a[Other("mtls_frontend")] == Obj(members)
    ensures Other("mtls_frontend") in WireArgs(a) <==>
              && "client_cert_mode" in members && Truthy(members["client_cert_mode"]) && !Negative(members["client_cert_mode"])
              && members["client_cert_mode"] != Str("disabled")
  {
    hide WireArgs, Truthy, Travels, Wire, ContextOf;
    SentExactly(a, FRONTEND);
    OtherTravels(FRONTEND, a[FRONTEND], ContextOf(a));
    ModeCleaned(members);
  }

  lemma ModeCleaned(members: map<string, Val>)
    ensures Inert(Cleaned(Obj(members))) <==>
              !("client_cert_mode" in members && Truthy(members["client_cert_mode"]) && !Negative(members["client_cert_mode"])
                && members["client_cert_mode"] != Str("disabled"))
  {
    if "client_cert_mode" in members { CleanedTruthy(members["client_cert_mode"]); }
    assert Truthy(Cleaned(Obj(members)));
  }
}
