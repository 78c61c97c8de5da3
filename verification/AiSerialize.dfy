/** `serializeAIConfiguration` and the helpers it calls: which arguments travel,
    and that what travels is a fixed point. */
module AiSerialize {
  import opened Text
  import opened RuleFields

  datatype EndpointField = EpRole | NixlPort | OtherMember(name: string)
  type Endpoint = map<EndpointField, Val>
  datatype Rule = Rule(args: Args, endpoints: seq<Endpoint>, rest: map<string, Val>)

  //-------------------------------------------------------
  // What decides whether an argument travels
  //-------------------------------------------------------

  /** The parts of a draft its serialisation branches on. */
  datatype Context = Context(full: bool, engine: Engine, topology: Topology, exactOne: bool, pool: bool,
                             chwbl: bool, jwt: bool, tls: bool, profile: bool)

  function ContextOf(a: Args): Context
  {
    Context(Fullproxy(a), ResolveEngine(a), ResolveTopology(a), Get(a, KvExactMode) == Num(1.0), HasPool(a),
            ChwblSelector(a), RequiresJwt(Get(a, ApiKeyAuth)), BackendTlsApplies(a), HasValue(Get(a, KvModelProfile)))
  }

  /** Event routing is on: the KV controls mean something. */
  predicate ExactRouting(c: Context)
  {
    c.topology.SingleRole? || (c.topology.Pd? && c.exactOne)
  }

  predicate KvTravels(c: Context) { ExactRouting(c) && !c.engine.Llamacpp? }

  /** The trimmed text of a backend TLS member. */
  function TrimmedText(v: Val): string { if v.Str? then Trim(v.s) else "" }

  const VERIFY := "verify_server_cert"

  /** The retired members stay; verification stays only where it applies and is on. */
  function KeptMtls(members: map<string, Val>, applies: bool): map<string, Val>
  {
    var retired := members - {VERIFY};
    if applies && VERIFY in members && Truthy(members[VERIFY]) then retired[VERIFY := Bool(true)] else retired
  }

  /** The backend TLS members of the wire body: nothing blank, and nothing off the re-encrypting leg. */
  predicate TlsTravels(f: Field, v: Val, applies: bool)
  {
    && (TlsString(f) ==> applies && TrimmedText(v) != "")
    && (f.MtlsBackend? && v.Obj? ==> KeptMtls(v.members, applies) != map[])
  }

  /** Policies, hashes and ring tuning on the wire. */
  predicate PolicyTravels(f: Field, v: Val, c: Context)
  {
    && (f.ApiKeyAuth? || f.JwtAuthProfile? || f.KvHashAlgo? ==> Truthy(v))
    && (f.JwtAuthProfile? ==> c.jwt)
    && (f.ChwblPrefixHashLevel? || f.ChwblPrefixHashFlags? ==> HasValue(v))
    && (ChwblTuning(f) ==> c.chwbl && HasValue(v))
  }

  /** What belongs to a topology or an engine. */
  predicate RoutingTravels(f: Field, c: Context)
  {
    && (KvField(f) ==> KvTravels(c))
    && (f.KvDpRankCount? ==> c.engine.Sglang?)
    && (f.KvZmqPort? ==> !c.engine.Trtllm?)
    && (f.PdDisaggMode? || PdTuning(f) ==> c.topology.Pd?)
    && (f.PdBootstrapPort? ==> c.topology.Pd? && c.engine.Sglang?)
  }

  /** What an admission pool reads, and the model profile of a KV-exact rule. */
  predicate PoolTravels(f: Field, v: Val, c: Context)
  {
    && (Admission(f) ==> c.pool && HasValue(v))
    && (FcPdOnly(f) ==> c.topology.Pd?)
    && (f.KvModelProfile? || f.KvExactApiMode? ==> KvTravels(c) && c.profile && HasValue(v))
  }

  /** The fullproxy wire contract: `f`, holding `v`, travels. */
  predicate AiTravels(f: Field, v: Val, c: Context)
  {
    PolicyTravels(f, v, c) && RoutingTravels(f, c) && PoolTravels(f, v, c)
  }

  predicate Travels(f: Field, v: Val, c: Context)
  {
    && !ReadOnly(f)
    && TlsTravels(f, v, c.tls)
    && (if c.full then AiTravels(f, v, c) else !AiOnly(f) && !ChwblTuning(f) && !f.CbEnable?)
  }

  /** The form a value travels in. */
  function Wire(f: Field, v: Val, applies: bool): Val
  {
    if TlsString(f) then Str(TrimmedText(v))
    else if f.MtlsBackend? && v.Obj? then Obj(KeptMtls(v.members, applies))
    else v
  }

  function SerializedArgs(a: Args): Args
  {
    var c := ContextOf(a);
    map f | f in a && Travels(f, a[f], c) :: Wire(f, a[f], c.tls)
  }

  function SerializedEndpoint(e: Endpoint, c: Context): Endpoint
  {
    if !c.full || !c.topology.Pd? then e - {EpRole, NixlPort}
    else if !c.engine.Vllm? then e - {NixlPort}
    else e
  }

  function Serialized(r: Rule): Rule
  {
    Rule(SerializedArgs(r.args), seq(|r.endpoints|, k requires 0 <= k < |r.endpoints| => SerializedEndpoint(r.endpoints[k], ContextOf(r.args))), r.rest)
  }

  //-------------------------------------------------------
  // Serialising twice is serialising once
  //-------------------------------------------------------

  /** What the serialised rule branches on: off fullproxy nothing AI is left, and a
      single-role llama.cpp rule becomes a plain one. */
  function After(c: Context): Context
  {
    if !c.full then Context(false, Vllm, Plain, false, false, c.chwbl, false, false, false)
    else
      var kv := KvTravels(c);
      c.(topology := if c.topology.SingleRole? && !kv then Plain else c.topology,
         exactOne := c.exactOne && kv,
         profile := c.profile && kv)
  }

  lemma GetSerialized(a: Args, f: Field)
    ensures var c := ContextOf(a);
            Get(SerializedArgs(a), f) == if f in a && Travels(f, a[f], c) then Wire(f, a[f], c.tls) else Undef
  {
    hide ContextOf, Travels, Wire;
  }

  /** Arguments no rule ever drops, and those only fullproxy keeps. */
  lemma SelectorKept(a: Args, f: Field)
    requires f.Mode? || f.Security? || f.Sel?
    ensures Get(SerializedArgs(a), f) == Get(a, f)
  {
    hide KvTravels, ContextOf, SerializedArgs, KeptMtls, TrimmedText;
    GetSerialized(a, f);
  }

  lemma FullproxyKept(a: Args, f: Field)
    requires f.KvEngineType? || f.SseMode?
    ensures Get(SerializedArgs(a), f) == if ContextOf(a).full then Get(a, f) else Undef
  {
    hide KvTravels, ContextOf, SerializedArgs, KeptMtls, TrimmedText;
    GetSerialized(a, f);
  }

  lemma PolicyKept(a: Args)
    ensures var v := Get(SerializedArgs(a), ApiKeyAuth); v == if Fullproxy(a) && Truthy(Get(a, ApiKeyAuth)) then Get(a, ApiKeyAuth) else Undef
  {
    hide KvTravels, HasPool, BackendTlsApplies, ResolveTopology, ChwblSelector, RequiresJwt, SerializedArgs, KeptMtls, TrimmedText;
    GetSerialized(a, ApiKeyAuth);
  }

  lemma DisaggKept(a: Args)
    ensures Get(SerializedArgs(a), PdDisaggMode) == if ContextOf(a).full && ContextOf(a).topology.Pd? then Get(a, PdDisaggMode) else Undef
  {
    hide KvTravels, ContextOf, SerializedArgs, KeptMtls, TrimmedText;
    GetSerialized(a, PdDisaggMode);
  }

  lemma ExactKept(a: Args)
    ensures Get(SerializedArgs(a), KvExactMode) == if ContextOf(a).full && KvTravels(ContextOf(a)) then Get(a, KvExactMode) else Undef
  {
    hide KvTravels, ContextOf, SerializedArgs, KeptMtls, TrimmedText;
    GetSerialized(a, KvExactMode);
  }

  lemma ProfileKept(a: Args)
    ensures Get(SerializedArgs(a), KvModelProfile) ==
            if ContextOf(a).full && KvTravels(ContextOf(a)) && ContextOf(a).profile then Get(a, KvModelProfile) else Undef
  {
    hide KvTravels, ContextOf, SerializedArgs, KeptMtls, TrimmedText;
    GetSerialized(a, KvModelProfile);
    ContextProfile(a);
  }

  lemma ContextProfile(a: Args)
    ensures ContextOf(a).profile == HasValue(Get(a, KvModelProfile))
  {
  }

  lemma ContextSerialized(a: Args)
    ensures ContextOf(SerializedArgs(a)) == After(ContextOf(a))
  {
    hide SerializedArgs, Get;
    SelectorKept(a, Mode);
    SelectorKept(a, Security);
    SelectorKept(a, Sel);
    FullproxyKept(a, KvEngineType);
    FullproxyKept(a, SseMode);
    PolicyKept(a);
    DisaggKept(a);
    ExactKept(a);
    ProfileKept(a);
  }

  lemma KeptMtlsTwice(m: map<string, Val>, applies: bool)
    ensures KeptMtls(KeptMtls(m, applies), applies) == KeptMtls(m, applies)
  {
  }

  lemma TlsTwice(f: Field, v: Val, applies: bool)
    requires TlsTravels(f, v, applies)
    ensures TlsTravels(f, Wire(f, v, applies), applies)
    ensures Wire(f, Wire(f, v, applies), applies) == Wire(f, v, applies)
  {
    if f.MtlsBackend? && v.Obj? { KeptMtlsTwice(v.members, applies); }
    hide KeptMtls;
  }

  /** No fullproxy rule names a backend TLS member. */
  lemma TlsUnruled(f: Field, v: Val, c: Context)
    requires TlsString(f) || f.MtlsBackend?
    ensures AiTravels(f, v, c)
  {
  }

  lemma PoolTwice(f: Field, v: Val, c: Context)
    requires PoolTravels(f, v, c) && RoutingTravels(f, c) && c.full
    ensures PoolTravels(f, v, After(c)) && RoutingTravels(f, After(c))
  {
    hide HasValue, Admission, FcPdOnly, KvField, PdTuning;
  }

  lemma AiTwice(f: Field, v: Val, c: Context)
    requires AiTravels(f, v, c) && c.full
    ensures AiTravels(f, Wire(f, v, c.tls), After(c))
  {
    hide KeptMtls, TrimmedText, PoolTravels, RoutingTravels, HasValue, Truthy, ChwblTuning;
    PoolTwice(f, v, c);
    if TlsString(f) || f.MtlsBackend? { TlsUnruled(f, Wire(f, v, c.tls), After(c)); }
  }

  lemma TravelsTwice(f: Field, v: Val, c: Context)
    requires Travels(f, v, c) && (c.tls ==> c.full)
    ensures Travels(f, Wire(f, v, c.tls), After(c))
    ensures Wire(f, Wire(f, v, c.tls), After(c).tls) == Wire(f, v, c.tls)
  {
    hide TlsTravels, AiTravels, Wire, AiOnly, ReadOnly, ChwblTuning;
    TlsTwice(f, v, c.tls);
    if c.full { AiTwice(f, v, c); }
  }

  lemma EndpointTwice(e: Endpoint, c: Context)
    ensures SerializedEndpoint(SerializedEndpoint(e, c), After(c)) == SerializedEndpoint(e, c)
  {
  }

  lemma SerializedIdempotent(r: Rule)
    ensures Serialized(Serialized(r)) == Serialized(r)
  {
    var c, s := ContextOf(r.args), SerializedArgs(r.args);
    ContextSerialized(r.args);
    forall f | f in s
      ensures Travels(f, s[f], After(c)) && Wire(f, s[f], After(c).tls) == s[f]
    {
      TravelsTwice(f, r.args[f], c);
    }
    forall k | 0 <= k < |r.endpoints|
      ensures SerializedEndpoint(SerializedEndpoint(r.endpoints[k], c), After(c)) == SerializedEndpoint(r.endpoints[k], c)
    {
      EndpointTwice(r.endpoints[k], c);
    }
    hide Travels, Wire, SerializedEndpoint, ContextOf;
    assert SerializedArgs(s) == s;
    assert Serialized(Serialized(r)).endpoints == Serialized(r).endpoints;
  }

  //-------------------------------------------------------
  // The serialisers
  //-------------------------------------------------------

  /** The arguments that pass `keep`. */
  function Filter(a: Args, keep: (Field, Val) -> bool): Args
  {
    map f | f in a && keep(f, a[f]) :: a[f]
  }

  function TlsArgs(a: Args): Args
  {
    var applies := BackendTlsApplies(a);
    map f | f in a && TlsTravels(f, a[f], applies) :: Wire(f, a[f], applies)
  }

  /** `f` in the result is what the wire contract makes of it. */
  ghost predicate TlsDone(f: Field, args: Args, applies: bool, result: Args)
  {
    && (f in result <==> f in args && TlsTravels(f, args[f], applies))
    && (f in result ==> result[f] == Wire(f, args[f], applies))
  }

  method SerializeBackendTls(args: Args) returns (result: Args)
    ensures result == TlsArgs(args)
  {
    hide BackendTlsApplies, Trim, KeptMtls;
    result := args;
    var applies := BackendTlsApplies(args);
    var fields := [BackendCaCertId, BackendClientCertId, BackendTlsServerName];
    for k := 0 to 3
      invariant forall f | f in fields[k..] || f.MtlsBackend? :: (f in result <==> f in args) && (f in args ==> result[f] == args[f])
      invariant forall f | f !in fields[k..] && !f.MtlsBackend? :: TlsDone(f, args, applies, result)
    {
      var field := fields[k];
      var value := TrimmedText(Get(args, field));
      assert fields[k..] == [field] + fields[k + 1..] && field !in fields[k + 1..];
      if !applies || value == "" {
        result := result - {field};
      } else {
        result := result[field := Str(value)];
      }
    }
    assert fields[3..] == [];
    if Get(args, MtlsBackend).Obj? {
      var kept := KeptMtls(args[MtlsBackend].members, applies);
      if kept == map[] {
        result := result - {MtlsBackend};
      } else {
        result := result[MtlsBackend := Obj(kept)];
      }
    }
    TlsComplete(args, result);
  }

  lemma TlsComplete(args: Args, result: Args)
    requires forall f :: TlsDone(f, args, BackendTlsApplies(args), result)
    ensures result == TlsArgs(args)
  {
    hide TlsTravels, Wire, BackendTlsApplies;
    forall f
      ensures f in result <==> f in TlsArgs(args)
      ensures f in result ==> result[f] == TlsArgs(args)[f]
    {
      assert TlsDone(f, args, BackendTlsApplies(args), result);
    }
  }

  //-------------------------------------------------------
  // One rule per step of the chain
  //-------------------------------------------------------

  function PolicyRule(jwt: bool): (Field, Val) -> bool
  {
    (f: Field, v: Val) =>
      && (f.ApiKeyAuth? || f.JwtAuthProfile? || f.KvHashAlgo? ==> Truthy(v))
      && (f.JwtAuthProfile? ==> jwt)
      && (f.ChwblPrefixHashLevel? || f.ChwblPrefixHashFlags? ==> HasValue(v))
  }

  function TuningRule(chwbl: bool): (Field, Val) -> bool
  {
    (f: Field, v: Val) => ChwblTuning(f) ==> chwbl && HasValue(v)
  }

  function TopologyRule(kv: bool, pd: bool, sglang: bool): (Field, Val) -> bool
  {
    (f: Field, v: Val) =>
      && (KvField(f) ==> kv)
      && (f.PdDisaggMode? || PdTuning(f) ==> pd)
      && (f.PdBootstrapPort? ==> pd && sglang)
  }

  function EngineRule(fanOut: bool, zmq: bool, llama: bool): (Field, Val) -> bool
  {
    (f: Field, v: Val) =>
      && (f.KvDpRankCount? ==> fanOut)
      && (f.KvZmqPort? ==> zmq)
      && (KvField(f) ==> !llama)
  }

  function AdmissionRule(pool: bool, pd: bool): (Field, Val) -> bool
  {
    (f: Field, v: Val) => (Admission(f) ==> pool && HasValue(v)) && (FcPdOnly(f) ==> pd)
  }

  function ProfileRule(bound: bool): (Field, Val) -> bool
  {
    (f: Field, v: Val) => f.KvModelProfile? || f.KvExactApiMode? ==> bound && HasValue(v)
  }

  function OmitFields(a: Args, drop: Field -> bool): Args
  {
    map f | f in a && !drop(f) :: a[f]
  }

  lemma GetFiltered(a: Args, keep: (Field, Val) -> bool, f: Field)
    ensures Get(Filter(a, keep), f) == if f in a && keep(f, a[f]) then a[f] else Undef
    ensures f in Filter(a, keep) <==> f in a && keep(f, a[f])
    ensures f in Filter(a, keep) ==> Filter(a, keep)[f] == a[f]
  {
  }

  lemma FalsyPolicy(v: Val)
    ensures !Truthy(v) ==> !RequiresJwt(v)
    ensures !RequiresJwt(Undef) && !Truthy(Undef) && !HasValue(Undef)
  {
  }

  /** Policies, hash and prefix hash. */
  method SerializePolicies(args: Args) returns (a: Args)
    ensures a == Filter(args, PolicyRule(RequiresJwt(Get(args, ApiKeyAuth))))
  {
    hide Truthy, HasValue, RequiresJwt;
    FalsyPolicy(Get(args, ApiKeyAuth));
    a := args;
    if !Truthy(Get(a, ApiKeyAuth)) { a := a - {ApiKeyAuth}; }
    if !RequiresJwt(Get(a, ApiKeyAuth)) || !Truthy(Get(a, JwtAuthProfile)) { a := a - {JwtAuthProfile}; }
    if !Truthy(Get(a, KvHashAlgo)) { a := a - {KvHashAlgo}; }
    if !HasValue(Get(a, ChwblPrefixHashLevel)) { a := a - {ChwblPrefixHashLevel}; }
    if !HasValue(Get(a, ChwblPrefixHashFlags)) { a := a - {ChwblPrefixHashFlags}; }
  }

  /** Ring tuning: only under a ring selector, and only what was set. */
  method SerializeTuning(args: Args) returns (a: Args)
    ensures a == Filter(args, TuningRule(ChwblSelector(args)))
  {
    hide HasValue, ChwblTuning;
    if !ChwblSelector(args) {
      a := OmitFields(args, ChwblTuning);
    } else {
      a := Filter(args, (f: Field, v: Val) => !(ChwblTuning(f) && !HasValue(v)));
    }
  }

  /** What each topology leaves out. */
  method SerializeTopology(args: Args, engine: Engine, topology: Topology) returns (a: Args)
    ensures var kv := topology.SingleRole? || (topology.Pd? && Get(args, KvExactMode) == Num(1.0));
            a == Filter(args, TopologyRule(kv, topology.Pd?, engine.Sglang?))
  {
    hide KvField, PdTuning;
    match topology {
      case Plain =>
        a := OmitFields(args, f => KvField(f) || f.PdDisaggMode? || PdTuning(f) || f.PdBootstrapPort?);
      case SingleRole =>
        a := OmitFields(args, (f: Field) => f.PdDisaggMode? || PdTuning(f) || f.PdBootstrapPort?);
      case Pd =>
        a := args;
        if Get(a, KvExactMode) != Num(1.0) { a := OmitFields(a, KvField); }
        if !engine.Sglang? { a := a - {PdBootstrapPort}; }
    }
  }

  /** What each engine leaves out. */
  method SerializeEngine(args: Args, engine: Engine, topology: Topology) returns (a: Args)
    ensures var fanOut := engine.Sglang? && (topology.SingleRole? || (topology.Pd? && Get(args, KvExactMode) == Num(1.0)));
            a == Filter(args, EngineRule(fanOut, !engine.Trtllm? && !engine.Llamacpp?, engine.Llamacpp?))
  {
    hide KvField;
    a := args;
    var fanOut := engine.Sglang? && (topology.SingleRole? || (topology.Pd? && Get(a, KvExactMode) == Num(1.0)));
    if !fanOut { a := a - {KvDpRankCount}; }
    if engine.Trtllm? || engine.Llamacpp? { a := a - {KvZmqPort}; }
    if engine.Llamacpp? { a := OmitFields(a, KvField); }
  }

  lemma PdOnlyIsAdmission()
    ensures forall f :: FcPdOnly(f) ==> Admission(f)
  {
  }

  method SerializeAdmission(args: Args, topology: Topology) returns (result: Args)
    ensures result == Filter(args, AdmissionRule(HasPool(args), topology.Pd?))
  {
    PdOnlyIsAdmission();
    hide Admission, FcPdOnly, HasPool, HasValue;
    if !HasPool(args) {
      return OmitFields(args, Admission);
    }
    result := Filter(args, (f: Field, v: Val) => !(Admission(f) && !HasValue(v)));
    if !topology.Pd? {
      result := OmitFields(result, FcPdOnly);
    }
  }

  method SerializeStrictProfile(args: Args) returns (result: Args)
    ensures var bound := Or(Get(args, KvExactMode), Num(0.0)) != Num(0.0) && HasValue(Get(args, KvModelProfile));
            result == Filter(args, ProfileRule(bound))
  {
    result := args;
    if !HasValue(Get(result, KvModelProfile)) { result := result - {KvModelProfile}; }
    if !HasValue(Get(result, KvExactApiMode)) { result := result - {KvExactApiMode}; }
    var exactMode := Or(Get(result, KvExactMode), Num(0.0));
    if exactMode == Num(0.0) || Get(result, KvModelProfile).Undef? {
      result := result - {KvModelProfile, KvExactApiMode};
    }
  }

  //-------------------------------------------------------
  // The chain
  //-------------------------------------------------------

  /** Stripping read-only and backend TLS members leaves every other argument alone. */
  lemma FirstStep(args: Args, f: Field)
    requires !ReadOnly(f) && !TlsString(f) && !f.MtlsBackend?
    ensures Get(TlsArgs(OmitFields(args, ReadOnly)), f) == Get(args, f)
  {
    hide ReadOnly;
  }

  lemma FirstStepTls(args: Args, f: Field)
    ensures var a := TlsArgs(OmitFields(args, ReadOnly));
            var tls := BackendTlsApplies(args);
            && (f in a <==> f in args && !ReadOnly(f) && TlsTravels(f, args[f], tls))
            && (f in a ==> a[f] == Wire(f, args[f], tls))
  {
    hide TlsTravels, Wire;
    var o := OmitFields(args, ReadOnly);
    assert Get(o, Mode) == Get(args, Mode) && Get(o, Security) == Get(args, Security);
  }

  lemma ModeKept(args: Args)
    ensures Get(TlsArgs(OmitFields(args, ReadOnly)), Mode) == Get(args, Mode)
    ensures ContextOf(args).full <==> Get(args, Mode) == Num(4.0)
    ensures ContextOf(args).topology == ResolveTopology(args) && ContextOf(args).engine == ResolveEngine(args)
  {
    FirstStep(args, Mode);
  }

  /** What the chain still reads off the arguments, before the topology step. */
  ghost predicate Draft(args: Args, a: Args)
  {
    && Get(a, Mode) == Get(args, Mode) && Get(a, Sel) == Get(args, Sel) && Get(a, SseMode) == Get(args, SseMode)
    && Get(a, ApiKeyAuth) == (if Truthy(Get(args, ApiKeyAuth)) then Get(args, ApiKeyAuth) else Undef)
    && Get(a, PdDisaggMode) == Get(args, PdDisaggMode) && Get(a, KvExactMode) == Get(args, KvExactMode)
    && Get(a, KvModelProfile) == Get(args, KvModelProfile)
  }

  /** The same, once topology and engine have been applied. */
  ghost predicate Routed(args: Args, a: Args, kv: bool)
  {
    && Get(a, Mode) == Get(args, Mode) && Get(a, SseMode) == Get(args, SseMode)
    && Get(a, ApiKeyAuth) == (if Truthy(Get(args, ApiKeyAuth)) then Get(args, ApiKeyAuth) else Undef)
    && Get(a, PdDisaggMode) == (if ResolveTopology(args).Pd? then Get(args, PdDisaggMode) else Undef)
    && Get(a, KvExactMode) == (if kv then Get(args, KvExactMode) else Undef)
    && Get(a, KvModelProfile) == Get(args, KvModelProfile)
  }

  lemma PolicyDraft(args: Args, jwt: bool)
    ensures Draft(args, Filter(TlsArgs(OmitFields(args, ReadOnly)), PolicyRule(jwt)))
    ensures Get(TlsArgs(OmitFields(args, ReadOnly)), ApiKeyAuth) == Get(args, ApiKeyAuth)
  {
    var a := TlsArgs(OmitFields(args, ReadOnly));
    FirstStep(args, Mode);
    FirstStep(args, Sel);
    FirstStep(args, SseMode);
    FirstStep(args, ApiKeyAuth);
    FirstStep(args, PdDisaggMode);
    FirstStep(args, KvExactMode);
    FirstStep(args, KvModelProfile);
    hide TlsArgs, Filter, HasValue, OmitFields, Truthy;
    PolicyReads(a, jwt);
    FalsyPolicy(Undef);
  }

  lemma PolicyReads(a: Args, jwt: bool)
    ensures var r := Filter(a, PolicyRule(jwt));
            && Get(r, Mode) == Get(a, Mode) && Get(r, Sel) == Get(a, Sel) && Get(r, SseMode) == Get(a, SseMode)
            && Get(r, ApiKeyAuth) == (if Truthy(Get(a, ApiKeyAuth)) then Get(a, ApiKeyAuth) else Undef)
            && Get(r, PdDisaggMode) == Get(a, PdDisaggMode) && Get(r, KvExactMode) == Get(a, KvExactMode)
            && Get(r, KvModelProfile) == Get(a, KvModelProfile)
  {
    hide HasValue;
    FalsyPolicy(Undef);
  }

  lemma TuningDraft(args: Args, a: Args, chwbl: bool)
    requires Draft(args, a)
    ensures Draft(args, Filter(a, TuningRule(chwbl)))
    ensures ChwblSelector(a) == ChwblSelector(args)
  {
    hide Truthy, HasValue, Filter;
    var rule := TuningRule(chwbl);
    assert !ChwblTuning(Mode) && !ChwblTuning(Sel) && !ChwblTuning(SseMode) && !ChwblTuning(ApiKeyAuth);
    assert !ChwblTuning(PdDisaggMode) && !ChwblTuning(KvExactMode) && !ChwblTuning(KvModelProfile);
    GetFiltered(a, rule, Mode);
    GetFiltered(a, rule, Sel);
    GetFiltered(a, rule, SseMode);
    GetFiltered(a, rule, ApiKeyAuth);
    GetFiltered(a, rule, PdDisaggMode);
    GetFiltered(a, rule, KvExactMode);
    GetFiltered(a, rule, KvModelProfile);
  }

  lemma TopologyRouted(args: Args, a: Args, kv: bool, sglang: bool)
    requires Draft(args, a)
    ensures Routed(args, Filter(a, TopologyRule(kv, ResolveTopology(args).Pd?, sglang)), kv)
  {
    hide Truthy, ResolveTopology;
    TopologyReads(a, kv, ResolveTopology(args).Pd?, sglang);
    hide Filter, TopologyRule;
  }

  lemma RoutingClasses()
    ensures !KvField(Mode) && !KvField(SseMode) && !KvField(ApiKeyAuth) && !KvField(PdDisaggMode) && !KvField(KvModelProfile) && KvField(KvExactMode)
    ensures !PdTuning(Mode) && !PdTuning(SseMode) && !PdTuning(ApiKeyAuth) && !PdTuning(KvModelProfile) && !PdTuning(KvExactMode)
  {
  }

  lemma TopologyReads(a: Args, kv: bool, pd: bool, sglang: bool)
    ensures var r := Filter(a, TopologyRule(kv, pd, sglang));
            && Get(r, Mode) == Get(a, Mode) && Get(r, SseMode) == Get(a, SseMode) && Get(r, ApiKeyAuth) == Get(a, ApiKeyAuth)
            && Get(r, PdDisaggMode) == (if pd then Get(a, PdDisaggMode) else Undef)
            && Get(r, KvExactMode) == (if kv then Get(a, KvExactMode) else Undef)
            && Get(r, KvModelProfile) == Get(a, KvModelProfile)
  {
    hide Filter, KvField, PdTuning;
    RoutingClasses();
    var rule := TopologyRule(kv, pd, sglang);
    GetFiltered(a, rule, Mode);
    GetFiltered(a, rule, SseMode);
    GetFiltered(a, rule, ApiKeyAuth);
    GetFiltered(a, rule, PdDisaggMode);
    GetFiltered(a, rule, KvExactMode);
    GetFiltered(a, rule, KvModelProfile);
  }

  lemma EngineRouted(args: Args, a: Args, kv: bool, fanOut: bool, zmq: bool, llama: bool)
    requires Routed(args, a, kv)
    ensures Routed(args, Filter(a, EngineRule(fanOut, zmq, llama)), kv && !llama)
  {
    hide Filter, Truthy, ResolveTopology;
    var rule := EngineRule(fanOut, zmq, llama);
    GetFiltered(a, rule, Mode);
    GetFiltered(a, rule, SseMode);
    GetFiltered(a, rule, ApiKeyAuth);
    GetFiltered(a, rule, PdDisaggMode);
    GetFiltered(a, rule, KvExactMode);
    GetFiltered(a, rule, KvModelProfile);
  }

  lemma AdmissionRouted(args: Args, a: Args, kv: bool, pool: bool, pd: bool)
    requires Routed(args, a, kv)
    ensures Get(Filter(a, AdmissionRule(pool, pd)), KvExactMode) == (if kv then Get(args, KvExactMode) else Undef)
    ensures Get(Filter(a, AdmissionRule(pool, pd)), KvModelProfile) == Get(args, KvModelProfile)
  {
    hide Truthy, ResolveTopology, HasValue, Filter;
    assert !Admission(KvExactMode) && !Admission(KvModelProfile) && !FcPdOnly(KvExactMode) && !FcPdOnly(KvModelProfile);
    GetFiltered(a, AdmissionRule(pool, pd), KvExactMode);
    GetFiltered(a, AdmissionRule(pool, pd), KvModelProfile);
  }

  lemma PoolKept(args: Args, a: Args, kv: bool)
    requires Routed(args, a, kv)
    ensures HasPool(a) == HasPool(args)
  {
  }

  lemma ContextParts(args: Args)
    ensures var c := ContextOf(args);
            && c.jwt == RequiresJwt(Get(args, ApiKeyAuth)) && c.chwbl == ChwblSelector(args) && c.pool == HasPool(args)
            && c.topology == ResolveTopology(args) && c.engine == ResolveEngine(args) && c.exactOne == (Get(args, KvExactMode) == Num(1.0))
            && c.profile == HasValue(Get(args, KvModelProfile)) && c.full == Fullproxy(args) && c.tls == BackendTlsApplies(args)
  {
  }

  /** The last step binds a profile exactly when the rule still routes on KV events. */
  lemma BoundIsKv(args: Args, exact: Val)
    requires exact == if KvTravels(ContextOf(args)) then Get(args, KvExactMode) else Undef
    ensures Or(exact, Num(0.0)) != Num(0.0) <==> KvTravels(ContextOf(args))
  {
    hide HasPool, BackendTlsApplies, ChwblSelector, RequiresJwt, ResolveEngine;
  }

  ghost function ShapeChain(args: Args): Args
  {
    var c := ContextOf(args);
    var a1 := TlsArgs(OmitFields(args, ReadOnly));
    var a3 := Filter(Filter(a1, PolicyRule(c.jwt)), TuningRule(c.chwbl));
    Filter(Filter(a3, TopologyRule(ExactRouting(c), c.topology.Pd?, c.engine.Sglang?)),
           EngineRule(c.engine.Sglang? && ExactRouting(c), !c.engine.Trtllm? && !c.engine.Llamacpp?, c.engine.Llamacpp?))
  }

  ghost function Chain(args: Args): Args
  {
    var c := ContextOf(args);
    Filter(Filter(ShapeChain(args), AdmissionRule(c.pool, c.topology.Pd?)), ProfileRule(KvTravels(c) && c.profile))
  }

  lemma WireKeeps(f: Field, v: Val, c: Context)
    ensures AiTravels(f, Wire(f, v, c.tls), c) <==> AiTravels(f, v, c)
  {
    hide TrimmedText, KeptMtls, AiTravels;
    if TlsString(f) || f.MtlsBackend? {
      TlsUnruled(f, v, c);
      TlsUnruled(f, Wire(f, v, c.tls), c);
    }
  }

  /** The rules of the steps together are the wire contract. */
  predicate Rules(f: Field, v: Val, c: Context)
  {
    && PolicyRule(c.jwt)(f, v) && TuningRule(c.chwbl)(f, v)
    && TopologyRule(ExactRouting(c), c.topology.Pd?, c.engine.Sglang?)(f, v)
    && EngineRule(c.engine.Sglang? && ExactRouting(c), !c.engine.Trtllm? && !c.engine.Llamacpp?, c.engine.Llamacpp?)(f, v)
    && AdmissionRule(c.pool, c.topology.Pd?)(f, v) && ProfileRule(KvTravels(c) && c.profile)(f, v)
  }

  lemma EarlyRules(f: Field, v: Val, c: Context)
    ensures PolicyRule(c.jwt)(f, v) && TuningRule(c.chwbl)(f, v) <==> PolicyTravels(f, v, c)
  {
    hide Truthy, HasValue, ChwblTuning;
  }

  lemma MiddleRules(f: Field, v: Val, c: Context)
    ensures TopologyRule(ExactRouting(c), c.topology.Pd?, c.engine.Sglang?)(f, v)
            && EngineRule(c.engine.Sglang? && ExactRouting(c), !c.engine.Trtllm? && !c.engine.Llamacpp?, c.engine.Llamacpp?)(f, v)
            <==> RoutingTravels(f, c)
  {
    hide PdTuning, KvField, ExactRouting;
    KvMembers(f);
  }

  lemma LateRules(f: Field, v: Val, c: Context)
    ensures AdmissionRule(c.pool, c.topology.Pd?)(f, v) && ProfileRule(KvTravels(c) && c.profile)(f, v) <==> PoolTravels(f, v, c)
  {
    hide HasValue, Admission, FcPdOnly, KvTravels;
  }

  lemma RulesAreContract(f: Field, v: Val, c: Context)
    ensures AiTravels(f, v, c) <==> Rules(f, v, c)
  {
    hide PolicyRule, TuningRule, TopologyRule, EngineRule, AdmissionRule, ProfileRule, PolicyTravels, RoutingTravels, PoolTravels;
    EarlyRules(f, v, c);
    MiddleRules(f, v, c);
    LateRules(f, v, c);
  }

  lemma KvMembers(f: Field)
    ensures f.KvHashAlgo? || f.KvDpRankCount? || f.KvZmqPort? ==> KvField(f)
  {
  }

  lemma ChainDone(args: Args)
    requires ContextOf(args).full
    ensures Chain(args) == SerializedArgs(args)
  {
    var c := ContextOf(args);
    ContextParts(args);
    hide ContextOf, TlsArgs, PolicyRule, TuningRule, TopologyRule, EngineRule, AdmissionRule, ProfileRule, ExactRouting, KvTravels, ReadOnly, TlsTravels, Wire, AiTravels, BackendTlsApplies, OmitFields;
    forall f
      ensures f in Chain(args) <==> f in args && Travels(f, args[f], c)
      ensures f in Chain(args) ==> Chain(args)[f] == Wire(f, args[f], c.tls)
    {
      FirstStepTls(args, f);
      WireKeeps(f, if f in args then args[f] else Undef, c);
      RulesAreContract(f, if f in args then Wire(f, args[f], c.tls) else Undef, c);
    }
  }

  /** The fullproxy steps that do not read the admission pool. */
  method SerializeShape(args: Args, first: Args, engine: Engine, topology: Topology) returns (a: Args)
    requires first == TlsArgs(OmitFields(args, ReadOnly))
    requires engine == ContextOf(args).engine && topology == ContextOf(args).topology
    ensures a == ShapeChain(args) && Routed(args, a, KvTravels(ContextOf(args)))
  {
    ghost var c := ContextOf(args);
    ContextParts(args);
    PolicyDraft(args, c.jwt);
    KvIs(c);
    hide ContextOf, ResolveEngine, ResolveTopology, TlsArgs, OmitFields, Filter, PolicyRule, TuningRule, TopologyRule, EngineRule, KvTravels, HasPool, ChwblSelector, RequiresJwt, Draft, Routed, HasValue;
    ghost var kv := ExactRouting(c);
    a := SerializePolicies(first);
    TuningDraft(args, a, c.chwbl);
    a := SerializeTuning(a);
    DraftExact(args, a);
    TopologyRouted(args, a, kv, engine.Sglang?);
    a := SerializeTopology(a, engine, topology);
    RoutedExact(args, a, kv);
    EngineRouted(args, a, kv, engine.Sglang? && kv, !engine.Trtllm? && !engine.Llamacpp?, engine.Llamacpp?);
    a := SerializeEngine(a, engine, topology);
  }

  /** The fullproxy half of the serialiser. */
  method SerializeFullproxy(args: Args, first: Args, engine: Engine, topology: Topology) returns (a: Args)
    requires ContextOf(args).full && first == TlsArgs(OmitFields(args, ReadOnly))
    requires engine == ContextOf(args).engine && topology == ContextOf(args).topology
    ensures a == SerializedArgs(args)
  {
    ghost var c := ContextOf(args);
    ContextParts(args);
    hide ContextOf, ResolveEngine, ResolveTopology, TlsArgs, OmitFields, Filter, AdmissionRule, ProfileRule, KvTravels, SerializedArgs, HasPool, ChwblSelector, RequiresJwt, Routed, HasValue, ShapeChain;
    a := SerializeShape(args, first, engine, topology);
    PoolKept(args, a, KvTravels(c));
    AdmissionRouted(args, a, KvTravels(c), c.pool, topology.Pd?);
    a := SerializeAdmission(a, topology);
    BoundIsKv(args, Get(a, KvExactMode));
    a := SerializeStrictProfile(a);
    ChainDone(args);
  }

  method SerializeArguments(args: Args) returns (a: Args)
    ensures a == SerializedArgs(args)
  {
    ModeKept(args);
    hide ContextOf, ResolveEngine, ResolveTopology, TlsArgs, OmitFields, SerializedArgs, AiOnly, ChwblTuning;
    var engine, topology := ResolveEngine(args), ResolveTopology(args);
    a := SerializeBackendTls(OmitFields(args, ReadOnly));
    if Get(a, Mode) != Num(4.0) {
      a := OmitFields(a, f => AiOnly(f) || f.CbEnable? || ChwblTuning(f));
      OffFullproxy(args, a);
    } else {
      a := SerializeFullproxy(args, a, engine, topology);
    }
  }

  method SerializeRule(r: Rule) returns (wire: Rule)
    ensures wire == Serialized(r)
  {
    var a := SerializeArguments(r.args);
    ghost var c := ContextOf(r.args);
    var topology, engine := ResolveTopology(r.args), ResolveEngine(r.args);
    var endpoints: seq<Endpoint> := [];
    ContextParts(r.args);
    hide SerializedArgs, ContextOf, ResolveTopology, ResolveEngine;
    for k := 0 to |r.endpoints|
      invariant |endpoints| == k
      invariant forall j | 0 <= j < k :: endpoints[j] == SerializedEndpoint(r.endpoints[j], c)
    {
      var e := r.endpoints[k];
      if !Fullproxy(r.args) || !topology.Pd? {
        e := e - {EpRole, NixlPort};
      } else if !engine.Vllm? {
        e := e - {NixlPort};
      }
      endpoints := endpoints + [e];
    }
    wire := Rule(a, endpoints, r.rest);
  }

  lemma KvIs(c: Context)
    ensures KvTravels(c) == (ExactRouting(c) && !c.engine.Llamacpp?)
  {
  }

  lemma DraftExact(args: Args, a: Args)
    requires Draft(args, a)
    ensures Get(a, KvExactMode) == Get(args, KvExactMode)
  {
  }

  lemma RoutedExact(args: Args, a: Args, kv: bool)
    requires Routed(args, a, kv)
    ensures Get(a, KvExactMode) == if kv then Get(args, KvExactMode) else Undef
  {
  }

  lemma OffFullproxy(args: Args, a: Args)
    requires Get(args, Mode) != Num(4.0)
    requires a == OmitFields(TlsArgs(OmitFields(args, ReadOnly)), f => AiOnly(f) || f.CbEnable? || ChwblTuning(f))
    ensures a == SerializedArgs(args)
  {
    hide AiOnly, ChwblTuning, ReadOnly, TlsTravels, Wire, AiTravels, TlsArgs, BackendTlsApplies, HasPool, ResolveTopology, ResolveEngine;
    forall f
      ensures f in a <==> f in SerializedArgs(args)
      ensures f in a ==> a[f] == SerializedArgs(args)[f]
    {
      FirstStepTls(args, f);
    }
  }
}
