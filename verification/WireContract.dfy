/** The wire contract of `serializeAIConfiguration` in terms of the rule alone: which values of which members
    are read back from the serialised arguments. Field lists and conditions are written out. */
module WireContract {
  import opened Text
  import opened RuleFields
  import opened AiSerialize

  lemma TruthyExactly(v: Val)
    ensures Truthy(v) <==> v !in {Undef, Null, NaN, Bool(false), Num(0.0), Str("")}
  {
  }

  /** Reading a member back after serialisation. */
  function Wired(a: Args, f: Field): Val { Get(SerializedArgs(a), f) }

  lemma ReadWired(a: Args, f: Field)
    ensures Wired(a, f) == if f in a && Travels(f, a[f], ContextOf(a)) then Wire(f, a[f], ContextOf(a).tls) else Undef
  {
    GetSerialized(a, f);
  }

  lemma ContextIs(a: Args)
    ensures var c := ContextOf(a);
            && c.full == (Get(a, Mode) == Num(4.0))
            && c.topology == (if Truthy(Get(a, PdDisaggMode)) then Pd else if Get(a, KvExactMode) == Num(3.0) then SingleRole else Plain)
            && (c.engine.Sglang? <==> Get(a, KvEngineType) == Str("sglang"))
            && (c.engine.Trtllm? <==> Get(a, KvEngineType) == Str("trtllm"))
            && (c.engine.Llamacpp? <==> Get(a, KvEngineType) == Str("llamacpp"))
            && c.exactOne == (Get(a, KvExactMode) == Num(1.0))
            && c.chwbl == (Get(a, Sel) in {Num(8.0), Num(10.0)})
            && c.jwt == (Get(a, ApiKeyAuth) in {Str("jwt"), Str("apikey-or-jwt")})
            && c.tls == (Get(a, Mode) == Num(4.0) && Get(a, Security) == Num(2.0))
            && c.profile == (Get(a, KvModelProfile) !in {Undef, Null, Str("")})
  {
  }

  /** The gateway runs an admission pool for the rule. */
  lemma PoolIs(a: Args)
    ensures ContextOf(a).pool <==>
              && Get(a, Mode) == Num(4.0)
              && (|| Truthy(Get(a, SseMode)) || Truthy(Get(a, PdDisaggMode))
                  || (Truthy(Get(a, ApiKeyAuth)) && Get(a, ApiKeyAuth) != Str("disabled")))
  {
  }

  const ADMISSION: set<Field> :=
    {FcMode, FcAdaptive, FcExposeHeaders, FcMaxOutstanding, FcEpMaxInflight, FcPrefillMaxInflight, FcDecodeMaxInflight,
     FcMaxQueueDepth, FcMaxQueueWaitMs, FcTelemetryStaleMs, FcWarmupMs, FcTtftTargetMs, FcTenantMaxSharePct, FcWakePolicy,
     FcBandWeights, FcBandMinSharePct, FcBandQueuePct, FcBandWaitMs, FcCriticalReservePct, FcShedQueue, FcTenantWake,
     FcLlmdHeaders, AiDefaultReservation, AiDefaultMaxTokens, AiObjectiveStrict}

  const ADMISSION_PD: set<Field> := {FcPrefillMaxInflight, FcDecodeMaxInflight, FcTelemetryStaleMs}

  lemma AdmissionIs(f: Field)
    ensures f in ADMISSION <==> Admission(f)
    ensures f in ADMISSION_PD <==> FcPdOnly(f)
  {
  }

  lemma AdmissionClass(f: Field)
    requires Admission(f)
    ensures !ReadOnly(f) && !TlsString(f) && !KvField(f) && !PdTuning(f) && !ChwblTuning(f)
  {
  }

  lemma AdmissionNamed(f: Field)
    requires Admission(f)
    ensures !f.MtlsBackend? && !f.ApiKeyAuth? && !f.JwtAuthProfile? && !f.KvHashAlgo? && !f.ChwblPrefixHashLevel?
    ensures !f.ChwblPrefixHashFlags? && !f.KvDpRankCount? && !f.KvZmqPort? && !f.PdDisaggMode? && !f.PdBootstrapPort?
    ensures !f.KvModelProfile? && !f.KvExactApiMode?
  {
  }

  lemma AdmissionIsAi(f: Field)
    requires Admission(f)
    ensures AiOnly(f)
  {
    hide Admission;
  }

  lemma AdmissionRules(f: Field, v: Val, c: Context)
    requires Admission(f)
    ensures Wire(f, v, c.tls) == v
    ensures Travels(f, v, c) <==> c.full && c.pool && HasValue(v) && (FcPdOnly(f) ==> c.topology.Pd?)
  {
    hide Admission, FcPdOnly, AiOnly, ReadOnly, TlsString, KvField, PdTuning, ChwblTuning, KeptMtls, TrimmedText, HasValue, KvTravels, Truthy;
    AdmissionClass(f);
    AdmissionNamed(f);
    AdmissionIsAi(f);
  }

  /** Every admission member with a value is read back as it was from a rule with a pool, the P/D ones from a P/D
      rule; none is from any other rule. A fullproxy rule has a pool by each of three triggers, and by no other. */
  lemma AdmissionSent(a: Args, f: Field)
    requires f in ADMISSION
    ensures var full, v := Get(a, Mode) == Num(4.0), Get(a, f);
            var streams, pd, policy := Truthy(Get(a, SseMode)), Truthy(Get(a, PdDisaggMode)), Get(a, ApiKeyAuth);
            var sent := if v !in {Undef, Null, Str("")} && (f in ADMISSION_PD ==> pd) then v else Undef;
            && (full && streams ==> Wired(a, f) == sent)
            && (full && pd ==> Wired(a, f) == sent)
            && (full && Truthy(policy) && policy != Str("disabled") ==> Wired(a, f) == sent)
            && (!full || (!streams && !pd && (!Truthy(policy) || policy == Str("disabled"))) ==> Wired(a, f) == Undef)
  {
    hide Truthy, ContextOf, Travels, Wire, Admission, FcPdOnly;
    AdmissionIs(f);
    ReadWired(a, f);
    ContextIs(a);
    PoolIs(a);
    AdmissionRules(f, Get(a, f), ContextOf(a));
  }

  //-------------------------------------------------------
  // The other members of a fullproxy rule
  //-------------------------------------------------------

  const KV: set<Field> := {KvExactMode, KvBlockSize, KvHashAlgo, KvZmqPort, KvWarmupSec, KvDpRankCount}
  const PD: set<Field> :=
    {PdDisaggMode, PdCacheAwareMode, PdSessionTtlSec, PdPrefillTimeoutSec, PdCacheThreshold, PdBalanceAbsThreshold}
  const RING: set<Field> := {ChwblMeanLoadFactor, ChwblReplication, ChwblEnableCacheSalt}
  const PREFIX_HASH: set<Field> := {ChwblPrefixHashLevel, ChwblPrefixHashFlags}
  const PROFILE: set<Field> := {KvModelProfile, KvExactApiMode}
  const PLAIN: set<Field> :=
    {Mode, Security, Sel, CbEnable, ModelName, TraceType, SessionHeaderName, SseMode, MaxStreamDurationSec,
     BackendKeepaliveIntervalSec, KvEngineType}

  /** The rule routes on KV events: P/D in exact mode 1, or a single role in exact mode 3. */
  predicate RoutesOnEvents(a: Args)
  {
    Get(a, KvExactMode) == Num(if Truthy(Get(a, PdDisaggMode)) then 1.0 else 3.0)
  }

  lemma EventsAre(a: Args)
    ensures KvTravels(ContextOf(a)) <==> RoutesOnEvents(a) && Get(a, KvEngineType) != Str("llamacpp")
  {
    hide ContextOf, Truthy;
    ContextIs(a);
  }

  lemma KvIs(f: Field)
    ensures f in KV <==> KvField(f)
  {
  }

  lemma KvClass(f: Field)
    requires KvField(f)
    ensures !ReadOnly(f) && !TlsString(f) && !f.MtlsBackend? && !FcPdOnly(f) && !PdTuning(f) && !ChwblTuning(f)
    ensures !f.ApiKeyAuth? && !f.JwtAuthProfile? && !f.ChwblPrefixHashLevel? && !f.ChwblPrefixHashFlags?
    ensures !f.PdDisaggMode? && !f.PdBootstrapPort? && !f.KvModelProfile? && !f.KvExactApiMode?
  {
  }

  lemma KvNoAdmission(f: Field)
    requires KvField(f)
    ensures !Admission(f)
  {
  }

  lemma KvRules(f: Field, v: Val, c: Context)
    requires KvField(f) && c.full
    ensures Wire(f, v, c.tls) == v
    ensures Travels(f, v, c) <==>
              && KvTravels(c) && (f == KvHashAlgo ==> Truthy(v))
              && (f == KvDpRankCount ==> c.engine.Sglang?) && (f == KvZmqPort ==> !c.engine.Trtllm?)
  {
    hide KvTravels, Truthy, KeptMtls, TrimmedText, KvField, Admission, FcPdOnly, PdTuning, ChwblTuning, ReadOnly, TlsString;
    KvClass(f);
    KvNoAdmission(f);
  }

  lemma KvSent(a: Args, f: Field)
    requires Get(a, Mode) == Num(4.0) && f in KV
    ensures var v, engine := Get(a, f), Get(a, KvEngineType);
            Wired(a, f) ==
              if RoutesOnEvents(a) && engine != Str("llamacpp") && (f == KvHashAlgo ==> Truthy(v))
                 && (f == KvDpRankCount ==> engine == Str("sglang")) && (f == KvZmqPort ==> engine != Str("trtllm"))
              then v else Undef
  {
    hide ContextOf, Travels, Wire, KvTravels, KvField, RoutesOnEvents, Truthy;
    ReadWired(a, f);
    ContextIs(a);
    EventsAre(a);
    KvIs(f);
    KvRules(f, Get(a, f), ContextOf(a));
  }

  lemma PdIs(f: Field)
    ensures f in PD <==> PdTuning(f) || f.PdDisaggMode?
  {
  }

  lemma PdClass(f: Field)
    requires PdTuning(f) || f.PdDisaggMode? || f.PdBootstrapPort?
    ensures !ReadOnly(f) && !TlsString(f) && !f.MtlsBackend? && !FcPdOnly(f) && !KvField(f) && !ChwblTuning(f)
    ensures !f.ApiKeyAuth? && !f.JwtAuthProfile? && !f.ChwblPrefixHashLevel? && !f.ChwblPrefixHashFlags?
    ensures !f.KvHashAlgo? && !f.KvZmqPort? && !f.KvDpRankCount? && !f.KvModelProfile? && !f.KvExactApiMode?
    ensures PdTuning(f) ==> !f.PdBootstrapPort?
  {
  }

  lemma PdNoAdmission(f: Field)
    requires PdTuning(f) || f.PdDisaggMode? || f.PdBootstrapPort?
    ensures !Admission(f)
  {
  }

  lemma PdRules(f: Field, v: Val, c: Context)
    requires (PdTuning(f) || f.PdDisaggMode? || f.PdBootstrapPort?) && c.full
    ensures Wire(f, v, c.tls) == v
    ensures Travels(f, v, c) <==> c.topology.Pd? && (f == PdBootstrapPort ==> c.engine.Sglang?)
  {
    hide KvTravels, Truthy, KeptMtls, TrimmedText, KvField, Admission, FcPdOnly, PdTuning, ChwblTuning, ReadOnly, TlsString;
    PdClass(f);
    PdNoAdmission(f);
  }

  lemma PdSent(a: Args, f: Field)
    requires Get(a, Mode) == Num(4.0) && (f in PD || f == PdBootstrapPort)
    ensures Wired(a, f) ==
              if Truthy(Get(a, PdDisaggMode)) && (f == PdBootstrapPort ==> Get(a, KvEngineType) == Str("sglang"))
              then Get(a, f) else Undef
  {
    hide ContextOf, Travels, Wire, Truthy, PdTuning;
    ReadWired(a, f);
    ContextIs(a);
    PdIs(f);
    PdRules(f, Get(a, f), ContextOf(a));
  }

  lemma HashRules(f: Field, v: Val, c: Context)
    requires (f in RING || f in PREFIX_HASH) && c.full
    ensures Wire(f, v, c.tls) == v
    ensures Travels(f, v, c) <==> HasValue(v) && (f in RING ==> c.chwbl)
  {
    hide KvTravels, Truthy, HasValue, KeptMtls, TrimmedText;
  }

  lemma HashSent(a: Args, f: Field)
    requires Get(a, Mode) == Num(4.0) && (f in RING || f in PREFIX_HASH)
    ensures Wired(a, f) ==
              if Get(a, f) !in {Undef, Null, Str("")} && (f in RING ==> Get(a, Sel) in {Num(8.0), Num(10.0)})
              then Get(a, f) else Undef
  {
    hide ContextOf, Travels, Wire;
    ReadWired(a, f);
    ContextIs(a);
    HashRules(f, Get(a, f), ContextOf(a));
  }

  lemma PolicyRules(f: Field, v: Val, c: Context)
    requires (f == ApiKeyAuth || f == JwtAuthProfile) && c.full
    ensures Wire(f, v, c.tls) == v
    ensures Travels(f, v, c) <==> Truthy(v) && (f == JwtAuthProfile ==> c.jwt)
  {
    hide KvTravels, Truthy, KeptMtls, TrimmedText;
  }

  lemma PolicySent(a: Args, f: Field)
    requires Get(a, Mode) == Num(4.0) && (f == ApiKeyAuth || f == JwtAuthProfile)
    ensures Wired(a, f) ==
              if Truthy(Get(a, f)) && (f == JwtAuthProfile ==> Get(a, ApiKeyAuth) in {Str("jwt"), Str("apikey-or-jwt")})
              then Get(a, f) else Undef
  {
    hide ContextOf, Travels, Wire, Truthy;
    ReadWired(a, f);
    ContextIs(a);
    PolicyRules(f, Get(a, f), ContextOf(a));
  }

  lemma ProfileRules(f: Field, v: Val, c: Context)
    requires f in PROFILE && c.full
    ensures Wire(f, v, c.tls) == v
    ensures Travels(f, v, c) <==> KvTravels(c) && c.profile && HasValue(v)
  {
    hide KvTravels, HasValue, Truthy, KeptMtls, TrimmedText;
  }

  lemma ProfileSent(a: Args, f: Field)
    requires Get(a, Mode) == Num(4.0) && f in PROFILE
    ensures var bound := RoutesOnEvents(a) && Get(a, KvEngineType) != Str("llamacpp")
                         && Get(a, KvModelProfile) !in {Undef, Null, Str("")};
            Wired(a, f) == if bound && Get(a, f) !in {Undef, Null, Str("")} then Get(a, f) else Undef
  {
    hide ContextOf, Travels, Wire, KvTravels, RoutesOnEvents;
    ReadWired(a, f);
    ContextIs(a);
    EventsAre(a);
    ProfileRules(f, Get(a, f), ContextOf(a));
  }

  lemma PlainClass(f: Field)
    requires f in PLAIN || f.Other?
    ensures !ReadOnly(f) && !TlsString(f) && !FcPdOnly(f) && !KvField(f) && !ChwblTuning(f) && !PdTuning(f)
  {
  }

  lemma PlainNamed(f: Field)
    requires f in PLAIN || f.Other?
    ensures !f.MtlsBackend? && !f.ApiKeyAuth? && !f.JwtAuthProfile? && !f.ChwblPrefixHashLevel? && !f.ChwblPrefixHashFlags?
    ensures !f.KvHashAlgo? && !f.KvZmqPort? && !f.KvDpRankCount? && !f.KvModelProfile? && !f.KvExactApiMode?
    ensures !f.PdDisaggMode? && !f.PdBootstrapPort?
  {
  }

  lemma PlainNoAdmission(f: Field)
    requires f in PLAIN || f.Other?
    ensures !Admission(f)
  {
    hide FcNumeric;
    PlainNoNumber(f);
  }

  lemma PlainNoNumber(f: Field)
    requires f in PLAIN || f.Other?
    ensures !FcNumeric(f)
  {
  }

  lemma PlainRules(f: Field, v: Val, c: Context)
    requires (f in PLAIN || f.Other?) && c.full
    ensures Wire(f, v, c.tls) == v && Travels(f, v, c)
  {
    PlainClass(f);
    PlainNamed(f);
    PlainNoAdmission(f);
    hide KvTravels, Truthy, KeptMtls, TrimmedText, KvField, Admission, FcPdOnly, PdTuning, ChwblTuning, ReadOnly, TlsString;
  }

  lemma PlainSent(a: Args, f: Field)
    requires Get(a, Mode) == Num(4.0) && (f in PLAIN || f.Other?)
    ensures Wired(a, f) == Get(a, f)
  {
    hide ContextOf, Travels, Wire;
    ReadWired(a, f);
    ContextIs(a);
    PlainRules(f, Get(a, f), ContextOf(a));
  }

  //-------------------------------------------------------
  // Off fullproxy, and backend TLS
  //-------------------------------------------------------

  const READ_ONLY: set<Field> := {FcEffective, HalfCloseEffective, BackendTlsEffective}
  const AI_SETTINGS: set<Field> :=
    {ModelName, ApiKeyAuth, JwtAuthProfile, TraceType, SessionHeaderName, SseMode, MaxStreamDurationSec,
     BackendKeepaliveIntervalSec, KvEngineType, PdBootstrapPort}

  lemma ReadOnlyNeverSent(a: Args, f: Field)
    requires f in READ_ONLY
    ensures Wired(a, f) == Undef
  {
    hide ContextOf, TlsTravels, AiTravels, Wire;
    ReadWired(a, f);
  }

  lemma AiIs(f: Field)
    requires f in ADMISSION || f in KV || f in PD || f in PROFILE || f in PREFIX_HASH || f in AI_SETTINGS
    ensures AiOnly(f)
  {
    hide Admission, KvField, PdTuning;
    AdmissionIs(f);
    KvIs(f);
    PdIs(f);
  }

  lemma RingIs(f: Field)
    requires f in RING
    ensures ChwblTuning(f)
  {
  }

  /** Off fullproxy no AI setting, breaker or ring tuning is left. */
  lemma OffFullproxyDrops(a: Args, f: Field)
    requires Get(a, Mode) != Num(4.0)
    requires || f in ADMISSION || f in KV || f in PD || f in PROFILE || f in PREFIX_HASH || f in AI_SETTINGS || f in RING
             || f == CbEnable
    ensures Wired(a, f) == Undef
  {
    hide ContextOf, TlsTravels, AiTravels, AiOnly, ChwblTuning, ReadOnly, Wire;
    ReadWired(a, f);
    ContextIs(a);
    if f in RING { RingIs(f); } else if f != CbEnable { AiIs(f); }
  }

  lemma NotAi(f: Field)
    requires f in {Mode, Security, Sel} || f.Other?
    ensures !AiOnly(f) && !ChwblTuning(f) && !f.CbEnable? && !ReadOnly(f) && !TlsString(f) && !f.MtlsBackend?
  {
  }

  /** And everything no rule names is. */
  lemma OffFullproxyKeeps(a: Args, f: Field)
    requires Get(a, Mode) != Num(4.0) && (f in {Mode, Security, Sel} || f.Other?)
    ensures Wired(a, f) == Get(a, f)
  {
    hide ContextOf, AiTravels, AiOnly, ChwblTuning, ReadOnly, TlsString;
    ReadWired(a, f);
    ContextIs(a);
    NotAi(f);
  }

  /** The fields of the backend TLS leg travel on a fullproxy rule with security 2 only, trimmed, and not blank. */
  lemma TlsSent(a: Args, f: Field)
    requires f in {BackendCaCertId, BackendClientCertId, BackendTlsServerName}
    ensures var text := if Get(a, f).Str? then Trim(Get(a, f).s) else "";
            Wired(a, f) == if Get(a, Mode) == Num(4.0) && Get(a, Security) == Num(2.0) && text != "" then Str(text) else Undef
  {
    hide ContextOf, Trim, KvTravels;
    ReadWired(a, f);
    ContextIs(a);
    TlsUnruled(f, Get(a, f), ContextOf(a));
    TlsNotAi(f);
    hide AiTravels, AiOnly, ChwblTuning, ReadOnly;
  }

  lemma TlsNotAi(f: Field)
    requires f in {BackendCaCertId, BackendClientCertId, BackendTlsServerName, MtlsBackend}
    ensures !AiOnly(f) && !ChwblTuning(f) && !f.CbEnable? && !ReadOnly(f)
  {
  }

  lemma KeptMembers(m: map<string, Val>, applies: bool)
    ensures var kept := KeptMtls(m, applies);
            && (forall k :: k in kept <==>
                  if k == "verify_server_cert" then applies && k in m && Truthy(m[k]) else k in m)
            && (forall k | k in kept :: kept[k] == if k == "verify_server_cert" then Bool(true) else m[k])
  {
  }

  /** Of the TLS object every member stays as it was but `verify_server_cert`, which stays only as `true`, only
      when it was on, and only on that leg; an object with nothing left is not sent. */
  lemma VerificationSent(a: Args)
    requires MtlsBackend in a && a[MtlsBackend].Obj?
    ensures var before, sent := a[MtlsBackend].members, Wired(a, MtlsBackend);
            var on := && Get(a, Mode) == Num(4.0) && Get(a, Security) == Num(2.0)
                      && "verify_server_cert" in before && Truthy(before["verify_server_cert"]);
            && (sent.Undef? || (sent.Obj? && sent.members != map[]))
            && (forall k :: (sent.Obj? && k in sent.members) <==> if k == "verify_server_cert" then on else k in before)
            && (sent.Obj? ==> forall k | k in sent.members ::
                  sent.members[k] == if k == "verify_server_cert" then Bool(true) else before[k])
  {
    hide ContextOf, Truthy, AiTravels, AiOnly, ChwblTuning, ReadOnly, KeptMtls;
    KeptMembers(a[MtlsBackend].members, ContextOf(a).tls);
    ReadWired(a, MtlsBackend);
    ContextIs(a);
    TlsUnruled(MtlsBackend, a[MtlsBackend], ContextOf(a));
    TlsNotAi(MtlsBackend);
  }

  /** Endpoint roles travel on a fullproxy P/D rule only, NIXL ports only with vLLM there; everything else of
      an endpoint travels. */
  lemma EndpointsSent(r: Rule, k: nat, m: EndpointField)
    requires k < |r.endpoints|
    ensures var pd := Get(r.args, Mode) == Num(4.0) && Truthy(Get(r.args, PdDisaggMode));
            var vllm := Get(r.args, KvEngineType) !in {Str("sglang"), Str("trtllm"), Str("llamacpp")};
            var before, after := r.endpoints[k], Serialized(r).endpoints[k];
            && |Serialized(r).endpoints| == |r.endpoints|
            && (m in after <==> m in before && (m == EpRole ==> pd) && (m == NixlPort ==> pd && vllm))
            && (m in after ==> after[m] == before[m])
  {
    hide ContextOf, Truthy, SerializedArgs;
    ContextIs(r.args);
  }
}
