/** The arguments of a load-balancer rule as a JSON object, and the field lists
    of src/types/ai_gateway.ts. */
module RuleFields {
  import opened Text

  /** A JavaScript value as a form or a read-back carries it. `Undef` is also
      what an absent member reads as. */
  datatype Val =
    | Undef
    | Null
    | Bool(b: bool)
    | NaN
    | Num(r: real)
    | Str(s: string)
    | Obj(members: map<string, Val>)

  datatype Field =
    | Mode | Security | Sel | CbEnable
    // returned on GET, ignored on input
    | FcEffective | HalfCloseEffective | BackendTlsEffective
    // backend TLS
    | BackendCaCertId | BackendClientCertId | BackendTlsServerName | MtlsBackend
    // CHWBL ring tuning
    | ChwblMeanLoadFactor | ChwblReplication | ChwblEnableCacheSalt
    // AI routing
    | ModelName | ApiKeyAuth | JwtAuthProfile | TraceType | SessionHeaderName
    | ChwblPrefixHashLevel | ChwblPrefixHashFlags | SseMode | MaxStreamDurationSec | BackendKeepaliveIntervalSec
    | PdDisaggMode | PdCacheAwareMode | PdSessionTtlSec | PdPrefillTimeoutSec | PdCacheThreshold | PdBalanceAbsThreshold
    | KvExactMode | KvBlockSize | KvHashAlgo | KvZmqPort | KvWarmupSec | KvEngineType | KvDpRankCount
    | PdBootstrapPort | KvModelProfile | KvExactApiMode
    // admission
    | FcMode | FcAdaptive | FcExposeHeaders
    | FcMaxOutstanding | FcEpMaxInflight | FcPrefillMaxInflight | FcDecodeMaxInflight | FcMaxQueueDepth
    | FcMaxQueueWaitMs | FcTelemetryStaleMs | FcWarmupMs | FcTtftTargetMs | FcTenantMaxSharePct
    | FcWakePolicy | FcBandWeights | FcBandMinSharePct | FcBandQueuePct | FcBandWaitMs | FcCriticalReservePct
    | FcShedQueue | FcTenantWake | FcLlmdHeaders
    | AiDefaultReservation | AiDefaultMaxTokens | AiObjectiveStrict
    // every member no rule below names
    | Other(name: string)

  type Args = map<Field, Val>

  predicate ReadOnly(f: Field)
  {
    f.FcEffective? || f.HalfCloseEffective? || f.BackendTlsEffective?
  }

  predicate TlsString(f: Field)
  {
    f.BackendCaCertId? || f.BackendClientCertId? || f.BackendTlsServerName?
  }

  predicate ChwblTuning(f: Field)
  {
    f.ChwblMeanLoadFactor? || f.ChwblReplication? || f.ChwblEnableCacheSalt?
  }

  predicate KvField(f: Field)
  {
    f.KvExactMode? || f.KvBlockSize? || f.KvHashAlgo? || f.KvZmqPort? || f.KvWarmupSec? || f.KvDpRankCount?
  }

  predicate PdTuning(f: Field)
  {
    f.PdCacheAwareMode? || f.PdSessionTtlSec? || f.PdPrefillTimeoutSec? || f.PdCacheThreshold? ||
    f.PdBalanceAbsThreshold?
  }

  predicate FcPdOnly(f: Field)
  {
    f.FcPrefillMaxInflight? || f.FcDecodeMaxInflight? || f.FcTelemetryStaleMs?
  }

  const FC_NUMERIC: seq<Field> :=
    [FcMaxOutstanding, FcEpMaxInflight, FcPrefillMaxInflight, FcDecodeMaxInflight, FcMaxQueueDepth,
     FcMaxQueueWaitMs, FcTelemetryStaleMs, FcWarmupMs, FcTtftTargetMs, FcTenantMaxSharePct]

  predicate FcNumeric(f: Field)
  {
    f.FcMaxOutstanding? || f.FcEpMaxInflight? || f.FcPrefillMaxInflight? || f.FcDecodeMaxInflight? ||
    f.FcMaxQueueDepth? || f.FcMaxQueueWaitMs? || f.FcTelemetryStaleMs? || f.FcWarmupMs? || f.FcTtftTargetMs? ||
    f.FcTenantMaxSharePct?
  }

  /** The `fc_*` arguments a rule can set. */
  predicate FcField(f: Field)
  {
    FcNumeric(f) ||
    f.FcMode? || f.FcAdaptive? || f.FcExposeHeaders? || f.FcWakePolicy? || f.FcBandWeights? ||
    f.FcBandMinSharePct? || f.FcBandQueuePct? || f.FcBandWaitMs? || f.FcCriticalReservePct? || f.FcShedQueue? ||
    f.FcTenantWake? || f.FcLlmdHeaders?
  }

  /** What an admission pool reads: the `fc_*` arguments and the three `ai_*` ones. */
  predicate Admission(f: Field)
  {
    FcField(f) ||
    f.AiDefaultReservation? || f.AiDefaultMaxTokens? || f.AiObjectiveStrict?
  }

  predicate AiOnly(f: Field)
  {
    Admission(f) || KvField(f) || PdTuning(f) ||
    f.ModelName? || f.ApiKeyAuth? || f.JwtAuthProfile? || f.TraceType? || f.SessionHeaderName? ||
    f.ChwblPrefixHashLevel? || f.ChwblPrefixHashFlags? || f.SseMode? || f.MaxStreamDurationSec? ||
    f.BackendKeepaliveIntervalSec? || f.PdDisaggMode? || f.KvEngineType? || f.PdBootstrapPort? ||
    f.KvModelProfile? || f.KvExactApiMode?
  }

  function FcMax(f: Field): int
  {
    match f
    case FcMaxOutstanding => 100000
    case FcEpMaxInflight => 100000
    case FcPrefillMaxInflight => 100000
    case FcDecodeMaxInflight => 100000
    case FcMaxQueueDepth => 65536
    case FcTenantMaxSharePct => 100
    case _ => 3600000
  }

  //-------------------------------------------------------
  // Reading values
  //-------------------------------------------------------

  function Get(a: Args, f: Field): Val { if f in a then a[f] else Undef }

  predicate Truthy(v: Val)
  {
    match v
    case Bool(b) => b
    case Num(r) => r != 0.0
    case Str(s) => s != ""
    case Obj(_) => true
    case _ => false
  }

  /** Neither undefined, null nor the empty string (`hasValue`, the negation of `isFcBlank`). */
  predicate HasValue(v: Val) { !v.Undef? && !v.Null? && v != Str("") }

  predicate IsInteger(v: Val) { v.Num? && v.r == v.r.Floor as real }
  predicate IsNonNegative(v: Val) { IsInteger(v) && v.r >= 0.0 }
  predicate IsPositive(v: Val) { IsInteger(v) && v.r > 0.0 }
  predicate IsPort(v: Val) { IsPositive(v) && v.r <= 65535.0 }
  predicate IsPortOrZero(v: Val) { IsNonNegative(v) && v.r <= 65535.0 }
  predicate Within(v: Val, max: int) { IsNonNegative(v) && v.r <= max as real }

  /** `value ?? d`. */
  function Or(v: Val, d: Val): Val { if v.Undef? || v.Null? then d else v }

  /** `Number(value)` for the values a form control produces. */
  function ToNumber(v: Val): Val
  {
    match v
    case Num(_) => v
    case Bool(b) => Num(if b then 1.0 else 0.0)
    case Null => Num(0.0)
    case Str(s) =>
      var t := Trim(s);
      if t == "" then Num(0.0) else if IsDecimal(t) then Num(NumeralValue(t, 10) as real) else NaN
    case _ => NaN
  }

  /** Bit 3 of the 32-bit integer a number converts to. */
  predicate CacheSaltBit(v: Val)
  {
    v.Num? && (if v.r >= 0.0 then v.r.Floor else -((-v.r).Floor)) / 8 % 2 == 1
  }

  datatype Engine = Vllm | Sglang | Trtllm | Llamacpp
  datatype Topology = Plain | Pd | SingleRole

  function EngineOf(v: Val): Engine
  {
    if v == Str("sglang") then Sglang else if v == Str("trtllm") then Trtllm else if v == Str("llamacpp") then Llamacpp else Vllm
  }

  function ResolveEngine(a: Args): Engine { EngineOf(Get(a, KvEngineType)) }

  function ResolveTopology(a: Args): Topology
  {
    if Truthy(Get(a, PdDisaggMode)) then Pd
    else if Get(a, KvExactMode) == Num(3.0) then SingleRole
    else Plain
  }

  predicate Fullproxy(a: Args) { Get(a, Mode) == Num(4.0) }

  /** Whether the gateway runs an admission pool for the rule (`isAIService`). */
  predicate HasPool(a: Args)
  {
    && Fullproxy(a)
    && (Truthy(Get(a, SseMode)) || Truthy(Get(a, PdDisaggMode)) || (Truthy(Get(a, ApiKeyAuth)) && Get(a, ApiKeyAuth) != Str("disabled")))
  }

  predicate ChwblSelector(a: Args) { Get(a, Sel) == Num(8.0) || Get(a, Sel) == Num(10.0) }

  predicate RequiresJwt(policy: Val) { policy == Str("jwt") || policy == Str("apikey-or-jwt") }

  predicate BackendTlsApplies(a: Args) { Fullproxy(a) && Get(a, Security) == Num(2.0) }

  /** `0:0:0`, with any number of digits in each place. */
  predicate ResetTriple(v: Val)
  {
    v.Str? && var parts := Split(v.s, ':');
              |parts| == 3 && forall p | p in parts :: p != "" && forall c | c in p :: c == '0'
  }
}
