/** `validateAIConfiguration`: which issues a draft raises, the loops that collect
    them, and that serialising a draft never adds one. */
module AiValidate {
  import opened RuleFields
  import opened AiSerialize

  /** One member per refusal; the ones with a parameter name what they refuse. */
  datatype Issue =
    | NeedsFullproxy
    // topology and engine
    | ExactModeRange | Exact1NeedsPd | Exact3NeedsSingleRole | TrtllmPdNeedsExact1 | LlamacppRefusesPd
    // CHWBL
    | PrefixHashNeedsChwbl | PrefixHashLevel | PrefixHashFlags | LoadFactor | Replication | CacheSalt
    // streaming and P/D tuning
    | StreamDuration | Keepalive | PdTtl | PdPrefill | PdCache | PdBalance
    // KV routing
    | BlockSize | Warmup | HashAlgo(algo: Val, engine: Engine) | BootstrapPort | BootstrapNeedsSglang
    | ZmqPort | DpRankCount | ZmqFanOut | TrtllmZmq | LlamacppExact | LlamacppHash | LlamacppZmq | LlamacppBlock
    // model profile
    | ProfileNeedsExact | ApiModeNeedsExact | ApiModeUnknown
    // admission
    | AdmissionMode | AdaptiveMode | HeadersMode | AdmissionNumber(field: Field) | QueueWait
    // endpoints
    | NeedsPrefill | NeedsDecode | NixlRange | NeedsRoleless(topology: Topology) | NixlNeedsPd

  function ExactOf(a: Args): Val { Or(Get(a, KvExactMode), Num(0.0)) }

  /** An AI setting a rule off fullproxy still declares. */
  predicate Declares(f: Field, v: Val)
  {
    && AiOnly(f)
    && !v.Undef? && v != Str("") && v != Bool(false) && v != Num(0.0)
    && !(f.KvEngineType? && v == Str("vllm"))
    && !(f.KvBlockSize? && v == Num(16.0))
    && !(f.KvZmqPort? && v == Num(5557.0))
    && !(f.KvDpRankCount? && v == Num(1.0))
    && !(Admission(f) && (v == Str("inherit") || ResetTriple(v)))
  }

  function AllowedHashes(e: Engine): set<Val>
  {
    match e
    case Vllm => {Str("sha256_cbor"), Str("xxhash_cbor")}
    case Sglang => {Str("sha256_sglang")}
    case Trtllm => {Str("blockhash_trtllm")}
    case Llamacpp => {}
  }

  predicate TopologyIssue(a: Args, i: Issue)
  {
    var e, t, x := ResolveEngine(a), ResolveTopology(a), ExactOf(a);
    match i
    case ExactModeRange => x == Num(2.0) || x !in {Num(0.0), Num(1.0), Num(3.0)}
    case Exact1NeedsPd => x == Num(1.0) && !t.Pd?
    case Exact3NeedsSingleRole => x == Num(3.0) && !t.SingleRole?
    case TrtllmPdNeedsExact1 => t.Pd? && e.Trtllm? && x != Num(1.0)
    case LlamacppRefusesPd => t.Pd? && e.Llamacpp?
    case _ => false
  }

  predicate ChwblIssue(a: Args, i: Issue)
  {
    var level, flags := Get(a, ChwblPrefixHashLevel), Get(a, ChwblPrefixHashFlags);
    var factor, replication := Get(a, ChwblMeanLoadFactor), Get(a, ChwblReplication);
    match i
    case PrefixHashNeedsChwbl => (HasValue(level) || HasValue(flags)) && !ChwblSelector(a)
    case PrefixHashLevel => HasValue(level) && ToNumber(level) !in {Num(1.0), Num(2.0), Num(3.0)}
    case PrefixHashFlags => HasValue(flags) && !Within(flags, 255)
    case LoadFactor => ChwblSelector(a) && HasValue(factor) && !(IsPositive(factor) && 100.0 <= factor.r <= 300.0)
    case Replication => ChwblSelector(a) && HasValue(replication) && !(IsPositive(replication) && replication.r <= 1024.0)
    case CacheSalt =>
      ChwblSelector(a) && Get(a, ChwblEnableCacheSalt) == Bool(true) && HasValue(flags)
      && ToNumber(flags) != Num(0.0) && !CacheSaltBit(ToNumber(flags))
    case _ => false
  }

  predicate PdTuningIssue(a: Args, i: Issue)
  {
    match i
    case PdTtl => !Get(a, PdSessionTtlSec).Undef? && !IsNonNegative(Get(a, PdSessionTtlSec))
    case PdPrefill => !Get(a, PdPrefillTimeoutSec).Undef? && !Within(Get(a, PdPrefillTimeoutSec), 3600)
    case PdCache => !Get(a, PdCacheThreshold).Undef? && !Within(Get(a, PdCacheThreshold), 100)
    case PdBalance => !Get(a, PdBalanceAbsThreshold).Undef? && !IsNonNegative(Get(a, PdBalanceAbsThreshold))
    case _ => false
  }

  predicate TuningIssue(a: Args, i: Issue)
  {
    match i
    case StreamDuration => !Get(a, MaxStreamDurationSec).Undef? && !IsNonNegative(Get(a, MaxStreamDurationSec))
    case Keepalive => !Get(a, BackendKeepaliveIntervalSec).Undef? && !IsNonNegative(Get(a, BackendKeepaliveIntervalSec))
    case _ => ResolveTopology(a).Pd? && PdTuningIssue(a, i)
  }

  /** Event routing as the validator reads it. */
  predicate ExactEvents(a: Args)
  {
    ResolveTopology(a).SingleRole? || (ResolveTopology(a).Pd? && ExactOf(a) == Num(1.0))
  }

  predicate KvIssue(a: Args, i: Issue)
  {
    var e, x := ResolveEngine(a), ExactOf(a);
    var hash, boot := Get(a, KvHashAlgo), Get(a, PdBootstrapPort);
    match i
    case BlockSize => x != Num(0.0) && !IsPositive(Get(a, KvBlockSize))
    case Warmup => x != Num(0.0) && !Get(a, KvWarmupSec).Undef? && !IsNonNegative(Get(a, KvWarmupSec))
    case HashAlgo(algo, engine) => algo == hash && engine == e && Truthy(hash) && hash !in AllowedHashes(e)
    case BootstrapPort => !boot.Undef? && !IsPortOrZero(boot)
    case BootstrapNeedsSglang => Or(boot, Num(0.0)) != Num(0.0) && !(e.Sglang? && ResolveTopology(a).Pd?)
    case _ => false
  }

  predicate ZmqIssue(a: Args, i: Issue)
  {
    var e, zmq := ResolveEngine(a), Get(a, KvZmqPort);
    var rank, port := Or(Get(a, KvDpRankCount), Num(1.0)), Or(zmq, Num(5557.0));
    match i
    case ZmqPort => ExactEvents(a) && (e.Vllm? || e.Sglang?) && !zmq.Undef? && !IsPort(zmq)
    case DpRankCount => ExactEvents(a) && e.Sglang? && !(IsPositive(rank) && rank.r <= 8.0)
    case ZmqFanOut => ExactEvents(a) && e.Sglang? && IsPositive(rank) && rank.r <= 8.0 && IsPort(port) && port.r + rank.r - 1.0 > 65535.0
    case _ => false
  }

  predicate EngineIssue(a: Args, i: Issue)
  {
    var e, zmq, block := ResolveEngine(a), Get(a, KvZmqPort), Get(a, KvBlockSize);
    match i
    case TrtllmZmq => e.Trtllm? && !zmq.Undef? && zmq !in {Num(0.0), Num(5557.0)}
    case LlamacppExact => e.Llamacpp? && ExactOf(a) != Num(0.0)
    case LlamacppHash => e.Llamacpp? && Truthy(Get(a, KvHashAlgo))
    case LlamacppZmq => e.Llamacpp? && !zmq.Undef? && zmq !in {Num(0.0), Num(5557.0)}
    case LlamacppBlock => e.Llamacpp? && !block.Undef? && block !in {Num(0.0), Num(16.0)}
    case _ => false
  }

  predicate ProfileIssue(a: Args, i: Issue)
  {
    var x, api := ExactOf(a), Get(a, KvExactApiMode);
    match i
    case ProfileNeedsExact => HasValue(Get(a, KvModelProfile)) && x == Num(0.0)
    case ApiModeNeedsExact => HasValue(api) && x == Num(0.0)
    case ApiModeUnknown => HasValue(api) && api !in {Str("completions"), Str("chat"), Str("both")}
    case _ => false
  }

  const SWITCH: set<Val> := {Str("on"), Str("off"), Str("inherit")}

  predicate AdmissionIssue(a: Args, i: Issue)
  {
    var depth := Get(a, FcMaxQueueDepth);
    HasPool(a) &&
    match i
    case AdmissionMode => HasValue(Get(a, FcMode)) && Get(a, FcMode) !in {Str("off"), Str("observe"), Str("enforce"), Str("inherit")}
    case AdaptiveMode => HasValue(Get(a, FcAdaptive)) && Get(a, FcAdaptive) !in SWITCH
    case HeadersMode => HasValue(Get(a, FcExposeHeaders)) && Get(a, FcExposeHeaders) !in SWITCH
    case AdmissionNumber(f) =>
      FcNumeric(f) && (FcPdOnly(f) ==> ResolveTopology(a).Pd?) && HasValue(Get(a, f)) && !Within(Get(a, f), FcMax(f))
    case QueueWait => IsNonNegative(depth) && depth.r > 0.0 && !IsPositive(Get(a, FcMaxQueueWaitMs))
    case _ => false
  }

  function Member(e: Endpoint, m: EndpointField): Val { if m in e then e[m] else Undef }

  predicate SomeRole(es: seq<Endpoint>, role: int) { exists k :: 0 <= k < |es| && Member(es[k], EpRole) == Num(role as real) }
  predicate BadNixl(v: Val) { !v.Undef? && !IsPortOrZero(v) }
  predicate SetMember(v: Val) { !v.Undef? && v != Num(0.0) }

  predicate EndpointIssue(a: Args, es: seq<Endpoint>, i: Issue)
  {
    var e, t := ResolveEngine(a), ResolveTopology(a);
    match i
    case NeedsPrefill => t.Pd? && !SomeRole(es, 1)
    case NeedsDecode => t.Pd? && !SomeRole(es, 2)
    case NixlRange => t.Pd? && e.Vllm? && exists k :: 0 <= k < |es| && BadNixl(Member(es[k], NixlPort))
    case NeedsRoleless(topology) => !t.Pd? && topology == t && exists k :: 0 <= k < |es| && SetMember(Member(es[k], EpRole))
    case NixlNeedsPd => !t.Pd? && exists k :: 0 <= k < |es| && SetMember(Member(es[k], NixlPort))
    case _ => false
  }

  /** What the gateway would refuse of the rule. */
  ghost predicate Raises(r: Rule, i: Issue)
  {
    var a := r.args;
    if !Fullproxy(a) then i.NeedsFullproxy? && exists f :: Declares(f, Get(a, f))
    else
      || TopologyIssue(a, i) || ChwblIssue(a, i) || TuningIssue(a, i) || KvIssue(a, i) || ZmqIssue(a, i) || EngineIssue(a, i)
      || ProfileIssue(a, i) || AdmissionIssue(a, i) || EndpointIssue(a, r.endpoints, i)
  }

  //-------------------------------------------------------
  // The validator
  //-------------------------------------------------------

  method ValidateTopology(a: Args) returns (issues: seq<Issue>)
    ensures forall i :: i in issues <==> TopologyIssue(a, i)
  {
    var e, t, x := ResolveEngine(a), ResolveTopology(a), ExactOf(a);
    hide ResolveEngine, ResolveTopology, ExactOf;
    issues := [];
    if x == Num(2.0) || x !in {Num(0.0), Num(1.0), Num(3.0)} { issues := issues + [ExactModeRange]; }
    if x == Num(1.0) && !t.Pd? { issues := issues + [Exact1NeedsPd]; }
    if x == Num(3.0) && !t.SingleRole? { issues := issues + [Exact3NeedsSingleRole]; }
    if t.Pd? && e.Trtllm? && x != Num(1.0) { issues := issues + [TrtllmPdNeedsExact1]; }
    if t.Pd? && e.Llamacpp? { issues := issues + [LlamacppRefusesPd]; }
  }

  method ValidateChwbl(a: Args) returns (issues: seq<Issue>)
    ensures forall i :: i in issues <==> ChwblIssue(a, i)
  {
    hide ChwblSelector, ToNumber, CacheSaltBit, Get, HasValue;
    var level, flags := Get(a, ChwblPrefixHashLevel), Get(a, ChwblPrefixHashFlags);
    issues := [];
    if (HasValue(level) || HasValue(flags)) && !ChwblSelector(a) { issues := issues + [PrefixHashNeedsChwbl]; }
    if HasValue(level) && ToNumber(level) !in {Num(1.0), Num(2.0), Num(3.0)} { issues := issues + [PrefixHashLevel]; }
    if HasValue(flags) && !Within(flags, 255) { issues := issues + [PrefixHashFlags]; }
    if ChwblSelector(a) {
      var factor, replication, n := Get(a, ChwblMeanLoadFactor), Get(a, ChwblReplication), ToNumber(flags);
      if HasValue(factor) && (!IsPositive(factor) || factor.r < 100.0 || factor.r > 300.0) { issues := issues + [LoadFactor]; }
      if HasValue(replication) && (!IsPositive(replication) || replication.r > 1024.0) { issues := issues + [Replication]; }
      if Get(a, ChwblEnableCacheSalt) == Bool(true) && HasValue(flags) && n != Num(0.0) && !CacheSaltBit(n) { issues := issues + [CacheSalt]; }
    }
  }

  method ValidatePdTuning(a: Args) returns (issues: seq<Issue>)
    ensures forall i :: i in issues <==> PdTuningIssue(a, i)
  {
    hide Get, IsNonNegative, Within;
    var ttl, prefill := Get(a, PdSessionTtlSec), Get(a, PdPrefillTimeoutSec);
    var cache, balance := Get(a, PdCacheThreshold), Get(a, PdBalanceAbsThreshold);
    issues := [];
    if !ttl.Undef? && !IsNonNegative(ttl) { issues := issues + [PdTtl]; }
    if !prefill.Undef? && !Within(prefill, 3600) { issues := issues + [PdPrefill]; }
    if !cache.Undef? && !Within(cache, 100) { issues := issues + [PdCache]; }
    if !balance.Undef? && !IsNonNegative(balance) { issues := issues + [PdBalance]; }
  }

  method ValidateTuning(a: Args) returns (issues: seq<Issue>)
    ensures forall i :: i in issues <==> TuningIssue(a, i)
  {
    hide Get, ResolveTopology, IsNonNegative, Within;
    issues := [];
    var stream, keepalive := Get(a, MaxStreamDurationSec), Get(a, BackendKeepaliveIntervalSec);
    if !stream.Undef? && !IsNonNegative(stream) { issues := issues + [StreamDuration]; }
    if !keepalive.Undef? && !IsNonNegative(keepalive) { issues := issues + [Keepalive]; }
    if ResolveTopology(a).Pd? {
      var tuning := ValidatePdTuning(a);
      issues := issues + tuning;
    }
  }

  method ValidateKv(a: Args) returns (issues: seq<Issue>)
    ensures forall i :: i in issues <==> KvIssue(a, i)
  {
    hide Get, ResolveTopology, ResolveEngine, ExactOf, IsNonNegative, IsPortOrZero, Truthy, AllowedHashes, Or;
    var e, x := ResolveEngine(a), ExactOf(a);
    var hash, boot := Get(a, KvHashAlgo), Get(a, PdBootstrapPort);
    issues := [];
    if x != Num(0.0) && !IsPositive(Get(a, KvBlockSize)) { issues := issues + [BlockSize]; }
    if x != Num(0.0) && !Get(a, KvWarmupSec).Undef? && !IsNonNegative(Get(a, KvWarmupSec)) { issues := issues + [Warmup]; }
    if Truthy(hash) && hash !in AllowedHashes(e) { issues := issues + [HashAlgo(hash, e)]; }
    if !boot.Undef? && !IsPortOrZero(boot) { issues := issues + [BootstrapPort]; }
    if Or(boot, Num(0.0)) != Num(0.0) && !(e.Sglang? && ResolveTopology(a).Pd?) { issues := issues + [BootstrapNeedsSglang]; }
  }

  method ValidateZmq(a: Args) returns (issues: seq<Issue>)
    ensures forall i :: i in issues <==> ZmqIssue(a, i)
  {
    hide Get, ExactEvents, ResolveEngine, Or;
    var e, zmq := ResolveEngine(a), Get(a, KvZmqPort);
    issues := [];
    if ExactEvents(a) && (e.Vllm? || e.Sglang?) && !zmq.Undef? && !IsPort(zmq) { issues := issues + [ZmqPort]; }
    if ExactEvents(a) && e.Sglang? {
      var rank, port := Or(Get(a, KvDpRankCount), Num(1.0)), Or(zmq, Num(5557.0));
      if !IsPositive(rank) || rank.r > 8.0 {
        issues := issues + [DpRankCount];
      } else if IsPort(port) && port.r + rank.r - 1.0 > 65535.0 {
        issues := issues + [ZmqFanOut];
      }
    }
  }

  method ValidateEngine(a: Args) returns (issues: seq<Issue>)
    ensures forall i :: i in issues <==> EngineIssue(a, i)
  {
    hide Get, ResolveEngine, ExactOf, Truthy;
    var e, zmq, block := ResolveEngine(a), Get(a, KvZmqPort), Get(a, KvBlockSize);
    issues := [];
    if e.Trtllm? {
      if !zmq.Undef? && zmq !in {Num(0.0), Num(5557.0)} { issues := issues + [TrtllmZmq]; }
    }
    if e.Llamacpp? {
      if ExactOf(a) != Num(0.0) { issues := issues + [LlamacppExact]; }
      if Truthy(Get(a, KvHashAlgo)) { issues := issues + [LlamacppHash]; }
      if !zmq.Undef? && zmq !in {Num(0.0), Num(5557.0)} { issues := issues + [LlamacppZmq]; }
      if !block.Undef? && block !in {Num(0.0), Num(16.0)} { issues := issues + [LlamacppBlock]; }
    }
  }

  method ValidateProfile(a: Args) returns (issues: seq<Issue>)
    ensures forall i :: i in issues <==> ProfileIssue(a, i)
  {
    hide Get, ExactOf, HasValue;
    var x, api := ExactOf(a), Get(a, KvExactApiMode);
    issues := [];
    if HasValue(Get(a, KvModelProfile)) && x == Num(0.0) { issues := issues + [ProfileNeedsExact]; }
    if HasValue(api) {
      if x == Num(0.0) { issues := issues + [ApiModeNeedsExact]; }
      if api !in {Str("completions"), Str("chat"), Str("both")} { issues := issues + [ApiModeUnknown]; }
    }
  }

  method ValidateAdmission(a: Args) returns (issues: seq<Issue>)
    ensures forall i :: i in issues <==> AdmissionIssue(a, i)
  {
    hide Get, HasPool, HasValue, ResolveTopology, FcMax, FcPdOnly;
    issues := [];
    if !HasPool(a) { return; }
    if HasValue(Get(a, FcMode)) && Get(a, FcMode) !in {Str("off"), Str("observe"), Str("enforce"), Str("inherit")} { issues := issues + [AdmissionMode]; }
    if HasValue(Get(a, FcAdaptive)) && Get(a, FcAdaptive) !in SWITCH { issues := issues + [AdaptiveMode]; }
    if HasValue(Get(a, FcExposeHeaders)) && Get(a, FcExposeHeaders) !in SWITCH { issues := issues + [HeadersMode]; }
    for k := 0 to |FC_NUMERIC|
      invariant forall i :: i in issues <==>
                              if i.AdmissionNumber? then i.field in FC_NUMERIC[..k] && NumberIssue(a, i.field)
                              else !i.QueueWait? && AdmissionIssue(a, i)
    {
      var f := FC_NUMERIC[k];
      if (FcPdOnly(f) ==> ResolveTopology(a).Pd?) && HasValue(Get(a, f)) && !Within(Get(a, f), FcMax(f)) {
        issues := issues + [AdmissionNumber(f)];
      }
    }
    NumericList();
    var depth := Get(a, FcMaxQueueDepth);
    if IsNonNegative(depth) && depth.r > 0.0 && !IsPositive(Get(a, FcMaxQueueWaitMs)) { issues := issues + [QueueWait]; }
  }

  predicate NumberIssue(a: Args, f: Field)
  {
    (FcPdOnly(f) ==> ResolveTopology(a).Pd?) && HasValue(Get(a, f)) && !Within(Get(a, f), FcMax(f))
  }

  lemma NumericList()
    ensures forall f :: f in FC_NUMERIC[..|FC_NUMERIC|] <==> FcNumeric(f)
  {
    assert FC_NUMERIC[..|FC_NUMERIC|] == FC_NUMERIC;
  }

  method ValidateEndpoints(a: Args, es: seq<Endpoint>) returns (issues: seq<Issue>)
    ensures forall i :: i in issues <==> EndpointIssue(a, es, i)
  {
    hide ResolveEngine, ResolveTopology, BadNixl, SetMember, SomeRole;
    var e, t := ResolveEngine(a), ResolveTopology(a);
    issues := [];
    if t.Pd? {
      if !SomeRole(es, 1) { issues := issues + [NeedsPrefill]; }
      if !SomeRole(es, 2) { issues := issues + [NeedsDecode]; }
      if e.Vllm? && exists k :: 0 <= k < |es| && BadNixl(Member(es[k], NixlPort)) { issues := issues + [NixlRange]; }
      return;
    }
    if exists k :: 0 <= k < |es| && SetMember(Member(es[k], EpRole)) { issues := issues + [NeedsRoleless(t)]; }
    if exists k :: 0 <= k < |es| && SetMember(Member(es[k], NixlPort)) { issues := issues + [NixlNeedsPd]; }
  }

  method Validate(r: Rule) returns (issues: seq<Issue>)
    ensures forall i :: i in issues <==> Raises(r, i)
  {
    hide TopologyIssue, ChwblIssue, TuningIssue, KvIssue, ZmqIssue, EngineIssue, ProfileIssue, AdmissionIssue, EndpointIssue, Declares;
    var a := r.args;
    if Get(a, Mode) != Num(4.0) {
      DeclaredPresent(a);
      return if exists f | f in a :: Declares(f, a[f]) then [NeedsFullproxy] else [];
    }
    var topology := ValidateTopology(a);
    var chwbl := ValidateChwbl(a);
    var tuning := ValidateTuning(a);
    var kv := ValidateKv(a);
    var zmq := ValidateZmq(a);
    var engine := ValidateEngine(a);
    var profile := ValidateProfile(a);
    var admission := ValidateAdmission(a);
    var endpoints := ValidateEndpoints(a, r.endpoints);
    issues := topology + chwbl + tuning + kv + zmq + engine + profile + admission + endpoints;
  }

  lemma DeclaredPresent(a: Args)
    ensures (exists f :: Declares(f, Get(a, f))) <==> exists f | f in a :: Declares(f, a[f])
  {
    if f :| Declares(f, Get(a, f)) {
      assert f in a && Declares(f, a[f]);
    }
    hide Declares;
    if f :| f in a && Declares(f, a[f]) {
      assert Declares(f, Get(a, f));
    }
  }

  //-------------------------------------------------------
  // Serialising adds no issue
  //-------------------------------------------------------

  /** Reading an argument off the wire of a fullproxy rule. */
  lemma ReadWire(a: Args, f: Field)
    requires Fullproxy(a) && !ReadOnly(f) && !TlsString(f) && !f.MtlsBackend?
    ensures Get(SerializedArgs(a), f) == if AiTravels(f, Get(a, f), ContextOf(a)) then Get(a, f) else Undef
  {
    hide AiTravels, ContextOf;
    GetSerialized(a, f);
    ContextParts(a);
    if f in a {
      assert Travels(f, a[f], ContextOf(a)) == AiTravels(f, a[f], ContextOf(a));
      assert Wire(f, a[f], ContextOf(a).tls) == a[f];
    }
  }

  /** What serialising a fullproxy rule does to the arguments other issues read. */
  lemma SerializedReads(a: Args)
    requires Fullproxy(a)
    ensures var s, c := SerializedArgs(a), ContextOf(a);
            && ResolveEngine(s) == ResolveEngine(a) && ResolveTopology(s) == After(c).topology && Fullproxy(s)
            && ChwblSelector(s) == ChwblSelector(a) && HasPool(s) == HasPool(a)
            && ExactOf(s) == (if KvTravels(c) then ExactOf(a) else Num(0.0))
            && c.engine == ResolveEngine(a) && c.topology == ResolveTopology(a) && c.full && c.chwbl == ChwblSelector(a) && c.pool == HasPool(a)
            && c.exactOne == (ExactOf(a) == Num(1.0))
  {
    hide SerializedArgs, HasPool, BackendTlsApplies, ChwblSelector, RequiresJwt, ResolveEngine, ResolveTopology, ContextOf;
    ContextSerialized(a);
    ContextParts(a);
    ContextParts(SerializedArgs(a));
    ExactKept(a);
  }

  lemma TopologyNotAdded(a: Args, i: Issue)
    requires Fullproxy(a) && TopologyIssue(SerializedArgs(a), i)
    ensures TopologyIssue(a, i)
  {
    hide SerializedArgs, ContextOf, HasPool, ChwblSelector, ExactOf;
    SerializedReads(a);
    SingleRoleIsThree(a);
  }

  lemma SingleRoleIsThree(a: Args)
    ensures ResolveTopology(a).SingleRole? ==> ExactOf(a) == Num(3.0)
    ensures ExactOf(a) == Num(3.0) && !ResolveTopology(a).SingleRole? ==> ResolveTopology(a).Pd?
  {
  }

  /** Which part of the contract an argument falls under. */
  datatype Part = HashPart | TuningPart | PdPart | KvPart | AdmissionPart | NoPart

  function PartOf(f: Field): Part
  {
    if f.ChwblPrefixHashLevel? || f.ChwblPrefixHashFlags? then HashPart
    else if ChwblTuning(f) then TuningPart
    else if PdTuning(f) then PdPart
    else if KvField(f) then KvPart
    else if FcField(f) then AdmissionPart
    else NoPart
  }

  lemma RoutingUnruled(f: Field, c: Context)
    requires PartOf(f) in {HashPart, TuningPart, AdmissionPart} || f.MaxStreamDurationSec? || f.BackendKeepaliveIntervalSec?
    ensures RoutingTravels(f, c)
  {
    hide KvTravels;
  }

  lemma NoPoolField(f: Field)
    requires PartOf(f) in {HashPart, TuningPart, PdPart, KvPart} || f.MaxStreamDurationSec? || f.BackendKeepaliveIntervalSec?
    ensures !Admission(f) && !FcPdOnly(f) && !f.KvModelProfile? && !f.KvExactApiMode?
  {
  }

  lemma PoolUnruled(f: Field, v: Val, c: Context)
    requires PartOf(f) in {HashPart, TuningPart, PdPart, KvPart} || f.MaxStreamDurationSec? || f.BackendKeepaliveIntervalSec?
    ensures PoolTravels(f, v, c)
  {
    hide KvTravels, HasValue, PartOf, Admission, FcPdOnly;
    NoPoolField(f);
  }

  lemma TuningRouted(f: Field, c: Context)
    requires f.MaxStreamDurationSec? || f.BackendKeepaliveIntervalSec? || PdTuning(f)
    ensures RoutingTravels(f, c) <==> (PdTuning(f) ==> c.topology.Pd?)
  {
    hide KvTravels;
  }

  lemma TuningParts(f: Field)
    requires f.MaxStreamDurationSec? || f.BackendKeepaliveIntervalSec? || PdTuning(f)
    ensures PartOf(f).PdPart? || f.MaxStreamDurationSec? || f.BackendKeepaliveIntervalSec?
  {
  }

  lemma PolicyUnruled(f: Field, v: Val, c: Context)
    requires PartOf(f) in {PdPart, AdmissionPart} || f.MaxStreamDurationSec? || f.BackendKeepaliveIntervalSec?
    ensures PolicyTravels(f, v, c)
  {
    hide HasValue, Truthy;
  }

  lemma PlainFields(f: Field)
    ensures !PartOf(f).NoPart? || f.MaxStreamDurationSec? || f.BackendKeepaliveIntervalSec? ==> !ReadOnly(f) && !TlsString(f) && !f.MtlsBackend?
  {
  }

  lemma AdmissionFields(f: Field)
    ensures FcField(f) ==> PartOf(f).AdmissionPart? && Admission(f) && !f.KvModelProfile? && !f.KvExactApiMode?
  {
  }

  /** An argument the contract lets through only when it has a value. */
  lemma ValueKept(a: Args, f: Field)
    requires Fullproxy(a)
    requires f.ChwblPrefixHashLevel? || f.ChwblPrefixHashFlags? || ChwblTuning(f)
    ensures var v := Get(SerializedArgs(a), f);
            if HasValue(Get(a, f)) && (ChwblTuning(f) ==> ChwblSelector(a)) then v == Get(a, f) else v.Undef?
  {
    hide SerializedArgs, ContextOf, HasValue, ChwblSelector, RoutingTravels, PoolTravels, Truthy;
    PlainFields(f);
    ReadWire(a, f);
    ContextParts(a);
    RoutingUnruled(f, ContextOf(a));
    PoolUnruled(f, Get(a, f), ContextOf(a));
  }

  lemma ChwblNotAdded(a: Args, i: Issue)
    requires Fullproxy(a) && ChwblIssue(SerializedArgs(a), i)
    ensures ChwblIssue(a, i)
  {
    hide SerializedArgs, ContextOf, HasPool, ChwblSelector, ExactOf, ToNumber, CacheSaltBit;
    SerializedReads(a);
    ValueKept(a, ChwblPrefixHashLevel);
    ValueKept(a, ChwblPrefixHashFlags);
    ValueKept(a, ChwblMeanLoadFactor);
    ValueKept(a, ChwblReplication);
    ValueKept(a, ChwblEnableCacheSalt);
    hide ChwblTuning;
  }

  lemma TuningKept(a: Args, f: Field)
    requires Fullproxy(a)
    requires f.MaxStreamDurationSec? || f.BackendKeepaliveIntervalSec? || PdTuning(f)
    ensures Get(SerializedArgs(a), f) == if PdTuning(f) && !ResolveTopology(a).Pd? then Undef else Get(a, f)
  {
    hide SerializedArgs, ContextOf, PoolTravels, PolicyTravels, RoutingTravels, PartOf, PdTuning, ReadOnly, TlsString, Fullproxy, HasPool;
    TuningParts(f);
    PlainFields(f);
    ReadWire(a, f);
    ContextParts(a);
    TuningRouted(f, ContextOf(a));
    PoolUnruled(f, Get(a, f), ContextOf(a));
    PolicyUnruled(f, Get(a, f), ContextOf(a));
  }

  lemma TuningNotAdded(a: Args, i: Issue)
    requires Fullproxy(a) && TuningIssue(SerializedArgs(a), i)
    ensures TuningIssue(a, i)
  {
    hide SerializedArgs, ContextOf, HasPool, ChwblSelector, ExactOf;
    SerializedReads(a);
    TuningKept(a, MaxStreamDurationSec);
    TuningKept(a, BackendKeepaliveIntervalSec);
    TuningKept(a, PdSessionTtlSec);
    TuningKept(a, PdPrefillTimeoutSec);
    TuningKept(a, PdCacheThreshold);
    TuningKept(a, PdBalanceAbsThreshold);
    hide ResolveTopology;
  }

  lemma KvKept(a: Args, f: Field)
    requires Fullproxy(a)
    requires f.KvBlockSize? || f.KvWarmupSec? || f.KvHashAlgo? || f.KvZmqPort? || f.KvDpRankCount?
    ensures var v, c := Get(SerializedArgs(a), f), ContextOf(a);
            if KvTravels(c) && (f.KvDpRankCount? ==> c.engine.Sglang?) && (f.KvZmqPort? ==> !c.engine.Trtllm?) && (f.KvHashAlgo? ==> Truthy(Get(a, f)))
            then v == Get(a, f) else v.Undef?
  {
    hide SerializedArgs, ContextOf, HasValue, KvTravels, Truthy, PoolTravels;
    ReadWire(a, f);
    PoolUnruled(f, Get(a, f), ContextOf(a));
  }

  lemma BootstrapKept(a: Args)
    requires Fullproxy(a)
    ensures Get(SerializedArgs(a), PdBootstrapPort) ==
            if ResolveTopology(a).Pd? && ResolveEngine(a).Sglang? then Get(a, PdBootstrapPort) else Undef
  {
    hide SerializedArgs, ContextOf, HasValue;
    ReadWire(a, PdBootstrapPort);
    ContextParts(a);
  }

  lemma KvNotAdded(a: Args, i: Issue)
    requires Fullproxy(a) && KvIssue(SerializedArgs(a), i)
    ensures KvIssue(a, i)
  {
    hide SerializedArgs, ContextOf, HasPool, ChwblSelector, ExactOf, ResolveTopology, ResolveEngine;
    SerializedReads(a);
    SingleRoleIsThree(a);
    KvKept(a, KvBlockSize);
    KvKept(a, KvWarmupSec);
    KvKept(a, KvHashAlgo);
    BootstrapKept(a);
  }

  lemma ZmqNotAdded(a: Args, i: Issue)
    requires Fullproxy(a) && ZmqIssue(SerializedArgs(a), i)
    ensures ZmqIssue(a, i)
  {
    hide SerializedArgs, ContextOf, HasPool, ChwblSelector, ExactOf, ResolveTopology, ResolveEngine;
    SerializedReads(a);
    SingleRoleIsThree(a);
    KvKept(a, KvZmqPort);
    KvKept(a, KvDpRankCount);
  }

  /** Nothing an engine cannot take is left on the wire. */
  lemma EngineSatisfied(a: Args, i: Issue)
    requires Fullproxy(a)
    ensures !EngineIssue(SerializedArgs(a), i)
  {
    hide SerializedArgs, ContextOf, HasPool, ChwblSelector, ExactOf, ResolveTopology, ResolveEngine;
    SerializedReads(a);
    KvKept(a, KvBlockSize);
    KvKept(a, KvHashAlgo);
    KvKept(a, KvZmqPort);
  }

  lemma ProfileArgKept(a: Args, f: Field)
    requires Fullproxy(a) && (f.KvModelProfile? || f.KvExactApiMode?)
    ensures var v := Get(SerializedArgs(a), f); HasValue(v) ==> KvTravels(ContextOf(a)) && v == Get(a, f)
  {
    hide SerializedArgs, ContextOf, KvTravels;
    ReadWire(a, f);
  }

  lemma ProfileNotAdded(a: Args, i: Issue)
    requires Fullproxy(a) && ProfileIssue(SerializedArgs(a), i)
    ensures ProfileIssue(a, i)
  {
    hide SerializedArgs, ContextOf, HasPool, ChwblSelector, ExactOf, ResolveTopology, ResolveEngine, HasValue;
    SerializedReads(a);
    ProfileArgKept(a, KvModelProfile);
    ProfileArgKept(a, KvExactApiMode);
  }

  lemma AdmissionKept(a: Args, f: Field)
    requires Fullproxy(a) && HasPool(a) && FcField(f)
    ensures var v := Get(SerializedArgs(a), f);
            if HasValue(Get(a, f)) && (FcPdOnly(f) ==> ResolveTopology(a).Pd?) then v == Get(a, f) else v.Undef?
  {
    hide SerializedArgs, ContextOf, HasValue, HasPool, ResolveTopology, RoutingTravels, PolicyTravels, Admission, FcField, FcPdOnly, ReadOnly, TlsString, PartOf;
    AdmissionFields(f);
    PlainFields(f);
    ReadWire(a, f);
    ContextParts(a);
    RoutingUnruled(f, ContextOf(a));
    PolicyUnruled(f, Get(a, f), ContextOf(a));
  }

  lemma AdmissionNotAdded(a: Args, i: Issue)
    requires Fullproxy(a) && AdmissionIssue(SerializedArgs(a), i)
    ensures AdmissionIssue(a, i)
  {
    hide SerializedArgs, ContextOf, HasPool, ChwblSelector, ExactOf, ResolveTopology, ResolveEngine;
    SerializedReads(a);
    AdmissionKept(a, FcMode);
    AdmissionKept(a, FcAdaptive);
    AdmissionKept(a, FcExposeHeaders);
    AdmissionKept(a, FcMaxQueueDepth);
    AdmissionKept(a, FcMaxQueueWaitMs);
    if i.AdmissionNumber? { AdmissionKept(a, i.field); }
  }

  lemma EndpointsNotAdded(r: Rule, i: Issue)
    requires Fullproxy(r.args) && EndpointIssue(SerializedArgs(r.args), Serialized(r).endpoints, i)
    ensures EndpointIssue(r.args, r.endpoints, i)
  {
    hide SerializedArgs, ContextOf, HasPool, ChwblSelector, ExactOf, ResolveTopology, ResolveEngine;
    var a, c, es, out := r.args, ContextOf(r.args), r.endpoints, Serialized(r).endpoints;
    SerializedReads(a);
    forall k | 0 <= k < |es|
      ensures Member(out[k], EpRole) == if c.topology.Pd? then Member(es[k], EpRole) else Undef
      ensures Member(out[k], NixlPort) == if c.topology.Pd? && c.engine.Vllm? then Member(es[k], NixlPort) else Undef
    {
      assert out[k] == SerializedEndpoint(es[k], c);
    }
  }

  lemma OffFullproxyClean(a: Args, f: Field)
    requires !Fullproxy(a)
    ensures !Fullproxy(SerializedArgs(a)) && !Declares(f, Get(SerializedArgs(a), f))
  {
    hide SerializedArgs;
    SelectorKept(a, Mode);
    GetSerialized(a, f);
    ContextParts(a);
    hide ContextOf, Wire;
  }

  /** Whatever the wire body would be refused for, the draft is refused for too: a valid draft stays valid. */
  lemma SerializingAddsNoIssue(r: Rule, i: Issue)
    ensures Raises(Serialized(r), i) ==> Raises(r, i)
  {
    if Raises(Serialized(r), i) { IssueOfDraft(r, i); }
  }

  lemma IssueOfDraft(r: Rule, i: Issue)
    requires Raises(Serialized(r), i)
    ensures Raises(r, i)
  {
    hide SerializedArgs, TopologyIssue, ChwblIssue, TuningIssue, KvIssue, ZmqIssue, EngineIssue, ProfileIssue, AdmissionIssue, EndpointIssue, Declares;
    var a, s := r.args, SerializedArgs(r.args);
    if !Fullproxy(a) {
      OffFullproxyClean(a, Mode);
      forall f ensures !Declares(f, Get(s, f)) { OffFullproxyClean(a, f); }
    } else {
      SerializedReads(a);
      EngineSatisfied(a, i);
      if TopologyIssue(s, i) { TopologyNotAdded(a, i); }
      if ChwblIssue(s, i) { ChwblNotAdded(a, i); }
      if TuningIssue(s, i) { TuningNotAdded(a, i); }
      if KvIssue(s, i) { KvNotAdded(a, i); }
      if ZmqIssue(s, i) { ZmqNotAdded(a, i); }
      if ProfileIssue(s, i) { ProfileNotAdded(a, i); }
      if AdmissionIssue(s, i) { AdmissionNotAdded(a, i); }
      if EndpointIssue(s, Serialized(r).endpoints, i) { EndpointsNotAdded(r, i); }
    }
  }

  //-------------------------------------------------------
  // The circuit breaker over a recreate
  //-------------------------------------------------------

  /** The breaker a create puts in force: an omitted value is on for a P/D rule, off otherwise. */
  predicate BreakerInForce(a: Args)
  {
    match Get(a, CbEnable) case Bool(b) => b case _ => Truthy(Get(a, PdDisaggMode))
  }

  /** What GET reports of a rule: the breaker when it is on, and nothing when it is off. */
  function ReadBack(a: Args, on: bool): Args
  {
    if on then a[CbEnable := Bool(true)] else a - {CbEnable}
  }

  /** `circuitBreakerEditSeed`: the read-back pinned explicitly on a fullproxy rule. */
  function EditSeed(readBack: Args): Args
  {
    if Fullproxy(readBack) then readBack[CbEnable := Bool(Get(readBack, CbEnable) == Bool(true))] else readBack
  }

  lemma BreakerArg(a: Args)
    ensures Get(SerializedArgs(a), CbEnable) == if Fullproxy(a) then Get(a, CbEnable) else Undef
  {
    hide SerializedArgs, ContextOf;
    GetSerialized(a, CbEnable);
    ContextParts(a);
  }

  /** Recreating a fullproxy rule from its seeded read-back keeps the breaker as it
      was; without the seed it is switched on exactly for a P/D rule that had it off. */
  lemma RecreateKeepsBreaker(a: Args, on: bool)
    requires Fullproxy(a)
    ensures BreakerInForce(SerializedArgs(EditSeed(ReadBack(a, on)))) == on
    ensures BreakerInForce(SerializedArgs(ReadBack(a, on))) == on <==> on || !Truthy(Get(a, PdDisaggMode))
  {
    hide SerializedArgs, ContextOf;
    var read := ReadBack(a, on);
    BreakerArg(read);
    BreakerArg(EditSeed(read));
    DisaggKept(read);
    ContextParts(read);
  }
}
