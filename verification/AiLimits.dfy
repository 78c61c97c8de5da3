/** What `validateAIConfiguration` refuses, in numbers: the range of every number field, the cache-salt bit and
    the ports of a rank fan-out. */
module AiLimits {
  import opened Text
  import opened RuleFields
  import opened AiSerialize
  import opened AiValidate
  import opened WireContract
  import opened Bits

  predicate Fullproxied(a: Args) { Get(a, Mode) == Num(4.0) }

  //-------------------------------------------------------
  // Number fields
  //-------------------------------------------------------

  function Whole(n: nat): Val { Num(n as real) }

  /** The value is a whole number of the range. */
  ghost predicate WholeIn(v: Val, min: nat, max: nat) { exists n: nat :: min <= n <= max && v == Whole(n) }

  lemma WholeNumbers(v: Val, max: nat)
    ensures Within(v, max) <==> WholeIn(v, 0, max)
    ensures IsPort(v) <==> WholeIn(v, 1, 65535)
    ensures IsPortOrZero(v) <==> WholeIn(v, 0, 65535)
    ensures IsPositive(v) && v.r <= max as real <==> WholeIn(v, 1, max)
  {
    if IsInteger(v) && v.r >= 0.0 {
      var n: nat := v.r.Floor;
      assert v == Whole(n);
    }
  }

  ghost predicate AnyWhole(v: Val) { exists n: nat :: v == Whole(n) }

  lemma WholeAtAll(v: Val)
    ensures IsNonNegative(v) <==> AnyWhole(v)
  {
    if IsInteger(v) && v.r >= 0.0 {
      var n: nat := v.r.Floor;
      assert v == Whole(n);
    }
  }

  /** The largest value of an admission number, and the least and the largest of a ring or P/D one. */
  function AdmissionMax(f: Field): nat
  {
    if f in {FcMaxOutstanding, FcEpMaxInflight, FcPrefillMaxInflight, FcDecodeMaxInflight} then 100_000
    else if f == FcMaxQueueDepth then 65_536
    else if f == FcTenantMaxSharePct then 100
    else 3_600_000
  }

  const ADMISSION_NUMBERS: set<Field> :=
    {FcMaxOutstanding, FcEpMaxInflight, FcPrefillMaxInflight, FcDecodeMaxInflight, FcMaxQueueDepth, FcMaxQueueWaitMs,
     FcTelemetryStaleMs, FcWarmupMs, FcTtftTargetMs, FcTenantMaxSharePct}

  /** On a rule with a pool an admission number is refused exactly when it has a value that is no whole number
      from 0 to its maximum; the P/D ones are looked at on a P/D rule only. */
  lemma AdmissionNumberRefused(r: Rule, f: Field)
    requires f in ADMISSION_NUMBERS && Fullproxied(r.args)
    requires || Truthy(Get(r.args, SseMode)) || Truthy(Get(r.args, PdDisaggMode))
             || (Truthy(Get(r.args, ApiKeyAuth)) && Get(r.args, ApiKeyAuth) != Str("disabled"))
    ensures Raises(r, AdmissionNumber(f)) <==>
              && Get(r.args, f) !in {Undef, Null, Str("")} && !WholeIn(Get(r.args, f), 0, AdmissionMax(f))
              && (f in {FcPrefillMaxInflight, FcDecodeMaxInflight, FcTelemetryStaleMs} ==> Truthy(Get(r.args, PdDisaggMode)))
  {
    hide Truthy, Within, WholeIn, Raises, HasPool, AdmissionIssue, FcNumeric, FcPdOnly, FcMax, AdmissionMax;
    WholeNumbers(Get(r.args, f), AdmissionMax(f));
    AdmissionOnly(r, f);
    NumberFields(f);
    PoolTriggers(r.args);
    NumberIssueIs(r.args, f);
  }

  lemma NumberIssueIs(a: Args, f: Field)
    requires HasPool(a) && FcNumeric(f)
    ensures AdmissionIssue(a, AdmissionNumber(f)) <==>
              && Get(a, f) !in {Undef, Null, Str("")} && !Within(Get(a, f), FcMax(f))
              && (FcPdOnly(f) ==> Truthy(Get(a, PdDisaggMode)))
  {
    hide Truthy, Within, HasPool, FcPdOnly, FcMax, FcNumeric;
  }

  lemma PoolTriggers(a: Args)
    requires Fullproxied(a)
    requires Truthy(Get(a, SseMode)) || Truthy(Get(a, PdDisaggMode)) || (Truthy(Get(a, ApiKeyAuth)) && Get(a, ApiKeyAuth) != Str("disabled"))
    ensures HasPool(a)
  {
    hide Truthy;
  }

  lemma AdmissionOnly(r: Rule, f: Field)
    requires Fullproxied(r.args)
    ensures Raises(r, AdmissionNumber(f)) <==> AdmissionIssue(r.args, AdmissionNumber(f))
  {
    hide AdmissionIssue;
  }

  lemma NumberFields(f: Field)
    requires f in ADMISSION_NUMBERS
    ensures FcNumeric(f) && FcMax(f) == AdmissionMax(f)
    ensures FcPdOnly(f) <==> f in {FcPrefillMaxInflight, FcDecodeMaxInflight, FcTelemetryStaleMs}
  {
  }

  /** The ring numbers of a rule on a consistent-hash selector. */
  lemma RingNumberRefused(r: Rule)
    requires Fullproxied(r.args) && Get(r.args, Sel) in {Num(8.0), Num(10.0)}
    ensures var factor, replication := Get(r.args, ChwblMeanLoadFactor), Get(r.args, ChwblReplication);
            && (Raises(r, LoadFactor) <==> factor !in {Undef, Null, Str("")} && !WholeIn(factor, 100, 300))
            && (Raises(r, Replication) <==> replication !in {Undef, Null, Str("")} && !WholeIn(replication, 1, 1024))
  {
    var factor, replication := Get(r.args, ChwblMeanLoadFactor), Get(r.args, ChwblReplication);
    hide Get, WholeIn;
    WholeNumbers(replication, 1024);
    Between(factor);
  }

  lemma Between(v: Val)
    ensures IsPositive(v) && 100.0 <= v.r <= 300.0 <==> WholeIn(v, 100, 300)
  {
    if IsPositive(v) {
      var n: nat := v.r.Floor;
      assert v == Whole(n);
    }
  }

  lemma FlagsRefused(r: Rule)
    requires Fullproxied(r.args)
    ensures var flags := Get(r.args, ChwblPrefixHashFlags);
            Raises(r, PrefixHashFlags) <==> flags !in {Undef, Null, Str("")} && !WholeIn(flags, 0, 255)
  {
    hide Get, WholeIn, Within;
    WholeNumbers(Get(r.args, ChwblPrefixHashFlags), 255);
  }

  lemma PdOnly(r: Rule)
    requires Fullproxied(r.args) && Truthy(Get(r.args, PdDisaggMode))
    ensures forall i: Issue | i in {PdTtl, PdPrefill, PdCache, PdBalance} :: Raises(r, i) <==> PdTuningIssue(r.args, i)
  {
    hide Get, PdTuningIssue, Truthy;
  }

  /** The P/D numbers of a P/D rule; an absent one is none. */
  lemma PdNumberRefused(r: Rule)
    requires Fullproxied(r.args) && Truthy(Get(r.args, PdDisaggMode))
    ensures var prefill, cache := Get(r.args, PdPrefillTimeoutSec), Get(r.args, PdCacheThreshold);
            var ttl, balance := Get(r.args, PdSessionTtlSec), Get(r.args, PdBalanceAbsThreshold);
            && (Raises(r, PdPrefill) <==> !prefill.Undef? && !WholeIn(prefill, 0, 3600))
            && (Raises(r, PdCache) <==> !cache.Undef? && !WholeIn(cache, 0, 100))
            && (Raises(r, PdTtl) <==> !ttl.Undef? && !AnyWhole(ttl))
            && (Raises(r, PdBalance) <==> !balance.Undef? && !AnyWhole(balance))
  {
    hide Get, WholeIn, Within, AnyWhole, IsNonNegative, Raises;
    PdOnly(r);
    WholeNumbers(Get(r.args, PdPrefillTimeoutSec), 3600);
    WholeNumbers(Get(r.args, PdCacheThreshold), 100);
    WholeAtAll(Get(r.args, PdSessionTtlSec));
    WholeAtAll(Get(r.args, PdBalanceAbsThreshold));
  }

  //-------------------------------------------------------
  // The cache-salt bit
  //-------------------------------------------------------

  lemma CacheSaltIsBit3(n: nat)
    ensures CacheSaltBit(Num(n as real)) <==> And(n, 8) != 0
  {
    assert (n as real).Floor == n;
    AndEight(n);
  }

  lemma AndEight(n: nat)
    ensures And(n, 8) == n / 8 % 2 * 8
  {
    AndOne(n / 2 / 2 / 2);
    Halves(n);
    assert And(n / 2 / 2, 2) == 2 * And(n / 2 / 2 / 2, 1);
    assert And(n / 2, 4) == 2 * And(n / 2 / 2, 2);
    assert And(n, 8) == 2 * And(n / 2, 4);
  }

  lemma AndOne(n: nat)
    ensures And(n, 1) == n % 2
  {
    assert And(n / 2, 0) == 0;
  }

  lemma Halves(n: nat)
    ensures n / 2 / 2 / 2 == n / 8
  {
  }

  /** A ring rule that requires the cache salt is refused for its flags exactly when they are not 0 and leave out
      the bit of value 8. */
  lemma CacheSaltRefused(r: Rule, n: nat)
    requires Fullproxied(r.args) && Get(r.args, Sel) in {Num(8.0), Num(10.0)}
    requires Get(r.args, ChwblEnableCacheSalt) == Bool(true) && Get(r.args, ChwblPrefixHashFlags) == Num(n as real)
    ensures Raises(r, CacheSalt) <==> n != 0 && And(n, 8) == 0
  {
    hide And, CacheSaltBit;
    CacheSaltIsBit3(n);
  }

  //-------------------------------------------------------
  // The ports of a rank fan-out
  //-------------------------------------------------------

  predicate TcpPort(p: nat) { 1 <= p <= 65535 }
  function RankPort(first: nat, rank: nat): nat { first + rank }

  /** An SGLang rule that routes on KV events, with `ranks` ranks from port `port` on, is refused for its ports
      exactly when the port of some rank is no TCP port. */
  lemma FanOutRefused(r: Rule, port: nat, ranks: nat)
    requires Fullproxied(r.args) && Get(r.args, KvEngineType) == Str("sglang")
    requires Get(r.args, KvExactMode) == Num(if Truthy(Get(r.args, PdDisaggMode)) then 1.0 else 3.0)
    requires Get(r.args, KvZmqPort) == Whole(port) && TcpPort(port)
    requires Get(r.args, KvDpRankCount) == Whole(ranks)
    ensures Raises(r, DpRankCount) <==> !(1 <= ranks <= 8)
    ensures 1 <= ranks <= 8 ==> (Raises(r, ZmqFanOut) <==> exists k: nat :: k < ranks && !TcpPort(RankPort(port, k)))
  {
    hide Truthy, Get;
    ZmqOnly(r);
    assert (port as real).Floor == port && (ranks as real).Floor == ranks;
    if port + ranks > 65536 && ranks > 0 { assert !TcpPort(RankPort(port, ranks - 1)); }
  }

  lemma ZmqOnly(r: Rule)
    requires Fullproxied(r.args)
    ensures forall i: Issue | i in {DpRankCount, ZmqFanOut} :: Raises(r, i) <==> ZmqIssue(r.args, i)
  {
  }

  //-------------------------------------------------------
  // Lists of texts, and settings off fullproxy
  //-------------------------------------------------------

  /** A set hash is refused exactly when it is none of the engine's. */
  lemma HashRefused(r: Rule)
    requires Fullproxied(r.args) && Truthy(Get(r.args, KvHashAlgo))
    ensures var hash, engine := Get(r.args, KvHashAlgo), Get(r.args, KvEngineType);
            (exists e: Engine :: Raises(r, HashAlgo(hash, e))) <==>
              hash !in (if engine == Str("sglang") then {Str("sha256_sglang")}
                        else if engine == Str("trtllm") then {Str("blockhash_trtllm")}
                        else if engine == Str("llamacpp") then {}
                        else {Str("sha256_cbor"), Str("xxhash_cbor")})
  {
    hide Get, Truthy;
    forall e: Engine
      ensures Raises(r, HashAlgo(Get(r.args, KvHashAlgo), e)) <==> KvIssue(r.args, HashAlgo(Get(r.args, KvHashAlgo), e))
    {
      HashOnly(r, e);
    }
    hide Raises;
    assert KvIssue(r.args, HashAlgo(Get(r.args, KvHashAlgo), ResolveEngine(r.args))) <==>
           Get(r.args, KvHashAlgo) !in AllowedHashes(ResolveEngine(r.args));
  }

  lemma HashOnly(r: Rule, e: Engine)
    requires Fullproxied(r.args)
    ensures Raises(r, HashAlgo(Get(r.args, KvHashAlgo), e)) <==> KvIssue(r.args, HashAlgo(Get(r.args, KvHashAlgo), e))
  {
    hide KvIssue;
  }

  /** A prefix hash level given as a number is refused exactly when it is none of 1, 2 and 3. */
  lemma LevelRefused(r: Rule, n: nat)
    requires Fullproxied(r.args) && Get(r.args, ChwblPrefixHashLevel) == Whole(n)
    ensures Raises(r, PrefixHashLevel) <==> !(1 <= n <= 3)
  {
    hide Get;
  }

  ghost predicate Zeros(s: string) { s != "" && forall c | c in s :: c == '0' }

  /** `0:0:0`, each with any number of digits. */
  ghost predicate Reset(v: Val)
  {
    v.Str? && exists a, b, c :: Zeros(a) && Zeros(b) && Zeros(c) && v.s == Join([a, b, c], ":")
  }

  lemma ResetIs(v: Val)
    ensures ResetTriple(v) <==> Reset(v)
  {
    hide Split, Join;
    if v.Str? {
      var parts := Split(v.s, ':');
      JoinSplit(v.s, ':');
      if ResetTriple(v) {
        assert parts == [parts[0], parts[1], parts[2]];
        forall k | 0 <= k < 3
          ensures Zeros(parts[k])
        {
          assert parts[k] in parts;
        }
      }
      forall a, b, c | Zeros(a) && Zeros(b) && Zeros(c) && v.s == Join([a, b, c], ":")
        ensures ResetTriple(v)
      {
        SplitJoin([a, b, c], ':');
        assert parts == [a, b, c];
      }
    }
  }

  predicate AdmissionSetting(f: Field) { f in ADMISSION }

  /** The AI settings of a rule. */
  predicate AiSetting(f: Field)
  {
    AdmissionSetting(f) || f in KV || f in PD || f in PROFILE || f in PREFIX_HASH || f in AI_SETTINGS
  }

  lemma AiSettingIs(f: Field)
    ensures AiSetting(f) <==> AiOnly(f)
    ensures AdmissionSetting(f) <==> Admission(f)
  {
    hide Admission, KvField, PdTuning;
    AdmissionIs(f);
    WireContract.KvIs(f);
    PdIs(f);
  }

  /** Off fullproxy a rule is refused exactly when it still declares an AI setting: not absent, not blank, not off,
      and not what the form or the gateway has by default. */
  lemma OffFullproxyRefused(r: Rule)
    requires !Fullproxied(r.args)
    ensures Raises(r, NeedsFullproxy) <==> exists f :: AiSetting(f) && Declared(f, Get(r.args, f))
  {
    hide Get, Declares, AiSetting, Declared, AiOnly;
    forall f
      ensures Declares(f, Get(r.args, f)) <==> AiSetting(f) && Declared(f, Get(r.args, f))
    {
      DeclaredIs(f, Get(r.args, f));
    }
  }

  ghost predicate Declared(f: Field, v: Val)
  {
    && !v.Undef? && v != Str("") && v != Bool(false) && v != Num(0.0)
    && !(f.KvEngineType? && v == Str("vllm")) && !(f.KvBlockSize? && v == Num(16.0))
    && !(f.KvZmqPort? && v == Num(5557.0)) && !(f.KvDpRankCount? && v == Num(1.0))
    && !(AdmissionSetting(f) && (v == Str("inherit") || Reset(v)))
  }

  lemma DeclaredIs(f: Field, v: Val)
    ensures Declares(f, v) <==> AiSetting(f) && Declared(f, v)
  {
    hide AiSetting, AiOnly, Admission, AdmissionSetting, Reset, ResetTriple;
    AiSettingIs(f);
    ResetIs(v);
  }
}
