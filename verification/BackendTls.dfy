/** `validateBackendTls`, against what `serializeBackendTls` sends. */
module BackendTls {
  import opened Text
  import opened RuleFields
  import AiSerialize
  import Percent

  datatype Issue =
    | CaMissing | CaWithoutVerification | CaInvalid | ClientInvalid
    | NameTooLong | NameIsAddress | NameNotDns

  /** A certificate ID names a directory: at most 63 bytes, no separator, no `..`. */
  predicate IsCertId(id: string)
  {
    && Trim(id) != "" && |Percent.Utf8(id)| <= 63
    && '/' !in id && '\\' !in id && '\0' !in id && id != "." && !Contains(id, "..")
  }

  /** The length in UTF-16 code units. */
  function Units(s: string): nat
  {
    if s == "" then 0 else (if s[0] as int >= 0x1_0000 then 2 else 1) + Units(s[1..])
  }

  predicate LabelChar(c: char) { Percent.AlphaNumeric(c) || c == '-' }

  predicate DnsLabel(s: string)
  {
    && 0 < |s| <= 63 && Percent.AlphaNumeric(s[0]) && Percent.AlphaNumeric(s[|s| - 1])
    && forall c | c in s :: LabelChar(c)
  }

  predicate DottedQuad(s: string)
  {
    var parts := Split(s, '.');
    |parts| == 4 && forall p | p in parts :: IsDecimal(p) && |p| <= 3
  }

  /** What is wrong with a server name; none when it is blank or a DNS name. */
  function ServerNameIssue(name: string): Option<Issue>
  {
    if name == "" then None
    else if Units(name) > 253 then Some(NameTooLong)
    else if DottedQuad(name) || ':' in name then Some(NameIsAddress)
    else if exists part | part in Split(name, '.') :: !DnsLabel(part) then Some(NameNotDns)
    else None
  }

  predicate Verifies(a: Args)
  {
    var m := Get(a, MtlsBackend);
    m.Obj? && AiSerialize.VERIFY in m.members && Truthy(m.members[AiSerialize.VERIFY])
  }

  /** The request as the gateway judges it. */
  datatype Request = Request(applies: bool, verify: bool, ca: string, client: string, name: string)

  function RequestOf(a: Args): Request
  {
    Request(BackendTlsApplies(a), Verifies(a), AiSerialize.TrimmedText(Get(a, BackendCaCertId)),
            AiSerialize.TrimmedText(Get(a, BackendClientCertId)), AiSerialize.TrimmedText(Get(a, BackendTlsServerName)))
  }

  predicate Requested(r: Request) { r.verify || r.ca != "" || r.client != "" || r.name != "" }

  predicate Raises(i: Issue, r: Request)
  {
    && r.applies && Requested(r)
    && match i
       case CaMissing => r.verify && r.ca == ""
       case CaWithoutVerification => !r.verify && r.ca != ""
       case CaInvalid => r.ca != "" && !IsCertId(r.ca)
       case ClientInvalid => r.client != "" && !IsCertId(r.client)
       case _ => ServerNameIssue(r.name) == Some(i)
  }

  /** Appends an issue when it is raised. */
  method Push(issues: seq<Issue>, i: Issue, raised: bool) returns (r: seq<Issue>)
    ensures forall j :: j in r <==> j in issues || (raised && j == i)
  {
    r := if raised then issues + [i] else issues;
  }

  method ValidateBackendTls(a: Args) returns (issues: seq<Issue>)
    ensures forall i :: i in issues <==> Raises(i, RequestOf(a))
  {
    hide IsCertId, ServerNameIssue, RequestOf;
    issues := [];
    var r := RequestOf(a);
    if !r.applies || !Requested(r) { return; }
    issues := Push(issues, CaMissing, r.verify && r.ca == "");
    issues := Push(issues, CaWithoutVerification, !r.verify && r.ca != "");
    issues := Push(issues, CaInvalid, r.ca != "" && !IsCertId(r.ca));
    issues := Push(issues, ClientInvalid, r.client != "" && !IsCertId(r.client));
    NameIssues(r.name);
    var nameIssue := ServerNameIssue(r.name);
    if nameIssue.Some? { issues := issues + [nameIssue.value]; }
  }

  lemma NameIssues(name: string)
    ensures var i := ServerNameIssue(name); i.Some? ==> i.value.NameTooLong? || i.value.NameIsAddress? || i.value.NameNotDns?
  {
    hide Units, DottedQuad, DnsLabel, Split;
  }

  lemma TextSent(a: Args, f: Field)
    requires TlsString(f)
    ensures AiSerialize.TrimmedText(Get(AiSerialize.SerializedArgs(a), f)) ==
            if BackendTlsApplies(a) then AiSerialize.TrimmedText(Get(a, f)) else ""
  {
    hide AiSerialize.SerializedArgs, BackendTlsApplies, AiSerialize.KeptMtls, AiSerialize.PolicyTravels,
      AiSerialize.RoutingTravels, AiSerialize.PoolTravels, HasPool, ChwblSelector, RequiresJwt, ResolveTopology;
    AiSerialize.GetSerialized(a, f);
    var c := AiSerialize.ContextOf(a);
    if f in a {
      AiSerialize.TlsUnruled(f, a[f], c);
      TlsTravelsAlone(f, a[f], c);
    }
  }

  /** A backend TLS member travels on its own rule alone. */
  lemma TlsTravelsAlone(f: Field, v: Val, c: AiSerialize.Context)
    requires TlsString(f) || f.MtlsBackend?
    ensures AiSerialize.Travels(f, v, c) <==> AiSerialize.TlsTravels(f, v, c.tls)
  {
    hide AiSerialize.TlsTravels, AiSerialize.AiTravels;
    AiSerialize.TlsUnruled(f, v, c);
  }

  lemma KeptVerifies(m: map<string, Val>, applies: bool)
    ensures var kept := AiSerialize.KeptMtls(m, applies);
            && (AiSerialize.VERIFY in kept && Truthy(kept[AiSerialize.VERIFY])
                <==> applies && AiSerialize.VERIFY in m && Truthy(m[AiSerialize.VERIFY]))
            && (kept == map[] ==> AiSerialize.VERIFY !in kept)
  {
  }

  lemma VerificationSent(a: Args)
    ensures Verifies(AiSerialize.SerializedArgs(a)) == (BackendTlsApplies(a) && Verifies(a))
  {
    hide AiSerialize.SerializedArgs, AiSerialize.KeptMtls, BackendTlsApplies, AiSerialize.Travels, HasPool, ChwblSelector, RequiresJwt,
      ResolveTopology, AiSerialize.TrimmedText;
    AiSerialize.GetSerialized(a, MtlsBackend);
    if MtlsBackend in a {
      TlsTravelsAlone(MtlsBackend, a[MtlsBackend], AiSerialize.ContextOf(a));
      if a[MtlsBackend].Obj? { KeptVerifies(a[MtlsBackend].members, BackendTlsApplies(a)); }
    }
  }

  lemma AppliesSent(a: Args)
    ensures BackendTlsApplies(AiSerialize.SerializedArgs(a)) == BackendTlsApplies(a)
  {
    hide AiSerialize.SerializedArgs;
    AiSerialize.SelectorKept(a, Mode);
    AiSerialize.SelectorKept(a, Security);
  }

  /** The wire body is judged exactly as the draft was: serialising neither adds nor hides an issue. */
  lemma SerializingKeepsTlsIssues(a: Args, i: Issue)
    ensures Raises(i, RequestOf(AiSerialize.SerializedArgs(a))) <==> Raises(i, RequestOf(a))
  {
    hide AiSerialize.SerializedArgs, BackendTlsApplies, Verifies, AiSerialize.TrimmedText, IsCertId, ServerNameIssue;
    TextSent(a, BackendCaCertId);
    TextSent(a, BackendClientCertId);
    TextSent(a, BackendTlsServerName);
    VerificationSent(a);
    AppliesSent(a);
  }
}
