/** Whole-rule replaces of a fullproxy rule: what the form sends, what travels, and what edits leave behind. */
module FullproxyReplace {
  import opened Text
  import opened RuleFields
  import opened RuleWire
  import AiSerialize

  //-------------------------------------------------------
  // What the form sends
  //-------------------------------------------------------

  predicate FcNamed(f: Field) { FcField(f) || f.FcEffective? || (f.Other? && "fc_" <= f.name) }

  predicate Inheritable(f: Field) { f.FcMode? || f.FcAdaptive? || f.FcExposeHeaders? }

  /** What the gateway derives or observes. */
  predicate Derived(f: Field) { ReadOnly(f) || f == Other("managed") || f == Other("id") }

  predicate Blank(v: Val) { v.Undef? || v.Null? || v == Str("") }

  /** The patch as a replace can carry it: a blanked admission choice becomes `inherit`, a blanked
      admission number is no change. */
  predicate Carries(patch: Args, f: Field)
  {
    f in patch && (FcNamed(f) && Blank(patch[f]) ==> Inheritable(f))
  }

  function CarriedValue(patch: Args, f: Field): Val
    requires f in patch
  {
    if FcNamed(f) && Blank(patch[f]) then Str("inherit") else patch[f]
  }

  method ReplaceableChanges(patch: Args) returns (out: Args)
    ensures forall f :: f in out <==> Carries(patch, f)
    ensures forall f | f in out :: f in patch && out[f] == CarriedValue(patch, f)
  {
    hide FcNamed, Inheritable;
    out := map[];
    var rest := patch.Keys;
    while rest != {}
      invariant rest <= patch.Keys
      invariant forall f :: f in out <==> f in patch.Keys - rest && Carries(patch, f)
      invariant forall f | f in out :: out[f] == CarriedValue(patch, f)
      decreases |rest|
    {
      var field :| field in rest;
      var value := patch[field];
      rest := rest - {field};
      if !FcNamed(field) || !Blank(value) {
        out := out[field := value];
      } else if Inheritable(field) {
        out := out[field := Str("inherit")];
      }
    }
  }

  datatype Endpoint = Endpoint(settings: AiSerialize.Endpoint, state: string, counter: string)

  datatype Edit = Edit(patch: Args, endpoints: Option<seq<AiSerialize.Endpoint>>, secondaryIPs: Option<seq<string>>,
                       allowedSources: Option<seq<string>>)

  /** A rule as the gateway returns it. */
  datatype Fresh = Fresh(args: Args, endpoints: seq<Endpoint>, secondaryIPs: seq<string>, allowedSources: seq<string>)

  /** A whole-rule request, and the settable part of a rule as the gateway stores it. */
  datatype Body = Body(args: Args, endpoints: seq<AiSerialize.Endpoint>, secondaryIPs: seq<string>,
                       allowedSources: seq<string>)

  function Settings(endpoints: seq<Endpoint>): seq<AiSerialize.Endpoint>
  {
    seq(|endpoints|, i requires 0 <= i < |endpoints| => endpoints[i].settings)
  }

  function OrElse<T>(o: Option<T>, d: T): T { if o.Some? then o.value else d }

  function BuildBody(live: Fresh, edit: Edit): Body
  {
    var kept := map f | f in live.args && !Derived(f) :: live.args[f];
    Body(kept + edit.patch, OrElse(edit.endpoints, Settings(live.endpoints)),
         OrElse(edit.secondaryIPs, live.secondaryIPs), OrElse(edit.allowedSources, live.allowedSources))
  }

  /** The body as it is posted. */
  function Posted(b: Body): Body
  {
    var w := Wired(AiSerialize.Rule(b.args, b.endpoints, map[]));
    b.(args := w.args, endpoints := w.endpoints)
  }

  /** The choices that blank to `inherit`, and a patch member by member: blanks of other admission members are not
      carried, every other blank and every value is as the form gave it. */
  lemma BlanksCarried(patch: Args, f: Field)
    requires f in patch
    ensures (f in {FcMode, FcAdaptive, FcExposeHeaders} && patch[f] in {Undef, Null, Str("")}) ==>
              Carries(patch, f) && CarriedValue(patch, f) == Str("inherit")
    ensures (f in {FcMaxOutstanding, FcEpMaxInflight, FcPrefillMaxInflight, FcDecodeMaxInflight, FcMaxQueueDepth,
                   FcMaxQueueWaitMs, FcTelemetryStaleMs, FcWarmupMs, FcTtftTargetMs, FcTenantMaxSharePct}
             && patch[f] in {Undef, Null, Str("")}) ==> !Carries(patch, f)
    ensures (f in {ApiKeyAuth, JwtAuthProfile, ModelName, Sel, ChwblReplication, BackendCaCertId} || f == Other("host")) ==>
              Carries(patch, f) && CarriedValue(patch, f) == patch[f]
    ensures patch[f] !in {Undef, Null, Str("")} ==> Carries(patch, f) && CarriedValue(patch, f) == patch[f]
  {
    assert "host"[0] == 'h' && "fc_"[0] == 'f';
  }

  /** The body carries the rule as read but for what the gateway derives, and the patch over it. */
  lemma BodyCarries(live: Fresh, edit: Edit, f: Field)
    ensures var args := BuildBody(live, edit).args;
            if f in edit.patch then f in args && args[f] == edit.patch[f]
            else && (f in args <==> f in live.args && f !in {FcEffective, HalfCloseEffective, BackendTlsEffective}
                                    && f != Other("managed") && f != Other("id"))
                 && (f in args ==> args[f] == live.args[f])
  {
  }

  //-------------------------------------------------------
  // The gateway's replace rule
  //-------------------------------------------------------

  /** How the gateway stores a value sent for a member; none when it stores nothing. */
  type Norm = (Field, Val) -> Option<Val>

  /** The members the gateway keeps when a replace leaves them out; every other one is cleared. */
  type Keeps = Field -> bool

  /** The kept members the application counts on. */
  ghost predicate Documented(keeps: Keeps) { forall f :: FcNamed(f) || f.ApiKeyAuth? ==> keeps(f) }

  function At(args: Args, f: Field): Option<Val> { if f in args then Some(args[f]) else None }

  /** A member after a replace; `undefined` is omitted from a JSON body. */
  function MemberReplaced(f: Field, sent: Option<Val>, before: Option<Val>, norm: Norm, keeps: Keeps): Option<Val>
  {
    if sent.Some? && !sent.value.Undef? then norm(f, sent.value) else if keeps(f) then before else None
  }

  function Replaced(before: Body, body: Body, norm: Norm, keeps: Keeps): Body
  {
    body.(args := map f | f in before.args.Keys + body.args.Keys &&
                          MemberReplaced(f, At(body.args, f), At(before.args, f), norm, keeps).Some? ::
                    MemberReplaced(f, At(body.args, f), At(before.args, f), norm, keeps).value)
  }

  /** One save: the edit over the rule as read, posted as a replace of the rule as stored. */
  function Save(before: Body, live: Fresh, edit: Edit, norm: Norm, keeps: Keeps): Body
  {
    Replaced(before, Posted(BuildBody(live, edit)), norm, keeps)
  }

  /** What the gateway stores is settable, and sent back it is stored as it was. */
  ghost predicate Canonical(s: Body, norm: Norm)
  {
    forall f | f in s.args :: !Derived(f) && norm(f, s.args[f]) == Some(s.args[f])
  }

  /** What the gateway answers to a read: the stored rule and anything it derives. */
  ghost predicate Reads(live: Fresh, s: Body)
  {
    && (forall f | !Derived(f) :: At(live.args, f) == At(s.args, f))
    && Settings(live.endpoints) == s.endpoints
    && live.secondaryIPs == s.secondaryIPs && live.allowedSources == s.allowedSources
  }

  //-------------------------------------------------------
  // What an edit does
  //-------------------------------------------------------

  /** The stored rule with the edit over it. */
  function Overlay(s: Body, edit: Edit): Args { s.args + edit.patch }

  lemma BodyIsOverlay(live: Fresh, s: Body, edit: Edit, norm: Norm)
    requires Canonical(s, norm) && Reads(live, s)
    ensures BuildBody(live, edit).args == Overlay(s, edit)
  {
    hide Derived;
    var kept := map f | f in live.args && !Derived(f) :: live.args[f];
    forall f
      ensures f in kept <==> f in s.args
      ensures f in kept ==> kept[f] == s.args[f]
    {
      if !Derived(f) { assert At(live.args, f) == At(s.args, f); }
    }
    assert kept == s.args;
  }

  /** The member is sent, with a value, by a rule of this context. */
  predicate Goes(f: Field, v: Val, c: AiSerialize.Context, monitored: bool)
  {
    Sent(f, v, c, monitored) && !SentValue(f, v, c).Undef?
  }

  /** What a replace makes of a member of the body `a`. */
  function Outcome(f: Field, a: Args, before: Option<Val>, norm: Norm, keeps: Keeps): Option<Val>
  {
    var c := AiSerialize.ContextOf(a);
    if f in a && Goes(f, a[f], c, Monitored(a)) then norm(f, SentValue(f, a[f], c))
    else if keeps(f) then before else None
  }

  lemma ReplacedAt(before: Body, body: Body, norm: Norm, keeps: Keeps, f: Field)
    ensures At(Replaced(before, Posted(body), norm, keeps).args, f) == Outcome(f, body.args, At(before.args, f), norm, keeps)
  {
    hide WireArgs, Sent, SentValue, AiSerialize.ContextOf, Monitored;
    SentExactly(body.args, f);
  }

  lemma SavedAt(before: Body, s: Body, live: Fresh, edit: Edit, norm: Norm, keeps: Keeps, f: Field)
    requires Canonical(s, norm) && Reads(live, s)
    ensures At(Save(before, live, edit, norm, keeps).args, f) == Outcome(f, Overlay(s, edit), At(before.args, f), norm, keeps)
  {
    hide Canonical, Reads, BuildBody, Posted, Outcome, MemberReplaced, Replaced, At;
    BodyIsOverlay(live, s, edit, norm);
    ReplacedAt(before, BuildBody(live, edit), norm, keeps, f);
    calc {
      At(Save(before, live, edit, norm, keeps).args, f);
      At(Replaced(before, Posted(BuildBody(live, edit)), norm, keeps).args, f);
      Outcome(f, BuildBody(live, edit).args, At(before.args, f), norm, keeps);
      Outcome(f, Overlay(s, edit), At(before.args, f), norm, keeps);
    }
  }

  /** A stored member an edit leaves alone is unchanged exactly when it still travels, as something the
      gateway stores as it was, or is kept; an edited one is what the gateway makes of what is sent. */
  lemma EditIsExact(s: Body, live: Fresh, edit: Edit, norm: Norm, keeps: Keeps, f: Field)
    requires Canonical(s, norm) && Reads(live, s)
    ensures var a := Overlay(s, edit); var c := AiSerialize.ContextOf(a);
            var before, after := At(s.args, f), At(Save(s, live, edit, norm, keeps).args, f);
            if f in edit.patch then
              after == if Goes(f, edit.patch[f], c, Monitored(a)) then norm(f, SentValue(f, edit.patch[f], c))
                       else if keeps(f) then before else None
            else if f in s.args then
              after == before <==>
                if Goes(f, s.args[f], c, Monitored(a)) then norm(f, SentValue(f, s.args[f], c)) == before else keeps(f)
            else after == None
  {
    hide Save, Reads, Goes, SentValue, AiSerialize.ContextOf, Monitored;
    SavedAt(s, s, live, edit, norm, keeps, f);
  }

  /** A list an edit leaves alone is sent as stored; endpoints travel as the edited rule sends them. */
  lemma ListsSaved(s: Body, live: Fresh, edit: Edit, norm: Norm, keeps: Keeps)
    requires Canonical(s, norm) && Reads(live, s)
    ensures var c, endpoints := AiSerialize.ContextOf(Overlay(s, edit)), OrElse(edit.endpoints, s.endpoints);
            var after := Save(s, live, edit, norm, keeps);
            && after.secondaryIPs == OrElse(edit.secondaryIPs, s.secondaryIPs)
            && after.allowedSources == OrElse(edit.allowedSources, s.allowedSources)
            && |after.endpoints| == |endpoints|
            && forall k | 0 <= k < |endpoints| ::
                 after.endpoints[k] == CleanedMembers(AiSerialize.SerializedEndpoint(endpoints[k], c))
  {
    hide At, Derived, Canonical, AiSerialize.ContextOf, AiSerialize.SerializedEndpoint, CleanedMembers, WireArgs, Overlay;
    BodyIsOverlay(live, s, edit, norm);
  }

  /** The value, stored for the member, is sent and stored as it is by a rule of this context. */
  ghost predicate Resent(f: Field, v: Val, norm: Norm, c: AiSerialize.Context, monitored: bool)
  {
    !Derived(f) && Goes(f, v, c, monitored) && SentValue(f, v, c) == v && norm(f, v) == Some(v)
  }

  /** Every stored member is sent and stored as it is by a rule of this context. */
  ghost predicate Steady(s: Body, norm: Norm, c: AiSerialize.Context, monitored: bool)
  {
    forall f | f in s.args :: Resent(f, s.args[f], norm, c, monitored)
  }

  /** Only the TLS object is sent differently by a rule of another context. */
  lemma SentAlike(f: Field, v: Val, c: AiSerialize.Context, d: AiSerialize.Context)
    requires !f.MtlsBackend?
    ensures SentValue(f, v, c) == SentValue(f, v, d)
  {
  }

  /** An edit may change what the serialiser branches on, so that members it does not name stop travelling:
      exactly those the gateway does not keep are lost. */
  lemma UntouchedLost(s: Body, live: Fresh, edit: Edit, norm: Norm, keeps: Keeps, f: Field)
    requires Reads(live, s) && Steady(s, norm, AiSerialize.ContextOf(s.args), Monitored(s.args))
    requires f in s.args && f !in edit.patch && !f.MtlsBackend?
    ensures var a := Overlay(s, edit);
            At(Save(s, live, edit, norm, keeps).args, f) ==
              if Sent(f, s.args[f], AiSerialize.ContextOf(a), Monitored(a)) || keeps(f) then Some(s.args[f]) else None
  {
    hide Save, Reads, Sent, SentValue, AiSerialize.ContextOf, Monitored;
    SentAlike(f, s.args[f], AiSerialize.ContextOf(s.args), AiSerialize.ContextOf(Overlay(s, edit)));
    SavedAt(s, s, live, edit, norm, keeps, f);
  }

  /** An edit after which every stored member still travels loses nothing it does not name. */
  lemma UntouchedSurvive(s: Body, live: Fresh, edit: Edit, norm: Norm, keeps: Keeps)
    requires Reads(live, s) && Steady(s, norm, AiSerialize.ContextOf(Overlay(s, edit)), Monitored(Overlay(s, edit)))
    ensures forall f | f !in edit.patch :: At(Save(s, live, edit, norm, keeps).args, f) == At(s.args, f)
  {
    hide Save, Reads, Goes, SentValue, AiSerialize.ContextOf, Monitored;
    forall f | f !in edit.patch
      ensures At(Save(s, live, edit, norm, keeps).args, f) == At(s.args, f)
    {
      SavedAt(s, s, live, edit, norm, keeps, f);
    }
  }

  //-------------------------------------------------------
  // Blanks
  //-------------------------------------------------------

  lemma PolicyGoes(v: Val, c: AiSerialize.Context, monitored: bool)
    requires c.full
    ensures Goes(ApiKeyAuth, v, c, monitored) <==> Truthy(v) && !Negative(v)
    ensures v.Str? ==> SentValue(ApiKeyAuth, v, c) == v
  {
  }

  /** A blanked credential policy is not sent and the stored one is kept: after the save the rule is
      without a policy exactly when it was before. Any other policy is sent. */
  lemma PolicyEdit(s: Body, live: Fresh, edit: Edit, norm: Norm, keeps: Keeps)
    requires Canonical(s, norm) && Reads(live, s) && Documented(keeps)
    requires ApiKeyAuth in edit.patch && Fullproxy(Overlay(s, edit))
    ensures var after, policy := At(Save(s, live, edit, norm, keeps).args, ApiKeyAuth), edit.patch[ApiKeyAuth];
            && (!Truthy(policy) ==> after == At(s.args, ApiKeyAuth))
            && (policy.Str? && Truthy(policy) ==> after == norm(ApiKeyAuth, policy))
  {
    hide Save, Reads, Canonical, Goes, SentValue, HasPool, ResolveTopology, ResolveEngine, ChwblSelector, RequiresJwt, BackendTlsApplies;
    SavedAt(s, s, live, edit, norm, keeps, ApiKeyAuth);
    PolicyGoes(edit.patch[ApiKeyAuth], AiSerialize.ContextOf(Overlay(s, edit)), Monitored(Overlay(s, edit)));
  }

  function AsSent(f: Field, v: Val): Option<Val> { Some(v) }
  predicate OnlyDocumented(f: Field) { FcNamed(f) || f.ApiKeyAuth? }

  /** A rule that requires a key cannot be returned to having no policy: the blank changes nothing. */
  lemma PolicyStays(live: Fresh)
    requires Reads(live, Body(map[Mode := Num(4.0), ApiKeyAuth := Str("required")], [], [], []))
    ensures var s := Body(map[Mode := Num(4.0), ApiKeyAuth := Str("required")], [], [], []);
            var blanked := Edit(map[ApiKeyAuth := Undef], None, None, None);
            At(Save(s, live, blanked, AsSent, OnlyDocumented).args, ApiKeyAuth) == Some(Str("required"))
  {
    hide Save, Reads;
    var s := Body(map[Mode := Num(4.0), ApiKeyAuth := Str("required")], [], [], []);
    PolicyEdit(s, live, Edit(map[ApiKeyAuth := Undef], None, None, None), AsSent, OnlyDocumented);
  }

  lemma InheritGoes(f: Field, c: AiSerialize.Context, monitored: bool)
    requires Inheritable(f) && (c.pool ==> c.full)
    ensures Goes(f, Str("inherit"), c, monitored) <==> c.pool
    ensures SentValue(f, Str("inherit"), c) == Str("inherit")
  {
  }

  lemma PoolIsFull(a: Args)
    ensures AiSerialize.ContextOf(a).pool == HasPool(a) && (HasPool(a) ==> AiSerialize.ContextOf(a).full)
  {
  }

  /** The edit carries the form's patch, as `ReplaceableChanges` returns it. */
  ghost predicate FromForm(edit: Edit, patch: Args)
  {
    && (forall g :: g in edit.patch <==> Carries(patch, g))
    && (forall g | g in edit.patch :: g in patch && edit.patch[g] == CarriedValue(patch, g))
  }

  lemma FcIsNotTls(f: Field)
    requires FcNamed(f)
    ensures !f.MtlsBackend?
  {
  }

  lemma SteadyIsCanonical(s: Body, norm: Norm, c: AiSerialize.Context, monitored: bool)
    requires Steady(s, norm, c, monitored)
    ensures Canonical(s, norm)
  {
    hide Goes, SentValue, Derived;
  }

  lemma BlankedChoice(s: Body, live: Fresh, edit: Edit, norm: Norm, keeps: Keeps, f: Field)
    requires Reads(live, s) && Canonical(s, norm) && keeps(f)
    requires f in edit.patch && edit.patch[f] == Str("inherit") && Inheritable(f)
    ensures At(Save(s, live, edit, norm, keeps).args, f) ==
            if HasPool(Overlay(s, edit)) then norm(f, Str("inherit")) else At(s.args, f)
  {
    hide Save, Reads, Canonical, Goes, SentValue, HasPool, AiSerialize.ContextOf, Monitored, Inheritable;
    var a := Overlay(s, edit);
    SavedAt(s, s, live, edit, norm, keeps, f);
    PoolIsFull(a);
    InheritGoes(f, AiSerialize.ContextOf(a), Monitored(a));
  }

  lemma LeftAlone(s: Body, live: Fresh, edit: Edit, norm: Norm, keeps: Keeps, f: Field)
    requires Reads(live, s) && Steady(s, norm, AiSerialize.ContextOf(s.args), Monitored(s.args))
    requires f !in edit.patch && !f.MtlsBackend? && keeps(f)
    ensures At(Save(s, live, edit, norm, keeps).args, f) == At(s.args, f)
  {
    hide Save, Reads, Steady, Goes, Sent, SentValue, AiSerialize.ContextOf, Monitored, Canonical;
    if f in s.args {
      UntouchedLost(s, live, edit, norm, keeps, f);
    } else {
      SteadyIsCanonical(s, norm, AiSerialize.ContextOf(s.args), Monitored(s.args));
      SavedAt(s, s, live, edit, norm, keeps, f);
    }
  }

  /** What blanking an admission member in the form comes to: on a rule with a pool a choice goes back to
      what the gateway inherits; everything else is left as it was. */
  lemma BlankMeans(s: Body, live: Fresh, edit: Edit, patch: Args, norm: Norm, keeps: Keeps, f: Field)
    requires Reads(live, s) && Steady(s, norm, AiSerialize.ContextOf(s.args), Monitored(s.args)) && Documented(keeps)
    requires FromForm(edit, patch) && f in patch && FcNamed(f) && Blank(patch[f])
    ensures At(Save(s, live, edit, norm, keeps).args, f) ==
            if Inheritable(f) && HasPool(Overlay(s, edit)) then norm(f, Str("inherit")) else At(s.args, f)
  {
    hide Save, Reads, Steady, Canonical, HasPool, AiSerialize.ContextOf, Monitored, Overlay, FcNamed, Inheritable, Blank, At;
    SteadyIsCanonical(s, norm, AiSerialize.ContextOf(s.args), Monitored(s.args));
    if Inheritable(f) {
      BlankedChoice(s, live, edit, norm, keeps, f);
    } else {
      FcIsNotTls(f);
      LeftAlone(s, live, edit, norm, keeps, f);
    }
  }

  //-------------------------------------------------------
  // Two edits
  //-------------------------------------------------------

  /** What the gateway stores of a sent value is sent and stored again as it is. */
  ghost predicate Echoes(norm: Norm, c: AiSerialize.Context, monitored: bool)
  {
    forall f, v | Goes(f, v, c, monitored) && norm(f, SentValue(f, v, c)).Some? ::
      Resent(f, norm(f, SentValue(f, v, c)).value, norm, c, monitored)
  }

  /** The rule with the edit over it branches as `c` does. */
  predicate Shaped(s: Body, edit: Edit, c: AiSerialize.Context, monitored: bool)
  {
    AiSerialize.ContextOf(Overlay(s, edit)) == c && Monitored(Overlay(s, edit)) == monitored
  }

  /** What one edit makes of a member. */
  function Edited(f: Field, edit: Edit, before: Option<Val>, norm: Norm, keeps: Keeps, c: AiSerialize.Context,
                  monitored: bool): Option<Val>
  {
    if f !in edit.patch then before
    else if Goes(f, edit.patch[f], c, monitored) then norm(f, SentValue(f, edit.patch[f], c))
    else if keeps(f) then before else None
  }

  lemma SteadyEdit(s: Body, live: Fresh, edit: Edit, norm: Norm, keeps: Keeps, c: AiSerialize.Context, monitored: bool, f: Field)
    requires Steady(s, norm, c, monitored) && Reads(live, s) && Shaped(s, edit, c, monitored)
    ensures At(Save(s, live, edit, norm, keeps).args, f) == Edited(f, edit, At(s.args, f), norm, keeps, c, monitored)
  {
    hide Save, Reads, Goes, SentValue, AiSerialize.ContextOf, Monitored, Derived;
    SavedAt(s, s, live, edit, norm, keeps, f);
  }

  lemma StaysSteady(s: Body, live: Fresh, edit: Edit, norm: Norm, keeps: Keeps, c: AiSerialize.Context, monitored: bool)
    requires Steady(s, norm, c, monitored) && Reads(live, s) && Shaped(s, edit, c, monitored) && Echoes(norm, c, monitored)
    ensures Steady(Save(s, live, edit, norm, keeps), norm, c, monitored)
  {
    hide Save, Reads, Goes, SentValue, Shaped, Resent;
    var after := Save(s, live, edit, norm, keeps);
    forall f | f in after.args
      ensures Resent(f, after.args[f], norm, c, monitored)
    {
      SteadyEdit(s, live, edit, norm, keeps, c, monitored, f);
      assert At(after.args, f) == Some(after.args[f]);
    }
  }

  predicate Disjoint(a: Edit, b: Edit) { forall f | f in a.patch :: f !in b.patch }

  lemma SameMembers(a: Args, b: Args)
    requires forall f :: At(a, f) == At(b, f)
    ensures a == b
  {
    assert forall f :: (f in a <==> At(a, f).Some?) && (f in b <==> At(b, f).Some?);
    assert forall f | f in a :: At(a, f) == Some(a[f]) && At(b, f) == Some(b[f]);
  }

  /** Two edits of different members, each built on a fresh read, none of which changes what the serialiser
      branches on: both survive, and in either order the stored members are the same. */
  lemma DisjointEditsCommute(s: Body, a: Edit, b: Edit, norm: Norm, keeps: Keeps, c: AiSerialize.Context, monitored: bool,
                             live: Fresh, liveA: Fresh, liveB: Fresh)
    requires Steady(s, norm, c, monitored) && Echoes(norm, c, monitored) && Disjoint(a, b)
    requires Reads(live, s) && Shaped(s, a, c, monitored) && Shaped(s, b, c, monitored)
    requires var sa := Save(s, live, a, norm, keeps); Reads(liveA, sa) && Shaped(sa, b, c, monitored)
    requires var sb := Save(s, live, b, norm, keeps); Reads(liveB, sb) && Shaped(sb, a, c, monitored)
    ensures var sa, sb := Save(s, live, a, norm, keeps), Save(s, live, b, norm, keeps);
            var sab, sba := Save(sa, liveA, b, norm, keeps), Save(sb, liveB, a, norm, keeps);
            && sab.args == sba.args
            && (forall f | f in a.patch :: At(sab.args, f) == At(sa.args, f))
            && (forall f | f in b.patch :: At(sab.args, f) == At(sb.args, f))
  {
    hide Save, Reads, Steady, Echoes, Shaped, Goes, SentValue, At;
    var sa, sb := Save(s, live, a, norm, keeps), Save(s, live, b, norm, keeps);
    var sab, sba := Save(sa, liveA, b, norm, keeps), Save(sb, liveB, a, norm, keeps);
    StaysSteady(s, live, a, norm, keeps, c, monitored);
    StaysSteady(s, live, b, norm, keeps, c, monitored);
    forall f
      ensures At(sab.args, f) == At(sba.args, f)
      ensures f in a.patch ==> At(sab.args, f) == At(sa.args, f)
      ensures f in b.patch ==> At(sab.args, f) == At(sb.args, f)
    {
      SteadyEdit(s, live, a, norm, keeps, c, monitored, f);
      SteadyEdit(sa, liveA, b, norm, keeps, c, monitored, f);
      SteadyEdit(s, live, b, norm, keeps, c, monitored, f);
      SteadyEdit(sb, liveB, a, norm, keeps, c, monitored, f);
    }
    SameMembers(sab.args, sba.args);
  }

  /** The reason for the fresh read: an edit built on an older read `s` puts back what `s` had of every member
      it does not name, whatever the rule holds by then. */
  lemma StaleReadReverts(now: Body, s: Body, live: Fresh, edit: Edit, norm: Norm, keeps: Keeps, f: Field)
    requires Reads(live, s) && Steady(s, norm, AiSerialize.ContextOf(Overlay(s, edit)), Monitored(Overlay(s, edit)))
    requires f !in edit.patch
    ensures At(Save(now, live, edit, norm, keeps).args, f) ==
            if f in s.args then Some(s.args[f]) else if keeps(f) then At(now.args, f) else None
  {
    hide Save, Reads, Goes, SentValue, AiSerialize.ContextOf, Monitored, Derived;
    SavedAt(now, s, live, edit, norm, keeps, f);
  }

  //-------------------------------------------------------
  // Ring tuning, which travels only under a consistent-hash selector
  //-------------------------------------------------------

  lemma TuningSent(f: Field, v: Val, c: AiSerialize.Context, monitored: bool)
    requires c.full && ChwblTuning(f)
    ensures Sent(f, v, c, monitored) <==> c.chwbl && HasValue(v) && !Negative(v)
  {
    hide AiSerialize.KeptMtls, AiSerialize.TrimmedText, Cleaned, Inert, HasValue;
  }

  lemma TuningGoes(f: Field, v: Val, c: AiSerialize.Context, monitored: bool)
    requires c.full && ChwblTuning(f) && v.Num? && v.r >= 0.0
    ensures Goes(f, v, c, monitored) <==> c.chwbl
    ensures SentValue(f, v, c) == v
  {
    TuningSent(f, v, c, monitored);
    hide AiSerialize.KeptMtls, AiSerialize.TrimmedText, Sent;
  }

  lemma TuningContext(a: Args)
    ensures AiSerialize.ContextOf(a).full == Fullproxy(a) && AiSerialize.ContextOf(a).chwbl == ChwblSelector(a)
  {
  }

  /** Moving a rule off the consistent-hash selectors loses the ring tuning the edit does not name, unless
      the gateway keeps it. */
  lemma SelectorEditLosesRing(s: Body, live: Fresh, edit: Edit, norm: Norm, keeps: Keeps, f: Field)
    requires Reads(live, s) && Steady(s, norm, AiSerialize.ContextOf(s.args), Monitored(s.args))
    requires ChwblTuning(f) && f in s.args && f !in edit.patch
    requires Fullproxy(Overlay(s, edit)) && !ChwblSelector(Overlay(s, edit))
    ensures At(Save(s, live, edit, norm, keeps).args, f) == if keeps(f) then At(s.args, f) else None
  {
    hide Save, Reads, Steady, Sent, Goes, SentValue, AiSerialize.ContextOf, Monitored, Fullproxy, ChwblSelector, Overlay;
    var a := Overlay(s, edit);
    TuningContext(a);
    TuningSent(f, s.args[f], AiSerialize.ContextOf(a), Monitored(a));
    UntouchedLost(s, live, edit, norm, keeps, f);
  }

  /** Edits that change what the serialiser branches on do not commute: ring tuning set while the selector is
      off the ring is dropped, and the later move onto the ring does not bring it back; set after the move it
      is stored. */
  lemma OrderDecides(s: Body, a: Edit, b: Edit, norm: Norm, keeps: Keeps, live: Fresh, liveA: Fresh, liveB: Fresh, f: Field)
    requires Canonical(s, norm) && Reads(live, s)
    requires var sa := Save(s, live, a, norm, keeps); Canonical(sa, norm) && Reads(liveA, sa)
    requires var sb := Save(s, live, b, norm, keeps); Canonical(sb, norm) && Reads(liveB, sb)
    requires ChwblTuning(f) && f !in s.args && f !in a.patch
    requires f in b.patch && b.patch[f].Num? && b.patch[f].r >= 0.0
    requires Fullproxy(Overlay(s, b)) && !ChwblSelector(Overlay(s, b))
    requires var o := Overlay(Save(s, live, a, norm, keeps), b); Fullproxy(o) && ChwblSelector(o)
    ensures At(Save(Save(s, live, a, norm, keeps), liveA, b, norm, keeps).args, f) == norm(f, b.patch[f])
    ensures At(Save(Save(s, live, b, norm, keeps), liveB, a, norm, keeps).args, f) == None
  {
    hide Save, Reads, Canonical, Sent, Goes, SentValue, AiSerialize.ContextOf, Monitored, Fullproxy, ChwblSelector;
    var sa, sb := Save(s, live, a, norm, keeps), Save(s, live, b, norm, keeps);
    var on, off := Overlay(sa, b), Overlay(s, b);
    TuningContext(on);
    TuningContext(off);
    TuningGoes(f, b.patch[f], AiSerialize.ContextOf(on), Monitored(on));
    TuningGoes(f, b.patch[f], AiSerialize.ContextOf(off), Monitored(off));
    SavedAt(sa, sa, liveA, b, norm, keeps, f);
    SavedAt(s, s, live, b, norm, keeps, f);
    SavedAt(sb, sb, liveB, a, norm, keeps, f);
  }
}
