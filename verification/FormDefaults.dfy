/** Form defaults laid under what the form already holds, and the mirror that makes rapid writes cumulative. */
module FormDefaults {
  import opened Text

  /** A form value; `Undef` is also what an absent member reads as. */
  datatype Json = Undef | Null | Scalar(text: string) | Arr(items: seq<Json>) | Obj(members: map<string, Json>)

  function Member(m: map<string, Json>, key: string): Json { if key in m then m[key] else Undef }

  function MergeDefaultsUnder(defaults: Json, current: Json): Json
    decreases current
  {
    if current.Undef? || current.Null? then defaults
    else if !current.Obj? || !defaults.Obj? then current
    else
      var d, c := defaults.members, current.members;
      Obj(map key | key in d.Keys + c.Keys ::
            if key in c then MergeDefaultsUnder(Member(d, key), c[key]) else d[key])
  }

  lemma {:induction false} MergeSelf(d: Json)
    ensures MergeDefaultsUnder(d, d) == d
  {
    if d.Obj? {
      forall key | key in d.members
        ensures MergeDefaultsUnder(d.members[key], d.members[key]) == d.members[key]
      {
        MergeSelf(d.members[key]);
      }
      assert MergeDefaultsUnder(d, d).members == d.members;
    }
  }

  /** Merging the same defaults again changes nothing. */
  lemma {:induction false} MergeIdempotent(defaults: Json, current: Json)
    ensures var once := MergeDefaultsUnder(defaults, current); MergeDefaultsUnder(defaults, once) == once
    decreases current
  {
    if current.Undef? || current.Null? {
      MergeSelf(defaults);
    } else if current.Obj? && defaults.Obj? {
      var d, c := defaults.members, current.members;
      var once := MergeDefaultsUnder(defaults, current).members;
      forall key | key in d.Keys + c.Keys
        ensures MergeDefaultsUnder(Member(d, key), once[key]) == once[key]
      {
        if key in c { MergeIdempotent(Member(d, key), c[key]); } else { MergeSelf(d[key]); }
      }
      assert MergeDefaultsUnder(defaults, Obj(once)).members == once;
    }
  }

  /** What a form holds at a path of member names. */
  function At(j: Json, path: seq<string>): Json
    decreases path
  {
    if path == [] then j
    else if j.Obj? then At(Member(j.members, path[0]), path[1..])
    else Undef
  }

  predicate DefinedLeaf(j: Json) { j.Scalar? || j.Arr? }

  /** A defined leaf of the form is never altered. */
  lemma {:induction false} LeafKept(defaults: Json, current: Json, path: seq<string>)
    requires DefinedLeaf(At(current, path))
    ensures At(MergeDefaultsUnder(defaults, current), path) == At(current, path)
    decreases path
  {
    if path != [] && defaults.Obj? {
      assert At(Undef, path[1..]).Undef?;
      LeafKept(Member(defaults.members, path[0]), current.members[path[0]], path[1..]);
    }
  }

  /** The form holds nothing at the path, and nothing above it but objects or nothing. */
  predicate GapAt(current: Json, path: seq<string>)
    decreases path
  {
    if current.Undef? || current.Null? then true
    else path != [] && current.Obj? && GapAt(Member(current.members, path[0]), path[1..])
  }

  /** A gap takes its default, whenever there is one. */
  lemma {:induction false} GapFilled(defaults: Json, current: Json, path: seq<string>)
    requires GapAt(current, path) && !At(defaults, path).Undef?
    ensures At(MergeDefaultsUnder(defaults, current), path) == At(defaults, path)
    decreases path
  {
    if !current.Undef? && !current.Null? {
      assert At(Undef, path[1..]).Undef?;
      if path[0] in current.members {
        GapFilled(defaults.members[path[0]], current.members[path[0]], path[1..]);
      }
    }
  }

  //-------------------------------------------------------
  // The latest-write mirror
  //-------------------------------------------------------

  type Form = map<string, Json>

  /** The form state, the form the handlers' closure captured at the last render, the mirror, and the forms
      that committed renders have yet to copy to it. `integers` are the fields the schema types as integers,
      and `number` is the conversion their values go through. */
  datatype State = State(integers: set<string>, number: Json -> Json, form: Form, rendered: Form,
                         mirror: Option<Form>, effects: seq<Form>)

  datatype Event =
    | Change(field: string, value: Json)
    | ObjectChange(partial: Form)
    | Reset(merged: Form -> Form)
    | Render
    | SyncEffect

  /** The form the next write builds on. */
  function Base(s: State): Form { if s.mirror.Some? then s.mirror.value else s.rendered }

  predicate Writes(e: Event) { e.Change? || e.ObjectChange? }

  /** What a write lays over the form. */
  function Written(s: State, e: Event): Form
    requires Writes(e)
  {
    match e
    case Change(field, value) => map[field := if field in s.integers then s.number(value) else value]
    case ObjectChange(partial) => partial
  }

  /** A write builds on the mirror; a state-driven reset builds on the form; a render captures the form and
      leaves an effect behind; the effect copies the form of its render to the mirror. */
  function Step(s: State, e: Event): State
  {
    match e
    case Reset(merged) => s.(form := merged(s.form))
    case Render => s.(rendered := s.form, effects := s.effects + [s.form])
    case SyncEffect => if s.effects == [] then s else s.(mirror := Some(s.effects[0]), effects := s.effects[1..])
    case _ => var form := Base(s) + Written(s, e); s.(form := form, mirror := Some(form))
  }

  function Run(s: State, es: seq<Event>): State
    decreases es
  {
    if es == [] then s else Run(Step(s, es[0]), es[1..])
  }

  /** What an event is meant to make of a form: nothing is lost. */
  function Meant(s: State, form: Form, e: Event): Form
  {
    if Writes(e) then form + Written(s, e) else if e.Reset? then e.merged(form) else form
  }

  /** The fold of all writes and resets. */
  function Fold(s: State, form: Form, es: seq<Event>): Form
    decreases es
  {
    if es == [] then form else Fold(s, Meant(s, form, es[0]), es[1..])
  }

  function Held(form: Form, key: string): Option<Json> { if key in form then Some(form[key]) else None }

  /** A write loses something: what it builds on differs from the form in a member it does not write. */
  ghost predicate Loses(s: State, e: Event)
  {
    Writes(e) && exists key :: key !in Written(s, e) && Held(Base(s), key) != Held(s.form, key)
  }

  ghost predicate LosesNothing(s: State, es: seq<Event>)
    decreases es
  {
    es != [] ==> !Loses(s, es[0]) && LosesNothing(Step(s, es[0]), es[1..])
  }

  /** At every point of the run the form is the fold of everything so far. */
  predicate Follows(s: State, form: Form, es: seq<Event>)
    decreases es
  {
    s.form == form && (es != [] ==> Follows(Step(s, es[0]), Meant(s, form, es[0]), es[1..]))
  }

  lemma SameForm(a: Form, b: Form, written: Form)
    ensures a + written == b + written <==> forall key | key !in written :: Held(a, key) == Held(b, key)
  {
    var x, y := a + written, b + written;
    if x == y {
      forall key | key !in written
        ensures Held(a, key) == Held(b, key)
      {
        assert key in x <==> key in a;
        assert key in y <==> key in b;
      }
    }
    if forall key | key !in written :: Held(a, key) == Held(b, key) {
      forall key
        ensures key in x <==> key in y
        ensures key in x ==> x[key] == y[key]
      {
        if key !in written { assert Held(a, key) == Held(b, key); }
      }
    }
  }

  lemma StepMeant(s: State, e: Event)
    ensures Step(s, e).form == Meant(s, s.form, e) <==> !Loses(s, e)
    ensures Step(s, e).integers == s.integers && Step(s, e).number == s.number
  {
    if Writes(e) { SameForm(Base(s), s.form, Written(s, e)); }
    hide Held;
  }

  /** Whatever renders, effects and resets come between, the form is at every point the fold of all writes
      exactly when no write builds on something that differs from the form outside what it writes. */
  lemma {:induction false} FormIsFold(s: State, es: seq<Event>)
    ensures Follows(s, s.form, es) <==> LosesNothing(s, es)
    decreases es
  {
    if es != [] {
      hide Step, Meant, Loses;
      StepMeant(s, es[0]);
      FormIsFold(Step(s, es[0]), es[1..]);
    }
  }

  lemma {:induction false} FollowsToTheEnd(s: State, form: Form, es: seq<Event>)
    requires Follows(s, form, es)
    ensures Run(s, es).form == Fold(s, form, es)
    decreases es
  {
    if es != [] {
      StepMeant(s, es[0]);
      hide Step;
      FollowsToTheEnd(Step(s, es[0]), Meant(s, form, es[0]), es[1..]);
      FoldSame(Step(s, es[0]), s, Meant(s, form, es[0]), es[1..]);
    }
  }

  lemma {:induction false} FoldSame(a: State, b: State, form: Form, es: seq<Event>)
    requires a.integers == b.integers && a.number == b.number
    ensures Fold(a, form, es) == Fold(b, form, es)
    decreases es
  {
    if es != [] { FoldSame(a, b, Meant(a, form, es[0]), es[1..]); }
  }

  //-------------------------------------------------------
  // When the mirror is current
  //-------------------------------------------------------

  /** The next write builds on the form itself. */
  predicate Current(s: State) { Base(s) == s.form }

  /** A write makes the mirror current; a render does not touch it; an effect leaves it current exactly when
      it carries the form as it is now; a reset, until its effect comes, only when it changes nothing. */
  lemma CurrentExactly(s: State, e: Event)
    ensures Current(Step(s, e)) <==>
            match e
            case Change(_, _) => true
            case ObjectChange(_) => true
            case Render => s.mirror.None? || Current(s)
            case SyncEffect => if s.effects == [] then Current(s) else s.effects[0] == s.form
            case Reset(merged) => merged(s.form) == Base(s)
  {
  }

  lemma CurrentLosesNothing(s: State, e: Event)
    requires Current(s)
    ensures !Loses(s, e)
  {
  }

  /** No effect carries a form older than the last write, and no reset changes the form, ahead of a write. */
  ghost predicate Timely(s: State, es: seq<Event>)
    decreases es
  {
    es != [] ==> (Writes(es[0]) ==> Current(s)) && Timely(Step(s, es[0]), es[1..])
  }

  lemma {:induction false} TimelyLosesNothing(s: State, es: seq<Event>)
    requires Timely(s, es)
    ensures LosesNothing(s, es)
    decreases es
  {
    if es != [] {
      if Writes(es[0]) { CurrentLosesNothing(s, es[0]); }
      hide Step;
      TimelyLosesNothing(Step(s, es[0]), es[1..]);
    }
  }

  /** A run whose writes all find the mirror current ends with the fold of all of them. */
  lemma TimelyRunsFold(s: State, es: seq<Event>)
    requires Timely(s, es)
    ensures Run(s, es).form == Fold(s, s.form, es)
  {
    TimelyLosesNothing(s, es);
    FormIsFold(s, es);
    FollowsToTheEnd(s, s.form, es);
  }

  /** Any burst of writes before a re-render, of both kinds, leaves the fold of all of them over what the
      first one builds on. */
  lemma {:induction false} BurstIsFold(s: State, es: seq<Event>)
    requires es != [] && forall e | e in es :: Writes(e)
    ensures Run(s, es).form == Fold(s, Base(s), es) && Run(s, es).mirror == Some(Run(s, es).form)
    decreases es
  {
    assert es[0] in es;
    var s1 := Step(s, es[0]);
    StepMeant(s, es[0]);
    if |es| == 1 {
      assert es[1..] == [];
      assert Run(s, es) == s1 && Fold(s, Base(s), es) == Meant(s, Base(s), es[0]);
    } else {
      BurstIsFold(s1, es[1..]);
      FoldSame(s1, s, Base(s1), es[1..]);
    }
  }

  /** The last write to a member decides it. */
  lemma {:induction false} LastWriteDecides(s: State, form: Form, es: seq<Event>, key: string, i: nat)
    requires i < |es| && Writes(es[i]) && key in Written(s, es[i])
    requires forall j | i < j < |es| :: Writes(es[j]) && key !in Written(s, es[j])
    ensures key in Fold(s, form, es) && Fold(s, form, es)[key] == Written(s, es[i])[key]
    decreases es
  {
    if i == 0 {
      forall j | 0 <= j < |es[1..]|
        ensures Writes(es[1..][j]) && key !in Written(s, es[1..][j])
      {
        assert es[1..][j] == es[j + 1];
      }
      UnwrittenKept(s, Meant(s, form, es[0]), es[1..], key);
    } else {
      forall j | i - 1 < j < |es[1..]|
        ensures Writes(es[1..][j]) && key !in Written(s, es[1..][j])
      {
        assert es[1..][j] == es[j + 1];
      }
      LastWriteDecides(s, Meant(s, form, es[0]), es[1..], key, i - 1);
    }
  }

  /** A member no write names keeps its value. */
  lemma {:induction false} UnwrittenKept(s: State, form: Form, es: seq<Event>, key: string)
    requires forall j | 0 <= j < |es| :: Writes(es[j]) && key !in Written(s, es[j])
    ensures Held(Fold(s, form, es), key) == Held(form, key)
    decreases es
  {
    if es != [] {
      assert Writes(es[0]) && key !in Written(s, es[0]);
      forall j | 0 <= j < |es[1..]|
        ensures Writes(es[1..][j]) && key !in Written(s, es[1..][j])
      {
        assert es[1..][j] == es[j + 1];
      }
      UnwrittenKept(s, Meant(s, form, es[0]), es[1..], key);
    }
  }

  /** The state in which the effect of a render before the second write has run after it. */
  function AfterLateEffect(a: Json, b: Json): State
  {
    var s := State({}, (j: Json) => j, map[], map[], None, []);
    Step(Step(Step(Step(s, Change("a", a)), Render), Change("b", b)), SyncEffect)
  }

  lemma LateEffect(a: Json, b: Json)
    ensures var s := AfterLateEffect(a, b);
            s.mirror == Some(map["a" := a]) && s.form == map["a" := a] + map["b" := b] && s.integers == {}
  {
    var form: Form := map[];
    assert form + map["a" := a] == map["a" := a];
  }

  /** An input that loses a write: the third write builds on what that render showed. */
  lemma LateEffectLosesWrite(a: Json, b: Json, c: Json)
    ensures var s, e := AfterLateEffect(a, b), Change("c", c);
            "b" in s.form && "b" !in Step(s, e).form && Step(s, e).form == map["a" := a, "c" := c] && Loses(s, e)
  {
    hide AfterLateEffect;
    LateEffect(a, b);
    var s, e := AfterLateEffect(a, b), Change("c", c);
    assert "a"[0] != "b"[0] && "b"[0] != "c"[0];
    assert Written(s, e) == map["c" := c];
    assert Held(Base(s), "b") == None && Held(s.form, "b") == Some(b);
  }

  //-------------------------------------------------------
  // The implementation
  //-------------------------------------------------------

  class FormState {
    const integers: set<string>
    const number: Json -> Json
    var form: Form
    var rendered: Form
    var mirror: Option<Form>
    var effects: seq<Form>

    function View(): State
      reads this
    {
      State(integers, number, form, rendered, mirror, effects)
    }

    constructor (initial: Form, integers: set<string>, number: Json -> Json)
      ensures View() == State(integers, number, initial, initial, None, [])
    {
      this.integers, this.number := integers, number;
      form, rendered, mirror, effects := initial, initial, None, [];
    }

    method HandleChange(field: string, value: Json)
      modifies `form, `mirror
      ensures View() == Step(old(View()), Change(field, value))
    {
      var processed := if field in integers then number(value) else value;
      var latest := if mirror.Some? then mirror.value else rendered;
      var newForm := latest[field := processed];
      assert newForm == latest + map[field := processed];
      mirror := Some(newForm);
      form := newForm;
    }

    method HandleObjectChange(partial: Form)
      modifies `form, `mirror
      ensures View() == Step(old(View()), ObjectChange(partial))
    {
      var newForm := (if mirror.Some? then mirror.value else rendered) + partial;
      mirror := Some(newForm);
      form := newForm;
    }

    /** The defaults merged under the form, when the schema arrives. */
    method ResetForm(merged: Form -> Form)
      modifies `form
      ensures View() == Step(old(View()), Reset(merged))
    {
      form := merged(form);
    }

    method CommitRender()
      modifies `rendered, `effects
      ensures View() == Step(old(View()), Render)
    {
      rendered := form;
      effects := effects + [form];
    }

    method RunSyncEffect()
      modifies `mirror, `effects
      ensures View() == Step(old(View()), SyncEffect)
    {
      if effects != [] {
        mirror := Some(effects[0]);
        effects := effects[1..];
      }
    }
  }
}
