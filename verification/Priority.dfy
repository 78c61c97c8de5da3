/** The request-priority fields of an identity: their form, and the change a save sends. */
module Priority {
  import opened Text

  datatype Scope = Key | Tenant | Jwt

  /** The fields as an identity reads back; absent and null read alike. */
  datatype Fields = Fields(priority: Option<string>, objective: Option<string>, allowed: Option<seq<string>>)

  /** The fields as a form holds them: raw text, "" for unset. */
  datatype Draft = Draft(priority: string, objective: string, allowed: string)

  /** The members a write sends. */
  datatype Write = Write(priority: Option<string>, objective: Option<string>, allowed: Option<seq<string>>)

  const NOTHING := Write(None, None, None)

  function Text0(v: Option<string>): string { if v.Some? then v.value else "" }

  function List0(v: Option<seq<string>>): seq<string> { if v.Some? then v.value else [] }

  function TrimAll(pieces: seq<string>): seq<string>
  {
    if pieces == [] then []
    else (if Trim(pieces[0]) == "" then [] else [Trim(pieces[0])]) + TrimAll(pieces[1..])
  }

  /** Comma-separated text to trimmed, non-empty names, in order. */
  function ParseObjectiveList(text: string): seq<string> { TrimAll(Split(text, ',')) }

  function ObjectiveListText(list: seq<string>): string { Join(list, ", ") }

  function DraftFrom(f: Fields): Draft
  {
    Draft(Text0(f.priority), Text0(f.objective), ObjectiveListText(List0(f.allowed)))
  }

  method PriorityChangedFields(draft: Draft, current: Fields, scope: Scope) returns (out: Write)
    ensures out == Changed(draft, current, scope)
  {
    out := NOTHING;
    if draft.priority != Text0(current.priority) { out := out.(priority := Some(draft.priority)); }
    if scope == Jwt { return; }
    var objective := Trim(draft.objective);
    if objective != Text0(current.objective) { out := out.(objective := Some(objective)); }
    var allowed := ParseObjectiveList(draft.allowed);
    if Join(allowed, ",") != Join(List0(current.allowed), ",") { out := out.(allowed := Some(allowed)); }
  }

  /** The members that differ from the identity as read. */
  function Changed(draft: Draft, current: Fields, scope: Scope): Write
  {
    var allowed := ParseObjectiveList(draft.allowed);
    Write(if draft.priority != Text0(current.priority) then Some(draft.priority) else None,
          if scope != Jwt && Trim(draft.objective) != Text0(current.objective) then Some(Trim(draft.objective)) else None,
          if scope != Jwt && Join(allowed, ",") != Join(List0(current.allowed), ",") then Some(allowed) else None)
  }

  /** A write replaces what it names and keeps the rest. */
  function Apply(current: Fields, w: Write): Fields
  {
    Fields(if w.priority.Some? then w.priority else current.priority,
           if w.objective.Some? then w.objective else current.objective,
           if w.allowed.Some? then w.allowed else current.allowed)
  }

  //-------------------------------------------------------
  // Lists of names
  //-------------------------------------------------------

  lemma {:induction false} TrimAllNames(pieces: seq<string>)
    requires forall p | p in pieces :: ',' !in p
    ensures ListNames(TrimAll(pieces))
  {
    if pieces != [] {
      assert pieces[0] in pieces;
      TrimAllNames(pieces[1..]);
    }
  }

  lemma ParseGivesNames(text: string)
    ensures ListNames(ParseObjectiveList(text))
  {
    TrimAllNames(Split(text, ','));
  }

  lemma JoinedNotEmpty(list: seq<string>)
    requires ListNames(list)
    ensures Join(list, ",") == "" <==> list == []
  {
    if list != [] { assert list[0] in list; }
  }

  /** Comparing joined lists compares the lists, when they hold names. */
  lemma JoinInjective(a: seq<string>, b: seq<string>)
    requires ListNames(a) && ListNames(b)
    ensures Join(a, ",") == Join(b, ",") <==> a == b
  {
    JoinedNotEmpty(a);
    JoinedNotEmpty(b);
    if a != [] && b != [] {
      hide Join, Split;
      SplitJoin(a, ',');
      SplitJoin(b, ',');
    }
  }

  lemma {:induction false} TrimAllSpaced(list: seq<string>, spaced: seq<string>)
    requires ListNames(list) && |spaced| == |list| && forall i | 0 <= i < |list| :: spaced[i] == list[i] || spaced[i] == " " + list[i]
    ensures TrimAll(spaced) == list
  {
    hide Trim, ListName, Trimmed;
    if list != [] {
      assert list[0] in list;
      TrimEither(list[0], spaced[0]);
      TrimAllSpaced(list[1..], spaced[1..]);
    }
  }

  /** Printing a list of names and reading it back gives the list. */
  lemma ListRoundTrip(list: seq<string>)
    requires ListNames(list)
    ensures ParseObjectiveList(ObjectiveListText(list)) == list
  {
    hide Trim, IsSpace;
    if list == [] {
      EmptyList();
    } else {
      JoinSpaced(list);
      var spaced := SpacedList(list);
      forall p | p in spaced
        ensures ',' !in p
      {
        var i :| 0 <= i < |spaced| && spaced[i] == p;
        assert list[i] in list && ListName(list[i]);
      }
      hide Join, Split, TrimAll;
      SplitJoin(spaced, ',');
      TrimAllSpaced(list, spaced);
    }
  }

  lemma EmptyList()
    ensures ParseObjectiveList(ObjectiveListText([])) == []
  {
    assert Split("", ',') == [""];
    TrimPlain("");
  }

  //-------------------------------------------------------
  // Main results
  //-------------------------------------------------------

  /** Applying the change to the identity it was computed against gives the draft: its class, its trimmed
      objective and its list of names. A JWT profile has only the class. */
  lemma ChangeReachesDraft(draft: Draft, current: Fields, scope: Scope)
    requires ListNames(List0(current.allowed))
    ensures var after := Apply(current, Changed(draft, current, scope));
            && Text0(after.priority) == draft.priority
            && (scope != Jwt ==> Text0(after.objective) == Trim(draft.objective)
                                 && List0(after.allowed) == ParseObjectiveList(draft.allowed))
            && (scope == Jwt ==> after.objective == current.objective && after.allowed == current.allowed)
  {
    hide Join, ParseObjectiveList, Trim;
    ParseGivesNames(draft.allowed);
    JoinInjective(ParseObjectiveList(draft.allowed), List0(current.allowed));
  }

  /** A draft changes nothing exactly when it already says what the identity has. */
  lemma NothingIffSame(draft: Draft, current: Fields, scope: Scope)
    requires ListNames(List0(current.allowed))
    ensures Changed(draft, current, scope) == NOTHING <==>
            && draft.priority == Text0(current.priority)
            && (scope != Jwt ==> Trim(draft.objective) == Text0(current.objective)
                                 && ParseObjectiveList(draft.allowed) == List0(current.allowed))
  {
    hide Join, ParseObjectiveList, Trim;
    ParseGivesNames(draft.allowed);
    JoinInjective(ParseObjectiveList(draft.allowed), List0(current.allowed));
  }

  /** An untouched draft sends nothing, exactly when the stored objective has no white space around it. */
  lemma UntouchedSendsNothing(current: Fields, scope: Scope)
    requires ListNames(List0(current.allowed))
    ensures Changed(DraftFrom(current), current, scope) == NOTHING <==> scope == Jwt || Trimmed(Text0(current.objective))
  {
    ListRoundTrip(List0(current.allowed));
    NothingIffSame(DraftFrom(current), current, scope);
    TrimFixed(Text0(current.objective));
    hide Join, ParseObjectiveList, Trim, Trimmed;
  }
}
