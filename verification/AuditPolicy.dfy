/** The audit policy form: printing what the gateway reads back, parsing it again, and the readback diff. */
module AuditPolicy {
  import opened Text

  const MAX_SAFE_INTEGER := 9_007_199_254_740_991
  const AUDIT_MAX_SECONDS := 9_223_372_036

  datatype Error =
    | NotWhole | TooLarge | BelowSegment | Required | BadAddress | Pair | BadName | ReservedName | OutOfRange | BadService

  datatype Parsed = Value(n: nat) | Failed(error: Error)

  /** Digits only, around white space; no more than `max`, nor than a double holds exactly. */
  function WholeNumber(text: string, max: nat): Parsed
  {
    var trimmed := Trim(text);
    if !IsDecimal(trimmed) then Failed(NotWhole)
    else
      var n := NumeralValue(trimmed, 10);
      if n > MAX_SAFE_INTEGER || n > max then Failed(TooLarge) else Value(n)
  }

  lemma DecimalTrimmed(n: nat)
    ensures Trim(Decimal(n)) == Decimal(n) != "" && IsDecimal(Decimal(n)) && NumeralValue(Decimal(n), 10) == n
  {
    var d := Decimal(n);
    NumeralRoundTrip(n, 10);
    assert d[0] in d && d[|d| - 1] in d;
    DigitNotSpace(d[0]);
    DigitNotSpace(d[|d| - 1]);
    hide Numeral, NumeralValue, IsSpace;
  }

  lemma DigitNotSpace(c: char)
    requires DigitValue(c) >= 0
    ensures !IsSpace(c)
  {
  }

  /** Printing a number and parsing it back gives the number, if it is within bounds. */
  lemma PrintedNumber(n: nat, max: nat)
    ensures WholeNumber(Decimal(n), max) == if n > MAX_SAFE_INTEGER || n > max then Failed(TooLarge) else Value(n)
  {
    hide Decimal, IsDecimal, NumeralValue, Trim;
    DecimalTrimmed(n);
  }

  //-------------------------------------------------------
  // The six fields
  //-------------------------------------------------------

  datatype Field =
    | MaxSegmentBytes | MaxSegmentAge | RetentionMaxAge | RetentionMaxBytes | RetentionReserve | RetentionMaxPrune

  const FIELDS: seq<Field> :=
    [MaxSegmentBytes, MaxSegmentAge, RetentionMaxAge, RetentionMaxBytes, RetentionReserve, RetentionMaxPrune]

  lemma AllFields(f: Field)
    ensures f in FIELDS
  {
    assert FIELDS[0] == MaxSegmentBytes && FIELDS[1] == MaxSegmentAge && FIELDS[2] == RetentionMaxAge
        && FIELDS[3] == RetentionMaxBytes && FIELDS[4] == RetentionReserve && FIELDS[5] == RetentionMaxPrune;
  }

  /** A policy as the gateway reads back: an absent field is 0. */
  type Read = map<Field, nat>
  type Form = Field -> string

  function ReadAs(read: Read, f: Field): nat { if f in read then read[f] else 0 }

  /** A prune count of 0 is stored and read back as 1. */
  function PolicyValue(read: Read, f: Field): nat
  {
    var n := ReadAs(read, f);
    if f.RetentionMaxPrune? && n == 0 then 1 else n
  }

  function PolicyForm(read: Read): Form { (f: Field) => Decimal(PolicyValue(read, f)) }

  function Limit(f: Field): nat
  {
    if f.MaxSegmentAge? || f.RetentionMaxAge? then AUDIT_MAX_SECONDS else MAX_SAFE_INTEGER
  }

  function FieldParse(form: Form, f: Field): Parsed { WholeNumber(form(f), Limit(f)) }

  predicate BelowOneSegment(form: Form)
  {
    var quota, segment := FieldParse(form, RetentionMaxBytes), FieldParse(form, MaxSegmentBytes);
    quota.Value? && segment.Value? && 0 < quota.n < segment.n
  }

  /** The error a field gets, if any. */
  function FieldError(form: Form, f: Field): Option<Error>
  {
    if FieldParse(form, f).Failed? then Some(FieldParse(form, f).error)
    else if f.RetentionMaxBytes? && BelowOneSegment(form) then Some(BelowSegment)
    else None
  }

  /** Every field of `fields` is reported: its value, or why it has none. */
  ghost predicate Reported(form: Form, fields: seq<Field>, values: map<Field, nat>, errors: map<Field, Error>)
  {
    && (forall f :: f in errors <==> f in fields && FieldParse(form, f).Failed?)
    && (forall f | f in errors :: errors[f] == FieldParse(form, f).error)
    && (forall f :: f in values <==> f in fields && FieldParse(form, f).Value?)
    && (forall f | f in values :: values[f] == FieldParse(form, f).n)
  }

  method ParseFields(form: Form) returns (values: map<Field, nat>, errors: map<Field, Error>)
    ensures Reported(form, FIELDS, values, errors)
  {
    hide WholeNumber;
    values, errors := map[], map[];
    for i := 0 to |FIELDS|
      invariant Reported(form, FIELDS[..i], values, errors)
    {
      var field := FIELDS[i];
      assert FIELDS[..i + 1] == FIELDS[..i] + [field];
      var parsed := WholeNumber(form(field), Limit(field));
      if parsed.Failed? { errors := errors[field := parsed.error]; } else { values := values[field := parsed.n]; }
    }
    assert FIELDS[..|FIELDS|] == FIELDS;
  }

  lemma Complete(form: Form, values: map<Field, nat>, errors: map<Field, Error>)
    requires Reported(form, FIELDS, values, errors)
    ensures forall f :: f in errors || (f in values && FieldParse(form, f) == Value(values[f]))
    ensures forall f | f in errors :: FieldParse(form, f) == Failed(errors[f])
  {
    hide FieldParse;
    forall f
      ensures f in errors || (f in values && FieldParse(form, f) == Value(values[f]))
    {
      AllFields(f);
    }
  }

  /** Each field is in error exactly when it should be, and without errors every field has its value. */
  method ParsePolicyForm(form: Form) returns (values: map<Field, nat>, errors: map<Field, Error>)
    ensures forall f :: if f in errors then FieldError(form, f) == Some(errors[f]) else FieldError(form, f) == None
    ensures errors == map[] ==> forall f :: f in values && FieldParse(form, f) == Value(values[f])
  {
    hide FieldParse;
    values, errors := ParseFields(form);
    Complete(form, values, errors);
    if RetentionMaxBytes !in errors && MaxSegmentBytes !in errors
      && 0 < values[RetentionMaxBytes] < values[MaxSegmentBytes] {
      errors := errors[RetentionMaxBytes := BelowSegment];
      assert RetentionMaxBytes in errors;
    }
  }

  /** Fields where what is read back is not what was sent. */
  function PolicyDiff(sent: Read, read: Read): (r: seq<Field>)
    ensures forall f :: f in r <==> f in FIELDS && PolicyValue(sent, f) != PolicyValue(read, f)
  {
    Differing(sent, read, FIELDS)
  }

  function Differing(sent: Read, read: Read, fields: seq<Field>): (r: seq<Field>)
    ensures forall f :: f in r <==> f in fields && PolicyValue(sent, f) != PolicyValue(read, f)
  {
    if fields == [] then []
    else (if PolicyValue(sent, fields[0]) != PolicyValue(read, fields[0]) then [fields[0]] else []) + Differing(sent, read, fields[1..])
  }

  //-------------------------------------------------------
  // Opening and saving untouched
  //-------------------------------------------------------

  /** A policy the gateway can hold: every field within its limit, no quota below one segment. */
  ghost predicate Valid(read: Read)
  {
    && (forall f :: PolicyValue(read, f) <= Limit(f))
    && !(0 < PolicyValue(read, RetentionMaxBytes) < PolicyValue(read, MaxSegmentBytes))
  }

  lemma PrintedField(read: Read, f: Field)
    ensures var n := PolicyValue(read, f);
            FieldParse(PolicyForm(read), f) == if n > Limit(f) then Failed(TooLarge) else Value(n)
  {
    hide WholeNumber, Decimal;
    PrintedNumber(PolicyValue(read, f), Limit(f));
  }

  /** A readback opened and saved untouched parses exactly when it is a policy the gateway can hold. */
  lemma UntouchedParses(read: Read)
    ensures (forall f :: FieldError(PolicyForm(read), f) == None) <==> Valid(read)
  {
    hide FieldParse, PolicyForm;
    forall f
      ensures FieldParse(PolicyForm(read), f) == if PolicyValue(read, f) > Limit(f) then Failed(TooLarge) else Value(PolicyValue(read, f))
    {
      PrintedField(read, f);
    }
    if forall f :: FieldError(PolicyForm(read), f) == None {
      forall f
        ensures PolicyValue(read, f) <= Limit(f)
      {
        assert FieldError(PolicyForm(read), f) == None;
      }
      assert FieldError(PolicyForm(read), RetentionMaxBytes) == None;
    }
  }

  /** And what it then sends differs in nothing from the readback. */
  lemma UntouchedDiffsToNothing(read: Read, sent: Read)
    requires forall f :: f in sent && FieldParse(PolicyForm(read), f) == Value(sent[f])
    ensures (forall f :: sent[f] == PolicyValue(read, f)) && PolicyDiff(sent, read) == []
  {
    hide FieldParse, PolicyForm;
    forall f
      ensures sent[f] == PolicyValue(read, f) && PolicyValue(sent, f) == PolicyValue(read, f)
    {
      PrintedField(read, f);
    }
    var diff := PolicyDiff(sent, read);
    assert forall f :: f !in diff;
    NoMembers(diff);
  }

  lemma NoMembers(s: seq<Field>)
    ensures s == [] <==> forall f :: f !in s
  {
    assert s != [] ==> s[0] in s;
  }
}
