/** The audit sink forms: printing a sink's readback, parsing the form, and the readback diff. */
module AuditSink {
  import opened Text
  import opened AuditPolicy

  const AUDIT_MAX_FACILITY := 23
  const AUDIT_MAX_FRAME_BYTES := 0x4000_0000
  const AUDIT_MAX_ENTERPRISE_NUMBER := 4_294_967_295
  const AUDIT_RESERVED_SINK_NAME := "compliance"

  //-------------------------------------------------------
  // Readbacks and forms
  //-------------------------------------------------------

  datatype Filter = Filter(streams: seq<string>, services: seq<string>, outcome: string, sample: nat)

  /** A sink as the gateway reads back; absent texts, numbers and lists are "", 0 and [] here. */
  datatype Sink = Sink(address: string, caBundle: string, serverName: string, clientCert: string, clientKey: string,
                       facility: nat, maxFrame: nat)

  datatype SinkForm = SinkForm(address: string, caBundle: string, serverName: string, clientCert: string,
                               clientKey: string, facility: string, maxFrame: string)

  datatype NamedSink = NamedSink(sink: Sink, enterprise: nat, filter: Option<Filter>)

  datatype NamedForm = NamedForm(sink: SinkForm, name: string, enterprise: string, streams: seq<string>,
                                 services: string, outcome: string, sample: string)

  function BlankIfZero(n: nat): string { if n == 0 then "" else Decimal(n) }

  function FormOf(r: Sink): SinkForm
  {
    SinkForm(r.address, r.caBundle, r.serverName, r.clientCert, r.clientKey, BlankIfZero(r.facility), BlankIfZero(r.maxFrame))
  }

  const NO_FILTER := Filter([], [], "", 0)

  function FilterOf(f: Option<Filter>): Filter { if f.Some? then f.value else NO_FILTER }

  function NamedFormOf(name: string, r: NamedSink): NamedForm
  {
    var f := FilterOf(r.filter);
    NamedForm(FormOf(r.sink), name, BlankIfZero(r.enterprise), f.streams, Join(f.services, ", "), f.outcome, BlankIfZero(f.sample))
  }

  //-------------------------------------------------------
  // Parsing the shared fields
  //-------------------------------------------------------

  predicate HostChar(c: char) { c != ':' && !IsSpace(c) && c != '[' && c != ']' }

  predicate BracketChar(c: char) { c != ']' && !IsSpace(c) }

  predicate Host(s: string)
  {
    (s != "" && forall c | c in s :: HostChar(c))
    || (|s| > 2 && s[0] == '[' && s[|s| - 1] == ']' && forall k | 0 < k < |s| - 1 :: BracketChar(s[k]))
  }

  predicate Port(s: string) { IsDecimal(s) && |s| <= 5 }

  /** `host:port`, the host bracketed when it holds colons. */
  predicate HostPort(s: string)
  {
    exists k :: 0 <= k < |s| && s[k] == ':' && Host(s[..k]) && Port(s[k + 1..])
  }

  /** Blank is 0. */
  function OptionalNumber(text: string, min: nat, max: nat): Parsed
  {
    if Trim(text) == "" then Value(0)
    else
      var parsed := WholeNumber(text, MAX_SAFE_INTEGER);
      if parsed.Value? && (parsed.n < min || parsed.n > max) then Failed(OutOfRange) else parsed
  }

  datatype FormField =
    | Address | CaBundle | ClientCert | ClientKey | Facility | MaxFrame | Name | Enterprise | Services | Sample

  function ErrorOf(p: Parsed): Option<Error> { if p.Failed? then Some(p.error) else None }

  function NumberOf(p: Parsed): nat { if p.Value? then p.n else 0 }

  /** What each shared field is refused for. */
  function SharedError(form: SinkForm, f: FormField): Option<Error>
  {
    match f
    case Address =>
      if Trim(form.address) == "" then Some(Required)
      else if !HostPort(Trim(form.address)) then Some(BadAddress) else None
    case CaBundle => if Trim(form.caBundle) == "" then Some(Required) else None
    case ClientCert => if Trim(form.clientCert) == "" && Trim(form.clientKey) != "" then Some(Pair) else None
    case ClientKey => if Trim(form.clientCert) != "" && Trim(form.clientKey) == "" then Some(Pair) else None
    case Facility => ErrorOf(OptionalNumber(form.facility, 0, AUDIT_MAX_FACILITY))
    case MaxFrame => ErrorOf(OptionalNumber(form.maxFrame, 0, AUDIT_MAX_FRAME_BYTES))
    case _ => None
  }

  function SharedWrite(form: SinkForm): Sink
  {
    Sink(Trim(form.address), Trim(form.caBundle), Trim(form.serverName), Trim(form.clientCert), Trim(form.clientKey),
         NumberOf(OptionalNumber(form.facility, 0, AUDIT_MAX_FACILITY)),
         NumberOf(OptionalNumber(form.maxFrame, 0, AUDIT_MAX_FRAME_BYTES)))
  }

  type Errors = map<FormField, Error>

  function At(errors: Errors, f: FormField): Option<Error> { if f in errors then Some(errors[f]) else None }

  predicate Textual(f: FormField) { f.Address? || f.CaBundle? || f.ClientCert? || f.ClientKey? }

  method ParseTexts(form: SinkForm) returns (errors: Errors)
    ensures forall f :: At(errors, f) == if Textual(f) then SharedError(form, f) else None
  {
    hide Trim, HostPort, OptionalNumber;
    errors := map[];
    var address := Trim(form.address);
    if address == "" {
      errors := errors[Address := Required];
    } else if !HostPort(address) {
      errors := errors[Address := BadAddress];
    }
    if Trim(form.caBundle) == "" { errors := errors[CaBundle := Required]; }
    var cert, key := Trim(form.clientCert), Trim(form.clientKey);
    if (cert == "") != (key == "") {
      errors := errors[if cert == "" then ClientCert else ClientKey := Pair];
    }
  }

  /** Adds an error under its field, if there is one. */
  method Push(errors: Errors, field: FormField, e: Option<Error>) returns (r: Errors)
    requires At(errors, field) == None
    ensures forall f :: At(r, f) == if f == field then e else At(errors, f)
  {
    r := if e.Some? then errors[field := e.value] else errors;
  }

  method ParseShared(form: SinkForm) returns (errors: Errors, body: Sink)
    ensures forall f :: At(errors, f) == SharedError(form, f)
    ensures body == SharedWrite(form)
  {
    hide Trim, HostPort, OptionalNumber, At;
    errors := ParseTexts(form);
    var facility := OptionalNumber(form.facility, 0, AUDIT_MAX_FACILITY);
    errors := Push(errors, Facility, ErrorOf(facility));
    var frame := OptionalNumber(form.maxFrame, 0, AUDIT_MAX_FRAME_BYTES);
    errors := Push(errors, MaxFrame, ErrorOf(frame));
    body := Sink(Trim(form.address), Trim(form.caBundle), Trim(form.serverName), Trim(form.clientCert),
                 Trim(form.clientKey), NumberOf(facility), NumberOf(frame));
  }

  //-------------------------------------------------------
  // The compliance sink
  //-------------------------------------------------------

  datatype SinkField =
    | Enabled | DAddress | DCaBundle | DServerName | DClientCert | DClientKey | DFacility | DMaxFrame | DEnterprise | DFilter

  function Differ(same: bool, f: SinkField): seq<SinkField> { if same then [] else [f] }

  function SharedDiff(sent: Sink, read: Sink): seq<SinkField>
  {
    Differ(sent.address == read.address, DAddress) + Differ(sent.caBundle == read.caBundle, DCaBundle)
    + Differ(sent.serverName == read.serverName, DServerName) + Differ(sent.clientCert == read.clientCert, DClientCert)
    + Differ(sent.clientKey == read.clientKey, DClientKey) + Differ(sent.facility == read.facility, DFacility)
    + Differ(sent.maxFrame == read.maxFrame, DMaxFrame)
  }

  /** The diff of a compliance sink: a sink that is not there, or not enabled, is one field. */
  function ComplianceDiff(sent: Sink, enabled: bool, read: Option<Sink>): seq<SinkField>
  {
    if read.None? || !enabled then [Enabled] else SharedDiff(sent, read.value)
  }

  /** Settable values a sink can hold in the form the page sends them. */
  predicate CanonicalSink(r: Sink)
  {
    && Trimmed(r.address) && HostPort(r.address)
    && Trimmed(r.caBundle) && r.caBundle != "" && Trimmed(r.serverName)
    && Trimmed(r.clientCert) && Trimmed(r.clientKey) && (r.clientCert == "" <==> r.clientKey == "")
    && r.facility <= AUDIT_MAX_FACILITY && r.maxFrame <= AUDIT_MAX_FRAME_BYTES
  }

  lemma PrintedOptional(n: nat, min: nat, max: nat)
    requires max <= MAX_SAFE_INTEGER
    ensures var p := OptionalNumber(BlankIfZero(n), min, max);
            (p == Value(n) <==> n == 0 || min <= n <= max) && (p.Value? ==> p.n == n)
  {
    hide WholeNumber, Trim, IsDecimal, Decimal;
    if n == 0 {
      TrimEmpty();
    } else {
      DecimalTrimmed(n);
      PrintedNumber(n, MAX_SAFE_INTEGER);
    }
  }

  lemma TrimEmpty()
    ensures Trim("") == ""
  {
  }

  predicate SharedAccepted(form: SinkForm)
  {
    forall f: FormField :: SharedError(form, f) == None
  }

  lemma NotEmptyAddress()
    ensures !HostPort("")
  {
  }

  lemma SharedDiffEmpty(sent: Sink, read: Sink)
    ensures SharedDiff(sent, read) == [] <==> sent == read
  {
  }

  /** A sink opened and saved untouched is accepted and reads back as sent, exactly when it is canonical. */
  lemma UntouchedShared(r: Sink)
    ensures SharedAccepted(FormOf(r)) && SharedWrite(FormOf(r)) == r <==> CanonicalSink(r)
  {
    hide HostPort, OptionalNumber, Trim, Trimmed, BlankIfZero;
    PrintedOptional(r.facility, 0, AUDIT_MAX_FACILITY);
    PrintedOptional(r.maxFrame, 0, AUDIT_MAX_FRAME_BYTES);
    TrimFixed(r.address);
    TrimFixed(r.caBundle);
    TrimFixed(r.serverName);
    TrimFixed(r.clientCert);
    TrimFixed(r.clientKey);
    NotEmptyAddress();
    var form := FormOf(r);
    if SharedAccepted(form) && SharedWrite(form) == r {
      assert SharedError(form, Address) == None && SharedError(form, CaBundle) == None;
      assert SharedError(form, ClientCert) == None && SharedError(form, ClientKey) == None;
      assert SharedError(form, Facility) == None && SharedError(form, MaxFrame) == None;
    }
  }

  /** The compliance sink: untouched, it parses without error and diffs to nothing exactly when the
      readback is enabled and canonical. */
  lemma UntouchedCompliance(r: Sink, enabled: bool)
    ensures SharedAccepted(FormOf(r)) && ComplianceDiff(SharedWrite(FormOf(r)), enabled, Some(r)) == []
            <==> enabled && CanonicalSink(r)
  {
    hide SharedAccepted, SharedWrite, CanonicalSink, FormOf, SharedDiff;
    UntouchedShared(r);
    SharedDiffEmpty(SharedWrite(FormOf(r)), r);
  }

  //-------------------------------------------------------
  // Named sinks
  //-------------------------------------------------------

  predicate SinkNameChar(c: char) { 'a' <= c <= 'z' || '0' <= c <= '9' || c == '_' || c == '-' }

  predicate SinkName(s: string) { 1 <= |s| <= 64 && forall c | c in s :: SinkNameChar(c) }

  function TrimEach(pieces: seq<string>): (r: seq<string>)
    ensures |r| == |pieces| && forall i | 0 <= i < |r| :: r[i] == Trim(pieces[i])
  {
    seq(|pieces|, i requires 0 <= i < |pieces| => Trim(pieces[i]))
  }

  function ServicesOf(text: string): seq<string> { if Trim(text) != "" then TrimEach(Split(text, ',')) else [] }

  function NamedError(form: NamedForm, f: FormField): Option<Error>
  {
    match f
    case Name =>
      if form.name == AUDIT_RESERVED_SINK_NAME then Some(ReservedName)
      else if !SinkName(form.name) then Some(BadName) else None
    case Enterprise =>
      if Trim(form.enterprise) == "" then Some(Required)
      else ErrorOf(OptionalNumber(form.enterprise, 1, AUDIT_MAX_ENTERPRISE_NUMBER))
    case Services => if "" in ServicesOf(form.services) then Some(BadService) else None
    case Sample => ErrorOf(OptionalNumber(form.sample, 0, MAX_SAFE_INTEGER))
    case _ => SharedError(form.sink, f)
  }

  /** A filter that keeps nothing out is no filter; a sample of 0 or 1 keeps every record. */
  function NormalFilter(f: Option<Filter>): Option<Filter>
  {
    var g := FilterOf(f);
    var normal := g.(sample := if g.sample > 1 then g.sample else 0);
    if normal == NO_FILTER then None else Some(normal)
  }

  function NamedWrite(form: NamedForm): NamedSink
  {
    NamedSink(SharedWrite(form.sink), NumberOf(OptionalNumber(form.enterprise, 1, AUDIT_MAX_ENTERPRISE_NUMBER)),
              NormalFilter(Some(Filter(form.streams, ServicesOf(form.services), form.outcome,
                                       NumberOf(OptionalNumber(form.sample, 0, MAX_SAFE_INTEGER))))))
  }

  lemma SharedFields(form: SinkForm)
    ensures SharedError(form, Name) == SharedError(form, Enterprise) == None
    ensures SharedError(form, Services) == SharedError(form, Sample) == None
  {
  }

  predicate Shared(f: FormField) { Textual(f) || f.Facility? || f.MaxFrame? }

  method ParseNamedFields(form: NamedForm, shared: Errors) returns (errors: Errors)
    requires forall f :: At(shared, f) == if Shared(f) then NamedError(form, f) else None
    ensures forall f :: At(errors, f) == NamedError(form, f)
  {
    hide Trim, OptionalNumber, SharedError, SinkName, At, ServicesOf;
    SharedFields(form.sink);
    var nameError := if form.name == AUDIT_RESERVED_SINK_NAME then Some(ReservedName)
                     else if !SinkName(form.name) then Some(BadName) else None;
    errors := Push(shared, Name, nameError);
    var enterprise := OptionalNumber(form.enterprise, 1, AUDIT_MAX_ENTERPRISE_NUMBER);
    errors := Push(errors, Enterprise, if Trim(form.enterprise) == "" then Some(Required) else ErrorOf(enterprise));
    errors := Push(errors, Services, if "" in ServicesOf(form.services) then Some(BadService) else None);
    errors := Push(errors, Sample, ErrorOf(OptionalNumber(form.sample, 0, MAX_SAFE_INTEGER)));
  }

  method ParseNamedSinkForm(form: NamedForm) returns (errors: Errors, body: Option<NamedSink>)
    ensures forall f :: At(errors, f) == NamedError(form, f)
    ensures body == if errors == map[] then Some(NamedWrite(form)) else None
  {
    hide Trim, OptionalNumber, SharedWrite, SharedError, NormalFilter, SinkName, At, ServicesOf;
    var shared;
    errors, shared := ParseShared(form.sink);
    SharedFields(form.sink);
    errors := ParseNamedFields(form, errors);
    if errors != map[] { return errors, None; }
    var enterprise := OptionalNumber(form.enterprise, 1, AUDIT_MAX_ENTERPRISE_NUMBER);
    var sample := OptionalNumber(form.sample, 0, MAX_SAFE_INTEGER);
    var filter := NormalFilter(Some(Filter(form.streams, ServicesOf(form.services), form.outcome, NumberOf(sample))));
    body := Some(NamedSink(shared, NumberOf(enterprise), filter));
  }

  function NamedDiff(sent: NamedSink, read: Option<NamedSink>): seq<SinkField>
  {
    if read.None? then [Enabled]
    else
      SharedDiff(sent.sink, read.value.sink) + Differ(sent.enterprise == read.value.enterprise, DEnterprise)
      + Differ(NormalFilter(sent.filter) == NormalFilter(read.value.filter), DFilter)
  }

  predicate CanonicalNamed(name: string, r: NamedSink)
  {
    && SinkName(name) && name != AUDIT_RESERVED_SINK_NAME
    && CanonicalSink(r.sink) && 1 <= r.enterprise <= AUDIT_MAX_ENTERPRISE_NUMBER
    && FilterOf(r.filter).sample <= MAX_SAFE_INTEGER
    && forall s | s in FilterOf(r.filter).services :: ListName(s)
  }

  predicate NamedAccepted(form: NamedForm)
  {
    forall f: FormField :: NamedError(form, f) == None
  }

  lemma NormalTwice(f: Option<Filter>)
    ensures NormalFilter(NormalFilter(f)) == NormalFilter(f)
  {
  }

  /** The services field printed and parsed again gives the list exactly when every entry is a name. */
  lemma ServicesRoundTrip(list: seq<string>)
    ensures (ServicesOf(Join(list, ", ")) == list && "" !in list) <==> ListNames(list)
  {
    hide Trim, Trimmed, Join, Split;
    var text := Join(list, ", ");
    if ListNames(list) {
      NamesPrinted(list);
    }
    if ServicesOf(text) == list && "" !in list {
      forall n | n in list
        ensures ListName(n)
      {
        var i :| 0 <= i < |list| && list[i] == n;
        ServiceName(text, i);
      }
    }
  }

  lemma ServiceName(text: string, i: nat)
    requires i < |ServicesOf(text)| && ServicesOf(text)[i] != ""
    ensures ListName(ServicesOf(text)[i])
  {
    hide Split, TrimLeft, TrimRight, IsSpace;
    var pieces := Split(text, ',');
    assert pieces[i] in pieces;
  }

  lemma NamesPrinted(list: seq<string>)
    requires ListNames(list)
    ensures ServicesOf(Join(list, ", ")) == list && "" !in list
  {
    hide Trim, Join, Split, TrimEach, ListNames, SpacedList;
    if list == [] {
      NoServices();
    } else {
      JoinSpaced(list);
      PrintedPieces(list);
      PrintedText(list);
    }
  }

  lemma NoServices()
    ensures ServicesOf(Join([], ", ")) == []
  {
  }

  lemma PrintedPieces(list: seq<string>)
    requires ListNames(list) && list != []
    ensures Split(Join(SpacedList(list), ","), ',') == SpacedList(list)
    ensures TrimEach(SpacedList(list)) == list && "" !in list
  {
    hide Trim, Trimmed, Join, Split;
    var spaced := SpacedList(list);
    forall i | 0 <= i < |list|
      ensures ',' !in spaced[i] && Trim(spaced[i]) == list[i] != ""
    {
      assert list[i] in list && ListName(list[i]);
      TrimEither(list[i], spaced[i]);
    }
    SplitJoin(spaced, ',');
  }

  lemma PrintedText(list: seq<string>)
    requires ListNames(list) && list != []
    ensures Trim(Join(list, ", ")) != ""
  {
    hide Trim, IsSpace;
    assert list[0] in list && ListName(list[0]);
    assert Join(list, ", ")[0] == list[0][0];
    TrimKeepsFront(Join(list, ", "));
  }

  lemma {:induction false} TrimRightKeepsFront(s: string)
    requires s != "" && !IsSpace(s[0])
    ensures TrimRight(s) != ""
  {
    hide IsSpace;
    if |s| > 1 { TrimRightKeepsFront(s[..|s| - 1]); }
  }

  lemma TrimKeepsFront(s: string)
    requires s != "" && !IsSpace(s[0])
    ensures Trim(s) != ""
  {
    hide IsSpace, TrimRight;
    TrimRightKeepsFront(s);
  }

  lemma FilterRoundTrip(f: Option<Filter>, services: seq<string>)
    requires services == FilterOf(f).services
    ensures NormalFilter(Some(Filter(FilterOf(f).streams, services, FilterOf(f).outcome, FilterOf(f).sample))) == NormalFilter(f)
  {
  }

  lemma FilterServices(a: Filter, b: Option<Filter>)
    requires NormalFilter(Some(a)) == NormalFilter(b)
    ensures a.services == FilterOf(b).services
  {
  }

  lemma NamedDiffEmpty(sent: NamedSink, read: NamedSink)
    ensures NamedDiff(sent, Some(read)) == [] <==>
            sent.sink == read.sink && sent.enterprise == read.enterprise && NormalFilter(sent.filter) == NormalFilter(read.filter)
  {
    hide SharedDiff, NormalFilter;
    SharedDiffEmpty(sent.sink, read.sink);
  }

  lemma NamedFields(form: NamedForm)
    ensures NamedAccepted(form) <==>
            && SharedAccepted(form.sink) && NamedError(form, Name) == None && NamedError(form, Enterprise) == None
            && NamedError(form, Services) == None && NamedError(form, Sample) == None
  {
    SharedFields(form.sink);
    hide SharedError, Trim, OptionalNumber, SinkName, ServicesOf;
    if NamedAccepted(form) {
      forall f: FormField
        ensures SharedError(form.sink, f) == None
      {
        assert NamedError(form, f) == None;
      }
    }
  }

  /** A named sink with a filter: untouched, it parses without error and diffs to nothing exactly
      when its name is legal and the readback is canonical. */
  lemma UntouchedNamed(name: string, r: NamedSink)
    ensures NamedAccepted(NamedFormOf(name, r)) && NamedDiff(NamedWrite(NamedFormOf(name, r)), Some(r)) == []
            <==> CanonicalNamed(name, r)
  {
    hide *;
    var form := NamedFormOf(name, r);
    NamedFields(form);
    NamedDiffEmpty(NamedWrite(form), r);
    UntouchedShared(r.sink);
    NamedNumbers(name, r);
    NamedServices(name, r);
    NamedParts(name, r);
  }

  /** The form and the write of a readback, part by part. */
  lemma NamedParts(name: string, r: NamedSink)
    ensures var form := NamedFormOf(name, r);
            && form.sink == FormOf(r.sink) && NamedWrite(form).sink == SharedWrite(FormOf(r.sink))
            && (NamedError(form, Name) == None <==> SinkName(name) && name != AUDIT_RESERVED_SINK_NAME)
    ensures CanonicalNamed(name, r) <==>
            && SinkName(name) && name != AUDIT_RESERVED_SINK_NAME && CanonicalSink(r.sink)
            && 1 <= r.enterprise <= AUDIT_MAX_ENTERPRISE_NUMBER && FilterOf(r.filter).sample <= MAX_SAFE_INTEGER
            && ListNames(FilterOf(r.filter).services)
  {
    hide FormOf, SharedWrite, SinkName, CanonicalSink, OptionalNumber, NormalFilter, ServicesOf, Join;
  }

  lemma NamedNumbers(name: string, r: NamedSink)
    ensures var form := NamedFormOf(name, r);
            && (NamedError(form, Enterprise) == None && NamedWrite(form).enterprise == r.enterprise
                <==> 1 <= r.enterprise <= AUDIT_MAX_ENTERPRISE_NUMBER)
            && (NamedError(form, Sample) == None <==> FilterOf(r.filter).sample <= MAX_SAFE_INTEGER)
  {
    hide FormOf, SharedWrite, OptionalNumber, NormalFilter, ServicesOf, Join, BlankIfZero, Trim;
    PrintedOptional(r.enterprise, 1, AUDIT_MAX_ENTERPRISE_NUMBER);
    PrintedOptional(FilterOf(r.filter).sample, 0, MAX_SAFE_INTEGER);
    BlankText(r.enterprise);
  }

  lemma BlankText(n: nat)
    ensures Trim(BlankIfZero(n)) == "" <==> n == 0
  {
    hide Trim, Decimal;
    if n == 0 { TrimEmpty(); } else { DecimalTrimmed(n); }
  }

  lemma NamedServices(name: string, r: NamedSink)
    requires FilterOf(r.filter).sample <= MAX_SAFE_INTEGER || NamedError(NamedFormOf(name, r), Sample) != None
    ensures var form := NamedFormOf(name, r);
            NamedError(form, Sample) == None ==>
              (NamedError(form, Services) == None && NormalFilter(NamedWrite(form).filter) == NormalFilter(r.filter)
               <==> ListNames(FilterOf(r.filter).services))
  {
    hide FormOf, SharedWrite, OptionalNumber, ServicesOf, Join, BlankIfZero, Trim, NormalFilter;
    var f := FilterOf(r.filter);
    var form := NamedFormOf(name, r);
    PrintedOptional(f.sample, 0, MAX_SAFE_INTEGER);
    var services := ServicesOf(Join(f.services, ", "));
    var sent := Filter(f.streams, services, f.outcome, NumberOf(OptionalNumber(form.sample, 0, MAX_SAFE_INTEGER)));
    NormalTwice(Some(sent));
    ServicesRoundTrip(f.services);
    if NamedError(form, Sample) == None {
      if NormalFilter(Some(sent)) == NormalFilter(r.filter) { FilterServices(sent, r.filter); }
      if services == f.services { FilterRoundTrip(r.filter, services); }
    }
  }
}
