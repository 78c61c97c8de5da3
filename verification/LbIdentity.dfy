/** The delete route of a load-balancer rule: every component of its key can be read back from it. */
module LbIdentity {
  import opened Text
  import opened Percent

  /** The members of a rule's arguments the route depends on. */
  datatype RuleArgs = RuleArgs(externalIP: string, port: nat, portMax: Option<nat>, protocol: string,
                               host: Option<string>, pathPrefix: Option<string>,
                               pathMatchMode: Option<string>, modelName: Option<string>)

  datatype Key = Key(externalIP: string, port: nat, portMax: Option<nat>, protocol: string,
                     host: Option<string>, pathPrefix: Option<string>,
                     pathMatchMode: Option<string>, modelName: Option<string>)

  /** A text member counts as present only when it is not empty. */
  function Present(v: Option<string>): Option<string>
  {
    if v.Some? && v.value != "" then v else None
  }

  function BuildKey(a: RuleArgs): Key
  {
    Key(a.externalIP, a.port, if a.portMax.Some? && a.portMax.value > a.port then a.portMax else None, a.protocol,
        Present(a.host), Present(a.pathPrefix), Present(a.pathMatchMode), Present(a.modelName))
  }

  //-------------------------------------------------------
  // Printing the path
  //-------------------------------------------------------

  function Segment(v: string): string { Encode(v, Component) }

  /** `/a/b/c` */
  function Slashed(segments: seq<string>): string
  {
    if segments == [] then "" else "/" + segments[0] + Slashed(segments[1..])
  }

  const PATH_PREFIX := "path_prefix"
  const PATH_MATCH_MODE := "path_match_mode"
  const MODEL_NAME := "model_name"

  function Parameter(name: string, v: Option<string>): seq<string>
  {
    if Present(v).Some? then [name + "=" + Encode(v.value, Form)] else []
  }

  function Query(k: Key): seq<string>
  {
    (if Present(k.host).Some? then Parameter(PATH_PREFIX, k.pathPrefix) + Parameter(PATH_MATCH_MODE, k.pathMatchMode)
     else [])
    + Parameter(MODEL_NAME, k.modelName)
  }

  function HostSegments(k: Key): seq<string>
  {
    if Present(k.host).Some? then ["hosturl", Segment(k.host.value)] else []
  }

  function RangeSegments(k: Key): seq<string>
  {
    if k.portMax.Some? then ["portmax", Segment(Decimal(k.portMax.value))] else []
  }

  function PathText(k: Key): string
  {
    "/config/loadbalancer" + Slashed(HostSegments(k))
    + Slashed(["externalipaddress", Segment(k.externalIP), "port", Segment(Decimal(k.port))])
    + Slashed(RangeSegments(k)) + Slashed(["protocol", Segment(k.protocol)])
  }

  function BuildPath(k: Key): string
  {
    var suffix := Join(Query(k), "&");
    if suffix != "" then PathText(k) + "?" + suffix else PathText(k)
  }

  //-------------------------------------------------------
  // Reading it back
  //-------------------------------------------------------

  function Plain(segment: string): string { Decode(segment, Component) }

  function PortOf(segment: string): nat
  {
    if IsDecimal(Plain(segment)) then NumeralValue(Plain(segment), 10) else 0
  }

  /** The value of the first parameter called `name`. */
  function Lookup(query: seq<string>, name: string): Option<string>
  {
    if query == [] then None
    else if name + "=" <= query[0] then Some(Decode(query[0][|name| + 1..], Form))
    else Lookup(query[1..], name)
  }

  /** The components of a route whose segments after the fixed prefix are `parts`. */
  function ReadParts(parts: seq<string>, query: seq<string>): Option<Key>
  {
    var host := if |parts| > 1 && parts[0] == "hosturl" then Some(Plain(parts[1])) else None;
    var rest := if host.Some? then parts[2..] else parts;
    if |rest| < 6 then None
    else
      var range := if |rest| == 8 && rest[4] == "portmax" then Some(PortOf(rest[5])) else None;
      Some(Key(Plain(rest[1]), PortOf(rest[3]), range, Plain(rest[|rest| - 1]), host,
               Lookup(query, PATH_PREFIX), Lookup(query, PATH_MATCH_MODE), Lookup(query, MODEL_NAME)))
  }

  function ParsePath(path: string): Option<Key>
  {
    var cut := Split(path, '?');
    var segments := Split(cut[0], '/');
    if |segments| < 3 then None
    else ReadParts(segments[3..], if |cut| > 1 then Split(cut[1], '&') else [])
  }

  /** The components the route carries: qualifiers of a path only next to a host, and no empty text. */
  function Carried(k: Key): Key
  {
    var host := Present(k.host);
    k.(host := host,
       pathPrefix := if host.Some? then Present(k.pathPrefix) else None,
       pathMatchMode := if host.Some? then Present(k.pathMatchMode) else None,
       modelName := Present(k.modelName))
  }

  //-------------------------------------------------------
  // The route's shape
  //-------------------------------------------------------

  lemma {:induction false} SlashedConcat(a: seq<string>, b: seq<string>)
    ensures Slashed(a + b) == Slashed(a) + Slashed(b)
  {
    if a == [] {
      assert a + b == b;
    } else {
      SlashedConcat(a[1..], b);
      assert (a + b)[1..] == a[1..] + b && (a + b)[0] == a[0];
      Assoc("/" + a[0], Slashed(a[1..]), Slashed(b));
    }
  }

  lemma {:induction false} SplitSlashed(segments: seq<string>)
    requires forall s | s in segments :: '/' !in s
    ensures Split(Slashed(segments), '/') == [""] + segments
  {
    if segments != [] {
      hide Split;
      SplitSlashed(segments[1..]);
      SplitTail(segments[0], segments[1..]);
      assert segments == [segments[0]] + segments[1..];
    }
  }

  lemma SlashedCons(segments: seq<string>)
    requires segments != []
    ensures Slashed(segments) == "" + "/" + (segments[0] + Slashed(segments[1..]))
  {
  }

  lemma SplitTail(first: string, rest: seq<string>)
    requires '/' !in first && Split(Slashed(rest), '/') == [""] + rest
    ensures Split("/" + first + Slashed(rest), '/') == [""] + ([first] + rest)
  {
    hide Split, Slashed;
    SplitFirst("", first + Slashed(rest), '/');
    assert "" + "/" + (first + Slashed(rest)) == "/" + first + Slashed(rest);
    if rest == [] {
      assert Slashed(rest) == "" by { Empty(); }
      assert first + Slashed(rest) == first;
      SplitNone(first, '/');
    } else {
      var after := rest[0] + Slashed(rest[1..]);
      SlashedCons(rest);
      SplitFirst("", after, '/');
      assert ([""] + Split(after, '/'))[1..] == ([""] + rest)[1..];
      SplitFirst(first, after, '/');
      assert first + "/" + after == first + ("" + "/" + after);
    }
  }

  lemma Empty()
    ensures Slashed([]) == ""
  {
  }

  function Segments(k: Key): seq<string>
  {
    HostSegments(k) + ["externalipaddress", Segment(k.externalIP), "port", Segment(Decimal(k.port))]
    + RangeSegments(k) + ["protocol", Segment(k.protocol)]
  }

  lemma PathSegments(k: Key)
    ensures PathText(k) == Slashed(["config", "loadbalancer"] + Segments(k))
  {
    hide Segment, HostSegments, RangeSegments, Slashed;
    var h, e, r, p := HostSegments(k), ["externalipaddress", Segment(k.externalIP), "port", Segment(Decimal(k.port))],
                      RangeSegments(k), ["protocol", Segment(k.protocol)];
    SlashedConcat(h, e);
    SlashedConcat(h + e, r);
    SlashedConcat(h + e + r, p);
    SlashedConcat(["config", "loadbalancer"], Segments(k));
    FixedPrefix();
  }

  lemma FixedPrefix()
    ensures Slashed(["config", "loadbalancer"]) == "/config/loadbalancer"
  {
    assert ["config", "loadbalancer"][1..] == ["loadbalancer"] && ["loadbalancer"][1..] == [];
  }

  ghost predicate AllSafe(texts: seq<string>) { forall t | t in texts :: Safe(t) }

  lemma AllSafeConcat(a: seq<string>, b: seq<string>)
    requires AllSafe(a) && AllSafe(b)
    ensures AllSafe(a + b)
  {
    hide Safe;
  }

  lemma NamesSafe()
    ensures AllSafe(["config", "loadbalancer"]) && Safe("hosturl") && Safe("externalipaddress")
    ensures Safe("port") && Safe("portmax") && Safe("protocol")
  {
  }

  lemma NamedSafe(name: string, v: string)
    requires Safe(name)
    ensures AllSafe([name, Segment(v)])
  {
    EncodeSafe(v, Component);
    hide Safe, Encode;
  }

  lemma SegmentsSafe(k: Key)
    ensures AllSafe(["config", "loadbalancer"] + Segments(k))
  {
    hide Segment, Decimal, Safe, AllSafe;
    var h, r, p := HostSegments(k), RangeSegments(k), ["protocol", Segment(k.protocol)];
    var e1, e2 := ["externalipaddress", Segment(k.externalIP)], ["port", Segment(Decimal(k.port))];
    NamesSafe();
    if h != [] { NamedSafe("hosturl", k.host.value); } else { EmptySafe(); }
    if r != [] { NamedSafe("portmax", Decimal(k.portMax.value)); } else { EmptySafe(); }
    NamedSafe("externalipaddress", k.externalIP);
    NamedSafe("port", Decimal(k.port));
    NamedSafe("protocol", k.protocol);
    AllSafeConcat(e1, e2);
    AllSafeConcat(h, e1 + e2);
    AllSafeConcat(h + (e1 + e2), r);
    AllSafeConcat(h + (e1 + e2) + r, p);
    assert Segments(k) == h + (e1 + e2) + r + p;
    AllSafeConcat(["config", "loadbalancer"], Segments(k));
  }

  lemma EmptySafe()
    ensures AllSafe([])
  {
  }

  lemma {:induction false} SlashedSafe(segments: seq<string>)
    requires AllSafe(segments)
    ensures '?' !in Slashed(segments) && forall s | s in segments :: '/' !in s
  {
    if segments != [] {
      assert Safe(segments[0]);
      SlashedSafe(segments[1..]);
      assert segments == [segments[0]] + segments[1..];
    }
  }

  //-------------------------------------------------------
  // The round trip
  //-------------------------------------------------------

  lemma PortReads(n: nat)
    ensures PortOf(Segment(Decimal(n))) == n
  {
    hide Decode, Encode;
    DecodeEncode(Decimal(n), Component);
    NumeralRoundTrip(n, 10);
  }

  lemma PartsRead(k: Key, query: seq<string>)
    ensures ReadParts(Segments(k), query)
         == Some(Key(k.externalIP, k.port, k.portMax, k.protocol, Present(k.host),
                     Lookup(query, PATH_PREFIX), Lookup(query, PATH_MATCH_MODE), Lookup(query, MODEL_NAME)))
  {
    hide Lookup, Encode, Decode, Decimal, PortOf;
    var h, r := HostSegments(k), RangeSegments(k);
    PortReads(k.port);
    DecodeEncode(k.externalIP, Component);
    DecodeEncode(k.protocol, Component);
    if h != [] { DecodeEncode(k.host.value, Component); }
    if r != [] { PortReads(k.portMax.value); }
    var rest := ["externalipaddress", Segment(k.externalIP), "port", Segment(Decimal(k.port))] + r
                + ["protocol", Segment(k.protocol)];
    assert Segments(k) == h + rest;
    assert |h| == 2 ==> Segments(k)[2..] == rest;
    assert |h| == 0 ==> Segments(k) == rest;
  }

  lemma ParameterReads(name: string, v: Option<string>, rest: seq<string>)
    ensures Lookup(Parameter(name, v) + rest, name) == if Present(v).Some? then v else Lookup(rest, name)
  {
    hide Encode, Decode;
    if Present(v).Some? {
      DecodeEncode(v.value, Form);
      var p := name + "=" + Encode(v.value, Form);
      assert p[|name| + 1..] == Encode(v.value, Form);
      assert (Parameter(name, v) + rest)[0] == p;
    } else {
      assert Parameter(name, v) + rest == rest;
    }
  }

  /** `other` disagrees with `name=` within its first characters. */
  predicate Distinct(name: string, other: string)
  {
    exists i | 0 <= i < |name| && i < |other| :: name[i] != other[i]
  }

  lemma ParameterSkipped(name: string, other: string, v: Option<string>, rest: seq<string>)
    requires Distinct(name, other)
    ensures Lookup(Parameter(other, v) + rest, name) == Lookup(rest, name)
  {
    hide Encode;
    if Present(v).Some? {
      var p := other + "=" + Encode(v.value, Form);
      var i :| 0 <= i < |name| && i < |other| && name[i] != other[i];
      assert p[i] == other[i] && (name + "=")[i] == name[i];
      assert (Parameter(other, v) + rest)[0] == p && (Parameter(other, v) + rest)[1..] == rest;
    } else {
      assert Parameter(other, v) + rest == rest;
    }
  }

  lemma QueryReads(k: Key)
    ensures var c := Carried(k);
            && Lookup(Query(k), PATH_PREFIX) == c.pathPrefix
            && Lookup(Query(k), PATH_MATCH_MODE) == c.pathMatchMode
            && Lookup(Query(k), MODEL_NAME) == c.modelName
  {
    hide Parameter;
    assert PATH_PREFIX[5] != PATH_MATCH_MODE[5] && PATH_PREFIX[0] != MODEL_NAME[0] && PATH_MATCH_MODE[0] != MODEL_NAME[0];
    var m := Parameter(MODEL_NAME, k.modelName);
    assert m + [] == m;
    assert Lookup([], PATH_PREFIX) == Lookup([], PATH_MATCH_MODE) == Lookup([], MODEL_NAME) == None;
    ParameterReads(MODEL_NAME, k.modelName, []);
    ParameterSkipped(PATH_PREFIX, MODEL_NAME, k.modelName, []);
    ParameterSkipped(PATH_MATCH_MODE, MODEL_NAME, k.modelName, []);
    if Present(k.host).Some? {
      var mm := Parameter(PATH_MATCH_MODE, k.pathMatchMode) + m;
      ParameterReads(PATH_MATCH_MODE, k.pathMatchMode, m);
      ParameterSkipped(PATH_PREFIX, PATH_MATCH_MODE, k.pathMatchMode, m);
      ParameterSkipped(MODEL_NAME, PATH_MATCH_MODE, k.pathMatchMode, m);
      ParameterReads(PATH_PREFIX, k.pathPrefix, mm);
      ParameterSkipped(PATH_MATCH_MODE, PATH_PREFIX, k.pathPrefix, mm);
      ParameterSkipped(MODEL_NAME, PATH_PREFIX, k.pathPrefix, mm);
      assert Query(k) == Parameter(PATH_PREFIX, k.pathPrefix) + mm;
    } else {
      assert Query(k) == m;
    }
  }

  lemma ParameterPlain(name: string, v: Option<string>)
    requires '&' !in name && '?' !in name
    ensures forall p | p in Parameter(name, v) :: p != "" && '&' !in p && '?' !in p
  {
    if Present(v).Some? { EncodeSafe(v.value, Form); }
    hide Encode;
  }

  lemma QueryPlain(k: Key)
    ensures forall p | p in Query(k) :: p != "" && '&' !in p && '?' !in p
  {
    hide Parameter, Encode;
    ParameterPlain(PATH_PREFIX, k.pathPrefix);
    ParameterPlain(PATH_MATCH_MODE, k.pathMatchMode);
    ParameterPlain(MODEL_NAME, k.modelName);
  }

  lemma {:induction false} JoinWithout(pieces: seq<string>, c: char)
    requires c != '&' && forall p | p in pieces :: c !in p
    ensures c !in Join(pieces, "&")
  {
    if pieces != [] {
      assert pieces[0] in pieces;
      JoinWithout(pieces[1..], c);
    }
  }

  lemma JoinEmpty(pieces: seq<string>)
    requires forall p | p in pieces :: p != ""
    ensures Join(pieces, "&") == "" <==> pieces == []
  {
    if pieces != [] { assert pieces[0] in pieces; }
  }

  lemma CutRoute(k: Key)
    ensures Split(BuildPath(k), '?') == if Query(k) == [] then [PathText(k)] else [PathText(k), Join(Query(k), "&")]
    ensures Query(k) != [] ==> Split(Join(Query(k), "&"), '&') == Query(k)
  {
    hide Query, Join, Slashed, Segments, PathText, HostSegments, RangeSegments, Segment;
    var q := Query(k);
    PathSegments(k);
    SegmentsSafe(k);
    SlashedSafe(["config", "loadbalancer"] + Segments(k));
    QueryPlain(k);
    JoinEmpty(q);
    JoinWithout(q, '?');
    if q != [] {
      SplitFirst(PathText(k), Join(q, "&"), '?');
      SplitJoin(q, '&');
    }
  }

  /** The parser recovers every component the route carries. */
  lemma ParseBuildPath(k: Key)
    ensures ParsePath(BuildPath(k)) == Some(Carried(k))
  {
    hide Split, Query, Join, Slashed, Segments, PathText, ReadParts, Lookup, BuildPath;
    var all := ["config", "loadbalancer"] + Segments(k);
    CutRoute(k);
    PathSegments(k);
    SegmentsSafe(k);
    SlashedSafe(all);
    SplitSlashed(all);
    assert ([""] + all)[3..] == Segments(k);
    PartsRead(k, Query(k));
    QueryReads(k);
  }

  /** Two keys share a route exactly when they share every component it carries. */
  lemma SamePathIffSameKey(a: Key, b: Key)
    ensures BuildPath(a) == BuildPath(b) <==> Carried(a) == Carried(b)
  {
    hide ParsePath, BuildPath, Carried;
    ParseBuildPath(a);
    ParseBuildPath(b);
    if Carried(a) == Carried(b) {
      CarriedPath(a);
      CarriedPath(b);
    }
  }

  lemma CarriedPath(k: Key)
    ensures BuildPath(Carried(k)) == BuildPath(k)
  {
    hide Encode, Join, Slashed, Decimal;
    assert Query(Carried(k)) == Query(k);
  }

  /** Two rules share a delete route exactly when they share the address, port, protocol, model,
      range above the port and host, and next to a host also the path qualifiers. */
  lemma SameRouteIffSameTuple(a: RuleArgs, b: RuleArgs)
    ensures BuildPath(BuildKey(a)) == BuildPath(BuildKey(b)) <==>
            && a.externalIP == b.externalIP && a.port == b.port && a.protocol == b.protocol
            && BuildKey(a).portMax == BuildKey(b).portMax
            && Present(a.host) == Present(b.host) && Present(a.modelName) == Present(b.modelName)
            && (Present(a.host).Some? ==> Present(a.pathPrefix) == Present(b.pathPrefix)
                                          && Present(a.pathMatchMode) == Present(b.pathMatchMode))
  {
    SamePathIffSameKey(BuildKey(a), BuildKey(b));
    hide BuildPath;
  }

  //-------------------------------------------------------
  // The route as text
  //-------------------------------------------------------

  lemma DecimalSegment(n: nat)
    ensures Segment(Decimal(n)) == Decimal(n)
  {
    hide Numeral, Encode;
    forall c | c in Decimal(n)
      ensures '0' <= c <= '9'
    {
      assert IsNumeral(Decimal(n), 10);
    }
    EncodePlain(Decimal(n));
  }

  lemma Slashed2(a: string, b: string)
    ensures Slashed([a, b]) == "/" + a + "/" + b
  {
    assert [a, b][1..] == [b] && [b][1..] == [];
    assert Slashed([b]) == "/" + b + Slashed([]);
  }

  lemma Slashed4(a: string, b: string, c: string, d: string)
    ensures Slashed([a, b, c, d]) == "/" + a + "/" + b + "/" + c + "/" + d
  {
    Slashed2(a, b);
    Slashed2(c, d);
    SlashedConcat([a, b], [c, d]);
    assert [a, b, c, d] == [a, b] + [c, d];
  }

  function Given(name: string, v: Option<string>): seq<string>
  {
    if v.Some? && v.value != "" then [name + Encode(v.value, Form)] else []
  }

  /** The parameters of the query string, in order. */
  function Parameters(k: Key): seq<string>
  {
    (if k.host.Some? && k.host.value != ""
     then Given("path_prefix=", k.pathPrefix) + Given("path_match_mode=", k.pathMatchMode) else [])
    + Given("model_name=", k.modelName)
  }

  lemma ParameterText(name: string, v: Option<string>, literal: string)
    requires name + "=" == literal
    ensures Parameter(name, v) == Given(literal, v)
  {
  }

  lemma ParametersAre(k: Key)
    ensures Query(k) == Parameters(k)
  {
    hide Encode, Given, Parameter;
    ParameterText(PATH_PREFIX, k.pathPrefix, "path_prefix=");
    ParameterText(PATH_MATCH_MODE, k.pathMatchMode, "path_match_mode=");
    ParameterText(MODEL_NAME, k.modelName, "model_name=");
  }

  lemma NoParameters(k: Key)
    ensures Join(Parameters(k), "&") == "" <==> Parameters(k) == []
  {
    hide Encode;
    if Parameters(k) != [] {
      assert Parameters(k)[0] != "";
      assert Join(Parameters(k), "&") != "" by { FirstNotEmpty(Parameters(k)); }
    }
  }

  lemma FirstNotEmpty(pieces: seq<string>)
    requires pieces != [] && pieces[0] != ""
    ensures Join(pieces, "&") != ""
  {
  }

  /** The route is the tuple-delete route of the gateway's API, with each component encoded for its place. */
  lemma RouteText(k: Key)
    ensures var host := if Present(k.host).Some? then "/hosturl/" + Encode(k.host.value, Component) else "";
            var range := if k.portMax.Some? then "/portmax/" + Decimal(k.portMax.value) else "";
            var query := if Parameters(k) != [] then "?" + Join(Parameters(k), "&") else "";
            BuildPath(k) == "/config/loadbalancer" + host
                            + ("/externalipaddress/" + Encode(k.externalIP, Component) + "/port/" + Decimal(k.port))
                            + range + ("/protocol/" + Encode(k.protocol, Component)) + query
  {
    hide Encode, Numeral, Slashed, Query, Parameters, Join;
    ParametersAre(k);
    NoParameters(k);
    RouteParts(k);
  }

  lemma RouteParts(k: Key)
    ensures Slashed(HostSegments(k)) == if Present(k.host).Some? then "/hosturl/" + Encode(k.host.value, Component) else ""
    ensures Slashed(RangeSegments(k)) == if k.portMax.Some? then "/portmax/" + Decimal(k.portMax.value) else ""
    ensures Slashed(["externalipaddress", Segment(k.externalIP), "port", Segment(Decimal(k.port))])
            == "/externalipaddress/" + Encode(k.externalIP, Component) + "/port/" + Decimal(k.port)
    ensures Slashed(["protocol", Segment(k.protocol)]) == "/protocol/" + Encode(k.protocol, Component)
  {
    hide Encode, Numeral;
    DecimalSegment(k.port);
    Slashed4("externalipaddress", Segment(k.externalIP), "port", Segment(Decimal(k.port)));
    Slashed2("protocol", Segment(k.protocol));
    if Present(k.host).Some? { Slashed2("hosturl", Segment(k.host.value)); }
    if k.portMax.Some? {
      DecimalSegment(k.portMax.value);
      Slashed2("portmax", Segment(Decimal(k.portMax.value)));
    }
  }
}
