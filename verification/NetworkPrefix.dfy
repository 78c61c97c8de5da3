/** `networkPrefixKey`: one key per network prefix, whatever way it was written. */
module NetworkPrefix {
  import opened Text
  import opened Bits

  //-------------------------------------------------------
  // The host text of a URL with an IPv6 address
  //-------------------------------------------------------

  /** An IPv6 host as a URL parser shows it: eight units, of which the zero run
      of `len` units at `start` is written `::`; `len` is 0 when nothing is compressed. */
  datatype Host = Host(units: seq<nat>, start: nat, len: nat)

  ghost predicate ValidHost(h: Host)
  {
    && |h.units| == 8 && InRange(h.units, 16)
    && h.start + h.len <= 8
    && forall i | h.start <= i < h.start + h.len :: h.units[i] == 0
  }

  function Hexes(units: seq<nat>): (r: seq<string>)
    ensures |r| == |units| && forall i | 0 <= i < |r| :: IsNumeral(r[i], 16) && r[i] == Numeral(units[i], 16)
  {
    seq(|units|, i requires 0 <= i < |units| => Numeral(units[i], 16))
  }

  function HexText(units: seq<nat>): string { Join(Hexes(units), ":") }

  function HostText(h: Host): string
    requires h.start + h.len <= |h.units|
  {
    if h.len == 0 then HexText(h.units)
    else HexText(h.units[..h.start]) + "::" + HexText(h.units[h.start + h.len..])
  }

  /** No empty piece: colons neither touch each other nor an end. */
  ghost predicate Spaced(s: string)
  {
    && (s != "" ==> s[0] != ':' && s[|s| - 1] != ':')
    && forall k | 0 <= k < |s| - 1 :: !(s[k] == ':' && s[k + 1] == ':')
  }

  lemma {:induction false} HexTextSpaced(units: seq<nat>)
    ensures Spaced(HexText(units))
    ensures units != [] ==> HexText(units) != ""
  {
    if units != [] {
      HexTextSpaced(units[1..]);
      assert Hexes(units)[1..] == Hexes(units[1..]);
      NumeralPlain(units[0], 16, ':');
      if |units| > 1 {
        SpacedJoin(Numeral(units[0], 16), HexText(units[1..]));
      }
    }
  }

  lemma SpacedJoin(a: string, rest: string)
    requires a != "" && ':' !in a && rest != "" && Spaced(rest)
    ensures Spaced(a + ":" + rest)
  {
    var s := a + ":" + rest;
    forall k | 0 <= k < |s| - 1
      ensures !(s[k] == ':' && s[k + 1] == ':')
    {
      if k < |a| {
        assert s[k] == a[k];
      } else if k == |a| {
        assert s[k + 1] == rest[0];
      } else {
        assert s[k] == rest[k - |a| - 1] && s[k + 1] == rest[k - |a|];
      }
    }
  }

  lemma PairAt(s: string)
    requires Find(s, "::") >= 0
    ensures var f := Find(s, "::"); f + 2 <= |s| && s[f] == ':' && s[f + 1] == ':'
  {
    var f := Find(s, "::");
    FindOccurs(s, "::");
    assert s[f..f + 2][0] == s[f] && s[f..f + 2][1] == s[f + 1];
  }

  lemma SpacedHasNoPair(s: string)
    requires Spaced(s)
    ensures Find(s, "::") == -1
  {
    if Find(s, "::") >= 0 { PairAt(s); }
  }

  lemma PairBetween(a: string, b: string)
    requires Spaced(a)
    ensures Find(a + "::" + b, "::") == |a|
  {
    var s := a + "::" + b;
    assert s[|a|..|a| + 2] == "::";
    assert s == a + ("::" + b);
    FindFirst(s, "::", |a|);
    PairAt(s);
    var f := Find(s, "::");
    if f < |a| { NoPairInside(a, "::" + b, f); }
  }

  lemma NoPairInside(a: string, b: string, f: nat)
    requires Spaced(a) && f < |a| && b != ""
    ensures !((a + b)[f] == ':' && (a + b)[f + 1] == ':')
  {
    assert (a + b)[f] == a[f];
    assert f + 1 < |a| ==> (a + b)[f + 1] == a[f + 1];
  }

  //-------------------------------------------------------
  // Expanding the host text, as the code does
  //-------------------------------------------------------

  /** `parseInt(s, 16)`; -1 stands for NaN, which a host's pieces never give. */
  function ParseHex(s: string): int { if IsNumeral(s, 16) then NumeralValue(s, 16) else -1 }

  function HexUnits(text: string): seq<int>
  {
    if text == "" then []
    else
      var pieces := Split(text, ':');
      seq(|pieces|, i requires 0 <= i < |pieces| => ParseHex(pieces[i]))
  }

  function Zeros(n: int): (r: seq<int>)
    ensures |r| == (if n < 0 then 0 else n)
  {
    seq(if n < 0 then 0 else n, i => 0)
  }

  /** The piece of a split on `::` that starts at the front of `s`. */
  function FirstPart(s: string): string
  {
    var f := Find(s, "::");
    if f < 0 then s else s[..f]
  }

  function Expand(host: string): seq<int>
  {
    var f := Find(host, "::");
    if f < 0 then HexUnits(host)
    else
      var a, b := HexUnits(host[..f]), HexUnits(FirstPart(host[f + 2..]));
      a + Zeros(8 - |a| - |b|) + b
  }

  lemma HexUnitsRoundTrip(units: seq<nat>)
    ensures HexUnits(HexText(units)) == units
  {
    HexTextSpaced(units);
    if units != [] {
      var hexes := Hexes(units);
      forall p | p in hexes
        ensures ':' !in p
      {
        var i :| 0 <= i < |hexes| && hexes[i] == p;
        NumeralPlain(units[i], 16, ':');
      }
      SplitJoin(hexes, ':');
      forall i | 0 <= i < |units|
        ensures ParseHex(hexes[i]) == units[i]
      {
        NumeralRoundTrip(units[i], 16);
      }
    }
  }

  /** Whichever zero run was compressed, expanding recovers the eight units. */
  lemma ExpandRecovers(h: Host)
    requires ValidHost(h)
    ensures Expand(HostText(h)) == h.units
  {
    hide HexText, HexUnits, Find, InRange;
    if h.len == 0 {
      HexTextSpaced(h.units);
      SpacedHasNoPair(HexText(h.units));
      HexUnitsRoundTrip(h.units);
    } else {
      var l, r := h.units[..h.start], h.units[h.start + h.len..];
      HexTextSpaced(l);
      HexTextSpaced(r);
      SpacedHasNoPair(HexText(r));
      PairBetween(HexText(l), HexText(r));
      HexUnitsRoundTrip(l);
      HexUnitsRoundTrip(r);
      ExpandPair(HexText(l), HexText(r), l, r);
      assert l + Zeros(8 - |l| - |r|) + r == h.units;
    }
  }

  lemma ExpandPair(a: string, b: string, l: seq<nat>, r: seq<nat>)
    requires Find(a + "::" + b, "::") == |a| && Find(b, "::") == -1
    requires HexUnits(a) == l && HexUnits(b) == r
    ensures Expand(a + "::" + b) == l + Zeros(8 - |l| - |r|) + r
  {
    hide HexUnits, Find;
    var s := a + "::" + b;
    assert s[..|a|] == a && s[|a| + 2..] == b;
  }

  //-------------------------------------------------------
  // Reading the text
  //-------------------------------------------------------

  predicate Octet(s: string)
  {
    IsDecimal(s) && |s| <= 3 && (|s| > 1 ==> s[0] != '0') && NumeralValue(s, 10) <= 255
  }

  function V4(text: string): (r: Option<seq<nat>>)
    ensures r.Some? ==> |r.value| == 4 && InRange(r.value, 8)
  {
    var octets := Split(text, '.');
    if |octets| == 4 && forall i | 0 <= i < 4 :: Octet(octets[i]) then
      Powers();
      Some(seq(4, i requires 0 <= i < 4 => NumeralValue(octets[i], 10)))
    else None
  }

  predicate AddressChar(c: char) { DigitValue(c) >= 0 || c == ':' || c == '.' }

  /** The text after the last colon. */
  function Tail(ip: string): string
  {
    if ':' !in ip then ip else Tail(ip[IndexOf(ip, ':') + 1..])
  }

  /** The text the code is willing to hand to the URL parser. */
  predicate MayBeV6(ip: string)
  {
    (forall c | c in ip :: AddressChar(c)) && ('.' in ip ==> V4(Tail(ip)).Some?)
  }

  /** What the URL parser makes of `http://[ip]/`: a host, or a syntax error. */
  type Parser = string -> Option<Host>

  ghost predicate ParserOk(url: Parser)
  {
    forall ip :: url(ip).Some? ==> ValidHost(url(ip).value)
  }

  //-------------------------------------------------------
  // What a prefix text denotes
  //-------------------------------------------------------

  /** A network: the address family, the network's address as one number, and the prefix length. */
  datatype Prefix = Prefix(v6: bool, network: nat, bits: nat)

  function Width(v6: bool): nat { if v6 then 128 else 32 }

  /** The address with everything past the first `bits` bits rounded away. */
  function Network(v6: bool, address: nat, bits: nat): Prefix
    requires bits <= Width(v6)
  {
    var step := Pow2(Width(v6) - bits);
    Prefix(v6, RoundDown(address, step), bits)
  }

  const MAPPED := 0xffff

  /** A prefix inside `::ffff:0:0/96` is the IPv4 prefix it maps. */
  function Canonical(v6: bool, address: nat, bits: nat): Prefix
    requires bits <= Width(v6)
  {
    if v6 && bits >= 96 && address / Pow2(32) == MAPPED then Network(false, address % Pow2(32), bits - 96)
    else Network(v6, address, bits)
  }

  datatype Address = Address(v6: bool, number: nat)

  function ReadAddress(ip: string, url: Parser): (r: Option<Address>)
  {
    if ':' in ip then
      if MayBeV6(ip) && url(ip).Some? then Some(Address(true, Value(url(ip).value.units, 16))) else None
    else if V4(ip).Some? then Some(Address(false, Value(V4(ip).value, 8))) else None
  }

  function Pieces(input: string): (r: seq<string>)
    ensures |r| > 0
  {
    Split(Trim(input), '/')
  }

  predicate WellSplit(pieces: seq<string>)
  {
    |pieces| == 1 || (|pieces| == 2 && IsDecimal(pieces[1]))
  }

  /** The prefix an accepted text denotes. */
  function Denote(input: string, url: Parser): Option<Prefix>
  {
    var pieces := Pieces(input);
    if !WellSplit(pieces) then None
    else
      var read := ReadAddress(pieces[0], url);
      if read.None? then None
      else
        var a := read.value;
        var bits := if |pieces| == 2 then NumeralValue(pieces[1], 10) else Width(a.v6);
        if bits > Width(a.v6) then None else Some(Canonical(a.v6, a.number, bits))
  }

  //-------------------------------------------------------
  // The key
  //-------------------------------------------------------

  function Family(v6: bool): string { if v6 then "v6" else "v4" }

  function Decimals(units: seq<nat>): (r: seq<string>)
    ensures |r| == |units| && forall i | 0 <= i < |r| :: r[i] == Decimal(units[i])
  {
    seq(|units|, i requires 0 <= i < |units| => Decimal(units[i]))
  }

  function KeyText(v6: bool, units: seq<nat>, bits: nat): string
  {
    Family(v6) + ":" + Join(Decimals(units), ":") + "/" + Decimal(bits)
  }

  function UnitWidth(v6: bool): nat { if v6 then 16 else 8 }

  function UnitCount(v6: bool): nat { if v6 then 8 else 4 }

  /** The canonical text of a prefix: its family, its network in units of one byte or two, its length. */
  function KeyOf(p: Prefix): string
  {
    KeyText(p.v6, Digits(p.network, UnitCount(p.v6), UnitWidth(p.v6)), p.bits)
  }

  /** The network is an address of its family. */
  predicate Addresses(p: Prefix) { p.network < Pow2(Width(p.v6)) }

  lemma DenoteAddresses(input: string, url: Parser)
    requires ParserOk(url) && Denote(input, url).Some?
    ensures Addresses(Denote(input, url).value)
  {
    hide Pow2, Value, InRange, MayBeV6, V4, IsNumeral, NumeralValue, Pieces, Addresses, Canonical;
    var ip := Pieces(input)[0];
    if ':' in ip {
      ValueBound(url(ip).value.units, 16);
    } else {
      ValueBound(V4(ip).value, 8);
    }
    var a := ReadAddress(ip, url).value;
    var pieces := Pieces(input);
    CanonicalAddresses(a.v6, a.number, if |pieces| == 2 then NumeralValue(pieces[1], 10) else Width(a.v6));
  }

  lemma CanonicalAddresses(v6: bool, address: nat, bits: nat)
    requires bits <= Width(v6) && address < Pow2(Width(v6))
    ensures Addresses(Canonical(v6, address, bits))
  {
    hide Pow2;
  }

  lemma CutAt(a: string, b: string, a': string, b': string, sep: char)
    requires sep !in a && sep !in a' && a + [sep] + b == a' + [sep] + b'
    ensures a == a' && b == b'
  {
    SplitFirst(a, b, sep);
    SplitFirst(a', b', sep);
    assert ([a] + Split(b, sep))[0] == ([a'] + Split(b', sep))[0];
    var s := a + [sep] + b;
    assert s[|a| + 1..] == b && (a' + [sep] + b')[|a| + 1..] == b';
  }

  lemma {:induction false} JoinPlain(pieces: seq<string>, sep: char)
    requires sep != ':' && forall p | p in pieces :: sep !in p
    ensures sep !in Join(pieces, ":")
  {
    if |pieces| > 1 {
      JoinPlain(pieces[1..], sep);
      assert pieces[0] in pieces;
    }
  }

  lemma DecimalsInjective(a: seq<nat>, b: seq<nat>)
    requires |a| == |b| && |a| > 0 && Join(Decimals(a), ":") == Join(Decimals(b), ":")
    ensures a == b
  {
    DecimalsPlain(a, ':');
    DecimalsPlain(b, ':');
    SplitJoin(Decimals(a), ':');
    SplitJoin(Decimals(b), ':');
    forall i | 0 <= i < |a|
      ensures a[i] == b[i]
    {
      assert Decimals(a)[i] == Decimals(b)[i];
      DecimalInjective(a[i], b[i]);
    }
  }

  lemma DecimalsPlain(units: seq<nat>, sep: char)
    requires DigitValue(sep) == -1
    ensures forall p | p in Decimals(units) :: sep !in p
  {
    forall p | p in Decimals(units)
      ensures sep !in p
    {
      var i :| 0 <= i < |units| && Decimals(units)[i] == p;
      NumeralPlain(units[i], 10, sep);
    }
  }

  lemma KeyTextInjective(v6: bool, units: seq<nat>, bits: nat, v6': bool, units': seq<nat>, bits': nat)
    requires |units| > 0 && |units'| > 0 && (v6 == v6' ==> |units| == |units'|)
    requires KeyText(v6, units, bits) == KeyText(v6', units', bits')
    ensures v6 == v6' && units == units' && bits == bits'
  {
    hide Join, Decimal, Decimals;
    var m, m' := Join(Decimals(units), ":"), Join(Decimals(units'), ":");
    var d, d' := Decimal(bits), Decimal(bits');
    assert KeyText(v6, units, bits)[1] == Family(v6)[1];
    assert KeyText(v6', units', bits')[1] == Family(v6')[1];
    CutAt(Family(v6), m + "/" + d, Family(v6'), m' + "/" + d', ':') by {
      assert Family(v6) + ":" + (m + "/" + d) == KeyText(v6, units, bits);
      assert Family(v6') + ":" + (m' + "/" + d') == KeyText(v6', units', bits');
    }
    DecimalsPlain(units, '/');
    DecimalsPlain(units', '/');
    JoinPlain(Decimals(units), '/');
    JoinPlain(Decimals(units'), '/');
    CutAt(m, d, m', d', '/');
    DecimalInjective(bits, bits');
    DecimalsInjective(units, units');
  }

  lemma SameKeySamePrefix(p: Prefix, q: Prefix)
    requires Addresses(p) && Addresses(q) && KeyOf(p) == KeyOf(q)
    ensures p == q
  {
    hide KeyText, Value, Digits, Pow2;
    var a, b := Digits(p.network, UnitCount(p.v6), UnitWidth(p.v6)), Digits(q.network, UnitCount(q.v6), UnitWidth(q.v6));
    KeyTextInjective(p.v6, a, p.bits, q.v6, b, q.bits);
    ValueOfDigits(p.network, UnitCount(p.v6), UnitWidth(p.v6));
    ValueOfDigits(q.network, UnitCount(q.v6), UnitWidth(q.v6));
  }

  /** Two accepted texts have the same key exactly when they denote the same prefix. */
  lemma SameKeyIffSamePrefix(x: string, y: string, url: Parser)
    requires ParserOk(url)
    ensures Denote(x, url).Some? && Denote(y, url).Some? ==>
              (KeyOf(Denote(x, url).value) == KeyOf(Denote(y, url).value) <==> Denote(x, url) == Denote(y, url))
  {
    hide Denote, KeyOf, Addresses;
    if Denote(x, url).Some? && Denote(y, url).Some? {
      DenoteAddresses(x, url);
      DenoteAddresses(y, url);
      if KeyOf(Denote(x, url).value) == KeyOf(Denote(y, url).value) {
        SameKeySamePrefix(Denote(x, url).value, Denote(y, url).value);
      }
    }
  }

  //-------------------------------------------------------
  // The implementation
  //-------------------------------------------------------

  /** The mapped test on units is the test on the whole address, and the quad spells its low half. */
  lemma MappedNumber(units: seq<nat>)
    requires |units| == 8 && InRange(units, 16)
    ensures var n := Value(units, 16);
            (n / Pow2(32) == MAPPED <==> (forall i | 0 <= i < 5 :: units[i] == 0) && units[5] == MAPPED)
    ensures Value(units, 16) % Pow2(32) == Value(Quad(units[6], units[7]), 8)
    ensures InRange(Quad(units[6], units[7]), 8)
  {
    var head := units[..6];
    Powers();
    QuadValue(units[6], units[7]);
    HeadNumber(head);
    SplitNumber(units);
    assert forall i | 0 <= i < 6 :: head[i] == units[i];
  }

  lemma SplitNumber(units: seq<nat>)
    requires |units| == 8 && InRange(units, 16)
    ensures Value(units, 16) / Pow2(32) == Value(units[..6], 16)
    ensures Value(units, 16) % Pow2(32) == units[6] * 65536 + units[7]
  {
    hide Pow2, Value;
    Powers();
    var h := Value(units[..6], 16);
    ValueSnoc(units, 16);
    ValueSnoc(units[..7], 16);
    assert units[..7][..6] == units[..6];
    MulDiv(h, units[6] * 65536 + units[7], 0x1_0000_0000);
  }

  /** `[a >> 8, a & 255, b >> 8, b & 255]` */
  function Quad(a: nat, b: nat): (r: seq<nat>)
    ensures |r| == 4
  {
    [a / 256, And(a, 255), b / 256, And(b, 255)]
  }

  lemma LowByte(a: nat)
    ensures And(a, 255) == a % 256
  {
    Powers();
    LowBits(a, 8);
  }

  lemma Value4(a: nat, b: nat, c: nat, d: nat)
    ensures Value([a, b, c, d], 8) == ((a * 256 + b) * 256 + c) * 256 + d
  {
    hide Pow2;
    Powers();
    ValueSnoc([a, b, c, d], 8);
    ValueSnoc([a, b, c], 8);
    ValueSnoc([a, b], 8);
    assert [a, b, c, d][..3] == [a, b, c] && [a, b, c][..2] == [a, b] && [a, b][..1] == [a];
    ValueSnoc([a], 8);
    assert [a][..0] == [];
  }

  lemma QuadValue(a: nat, b: nat)
    requires a < 65536 && b < 65536
    ensures Value(Quad(a, b), 8) == a * 65536 + b && InRange(Quad(a, b), 8)
  {
    hide Value;
    LowByte(a);
    LowByte(b);
    Powers();
    Value4(a / 256, And(a, 255), b / 256, And(b, 255));
    assert a == a / 256 * 256 + a % 256 && b == b / 256 * 256 + b % 256;
    assert a / 256 < 256 && b / 256 < 256;
  }

  /** Six units make the number 65535 exactly when the first five are zero. */
  lemma HeadNumber(head: seq<nat>)
    requires |head| == 6 && InRange(head, 16)
    ensures Value(head, 16) == MAPPED <==> (forall i | 0 <= i < 5 :: head[i] == 0) && head[5] == MAPPED
  {
    var zero: seq<nat> := [0, 0, 0, 0, 0, MAPPED];
    Powers();
    assert zero[..5] == [0, 0, 0, 0, 0];
    ZeroValue(zero[..5]);
    assert Value(zero, 16) == MAPPED;
    if Value(head, 16) == MAPPED { ValueInjective(head, zero, 16); }
    if (forall i | 0 <= i < 5 :: head[i] == 0) && head[5] == MAPPED { assert head == zero; }
  }

  lemma {:induction false} ZeroValue(units: seq<nat>)
    requires forall i | 0 <= i < |units| :: units[i] == 0
    ensures Value(units, 16) == 0
  {
    if units != [] { ZeroValue(units[..|units| - 1]); }
  }

  /** The masked units spell the rounded address. */
  lemma MaskedSpells(v6: bool, units: seq<nat>, bits: nat)
    requires |units| == UnitCount(v6) && InRange(units, UnitWidth(v6)) && bits <= Width(v6)
    ensures KeyText(v6, Masked(units, UnitWidth(v6), bits), bits) == KeyOf(Network(v6, Value(units, UnitWidth(v6)), bits))
  {
    hide Pow2, Value, KeyText, InRange, Masked, Digits;
    var w := UnitWidth(v6);
    MaskIsRounding(units, w, bits);
    MaskedInRange(units, w, bits);
    DigitsOfValue(Masked(units, w, bits), w);
  }

  lemma MaskedInRange(units: seq<nat>, w: nat, bits: nat)
    requires InRange(units, w)
    ensures InRange(Masked(units, w, bits), w)
  {
    hide Masked, Keep;
    forall i | 0 <= i < |units|
      ensures Masked(units, w, bits)[i] < Pow2(w)
    {
      MaskedUnit(units, w, bits, i);
      var step := Pow2(w - Keep(i, w, bits));
      assert units[i] == units[i] / step * step + units[i] % step;
    }
  }

  /** The key of a text: the canonical text of the prefix it denotes, or none. */
  method NetworkPrefixKey(input: string, url: Parser) returns (key: Option<string>)
    requires ParserOk(url)
    ensures key == if Denote(input, url).Some? then Some(KeyOf(Denote(input, url).value)) else None
  {
    hide Pow2, Value, InRange, Masked, KeyOf, KeyText, Expand, HostText, V4, Quad, Pieces, MayBeV6, Network;
    var pieces := Pieces(input);
    if |pieces| > 2 || (|pieces| == 2 && !IsDecimal(pieces[1])) { return None; }
    var ip := pieces[0];
    var units: seq<nat>, width, v6 := [], 0, false;
    if ':' in ip {
      if !MayBeV6(ip) || url(ip).None? { return None; }
      var host := HostText(url(ip).value);
      ExpandRecovers(url(ip).value);
      units := Expand(host);
      width := 16;
      v6 := true;
    } else {
      var parsed := V4(ip);
      if parsed.None? { return None; }
      units := parsed.value;
      width := 8;
    }
    var bits := if |pieces| == 2 then NumeralValue(pieces[1], 10) else |units| * width;
    if bits > |units| * width { return None; }
    assert InRange(units, width);
    if v6 && bits >= 96 && (forall i | 0 <= i < 5 :: units[i] == 0) && units[5] == MAPPED {
      MappedNumber(units);
      units := Quad(units[6], units[7]);
      bits := bits - 96;
      width := 8;
      v6 := false;
    } else if v6 {
      MappedNumber(units);
    }
    MaskedSpells(v6, units, bits);
    key := Some(KeyText(v6, Masked(units, width, bits), bits));
  }

  //-------------------------------------------------------
  // IPv4-mapped texts
  //-------------------------------------------------------

  function Dotted(q: seq<nat>): string { Join(Decimals(q), ".") }

  lemma OctetText(n: nat)
    requires n < 256
    ensures Octet(Decimal(n))
  {
    NumeralRoundTrip(n, 10);
    hide Numeral, NumeralValue;
    NumeralLength(n);
    NumeralLength(n / 10);
    NumeralLength(n / 10 / 10);
  }

  lemma NumeralLength(n: nat)
    ensures |Numeral(n, 10)| == if n < 10 then 1 else |Numeral(n / 10, 10)| + 1
  {
  }

  lemma V4Of(text: string, octets: seq<string>, q: seq<nat>)
    requires Split(text, '.') == octets && |octets| == 4 == |q|
    requires forall i | 0 <= i < 4 :: Octet(octets[i]) && NumeralValue(octets[i], 10) == q[i]
    ensures V4(text) == Some(q)
  {
    hide Split, NumeralValue;
    assert V4(text).value == q;
  }

  lemma DottedReads(q: seq<nat>)
    requires |q| == 4 && InRange(q, 8)
    ensures V4(Dotted(q)) == Some(q)
  {
    hide *;
    forall i | 0 <= i < 4
      ensures Octet(Decimals(q)[i]) && IsNumeral(Decimals(q)[i], 10) && NumeralValue(Decimals(q)[i], 10) == q[i]
    {
      Byte(q, i);
      OctetText(q[i]);
      DecimalReads(q[i]);
    }
    DottedSplit(q);
    V4Of(Dotted(q), Decimals(q), q);
  }

  lemma Byte(q: seq<nat>, i: nat)
    requires i < |q| && InRange(q, 8)
    ensures q[i] < 256
  {
    Powers();
  }

  lemma DottedSplit(q: seq<nat>)
    requires |q| > 0
    ensures Split(Dotted(q), '.') == Decimals(q)
  {
    hide Split, Decimals, Join;
    DecimalsPlain(q, '.');
    SplitJoin(Decimals(q), '.');
  }

  lemma DecimalReads(n: nat)
    ensures IsDecimal(Decimal(n)) && IsNumeral(Decimal(n), 10) && NumeralValue(Decimal(n), 10) == n
  {
    NumeralRoundTrip(n, 10);
  }

  predicate DottedChar(c: char) { c == '.' || '0' <= c <= '9' }

  ghost predicate IsDotted(s: string) { forall c | c in s :: DottedChar(c) }

  lemma {:induction false} DottedPlain(pieces: seq<string>)
    requires forall p | p in pieces :: IsDecimal(p)
    ensures IsDotted(Join(pieces, "."))
  {
    if |pieces| > 0 {
      assert IsDecimal(pieces[0]) && IsDotted(pieces[0]);
      DottedPlain(pieces[1..]);
    }
  }

  lemma DottedIsDotted(q: seq<nat>)
    requires |q| > 0
    ensures IsDotted(Dotted(q)) && Dotted(q) != ""
  {
    forall p | p in Decimals(q)
      ensures IsDecimal(p)
    {
      var i :| 0 <= i < |q| && Decimals(q)[i] == p;
      DecimalReads(q[i]);
    }
    DottedPlain(Decimals(q));
    DecimalReads(q[0]);
    assert Decimals(q)[0] == Decimal(q[0]);
  }

  lemma {:induction false} TailAfter(a: string, b: string)
    requires ':' !in b
    ensures Tail(a + ":" + b) == b
    decreases |a|
  {
    var s := a + ":" + b;
    assert s[|a|] == ':';
    var e := IndexOf(s, ':');
    IndexOfFirst(s, ':', |a|);
    if e == |a| {
      assert s[e + 1..] == b;
    } else {
      assert s[e + 1..] == a[e + 1..] + ":" + b;
      TailAfter(a[e + 1..], b);
    }
  }

  predicate PlainChar(c: char) { c != '/' && !IsSpace(c) }

  /** A text `address/length` splits as written. */
  lemma PiecesOf(ip: string, bits: nat)
    requires ip != "" && forall c | c in ip :: PlainChar(c)
    ensures Pieces(ip + "/" + Decimal(bits)) == [ip, Decimal(bits)]
  {
    var d := Decimal(bits);
    DecimalReads(bits);
    assert DigitValue(d[|d| - 1]) >= 0 by { assert d[|d| - 1] in d; }
    var s := ip + "/" + d;
    assert s[0] == ip[0] && s[|s| - 1] == d[|d| - 1];
    assert PlainChar(ip[0]);
    assert Trimmed(s);
    SplitFirst(ip, d, '/');
    NumeralPlain(bits, 10, '/');
  }

  /** `::ffff:a.b.c.d/(96 + k)` denotes what `a.b.c.d/k` denotes, so by `SameKeyIffSamePrefix` they share a key. */
  lemma MappedText(q: seq<nat>, k: nat, url: Parser)
    requires |q| == 4 && InRange(q, 8) && k <= 32
    requires url("::ffff:" + Dotted(q)).Some?
    requires url("::ffff:" + Dotted(q)).value.units == MappedUnits(q)
    ensures Denote(Dotted(q) + "/" + Decimal(k), url).Some?
    ensures Denote("::ffff:" + Dotted(q) + "/" + Decimal(96 + k), url) == Denote(Dotted(q) + "/" + Decimal(k), url)
  {
    hide *;
    var v4, v6 := Dotted(q), "::ffff:" + Dotted(q);
    DottedIsDotted(q);
    DottedTexts(v4);
    DottedReads(q);
    PiecesOf(v4, k);
    PiecesOf(v6, 96 + k);
    DecimalReads(k);
    DecimalReads(96 + k);
    DenoteSplit(v4 + "/" + Decimal(k), v4, k, url);
    DenoteSplit(v6 + "/" + Decimal(96 + k), v6, 96 + k, url);
    ReadV4(v4, q, url);
    ReadV6(v6, url);
    MappedNumbers(q, k);
  }

  lemma DottedTexts(v4: string)
    requires IsDotted(v4) && v4 != ""
    ensures forall c | c in v4 :: PlainChar(c)
    ensures forall c | c in "::ffff:" + v4 :: PlainChar(c)
    ensures ':' !in v4 && ':' in "::ffff:" + v4
    ensures V4(v4).Some? ==> MayBeV6("::ffff:" + v4)
  {
    assert "::ffff:" + v4 == "::ffff" + ":" + v4;
    TailAfter("::ffff", v4);
    assert ("::ffff:" + v4)[0] == ':';
    forall c | c in "::ffff:" + v4
      ensures PlainChar(c) && AddressChar(c)
    {
      assert c in "::ffff:" || c in v4;
    }
  }

  lemma DenoteSplit(input: string, ip: string, bits: nat, url: Parser)
    requires Pieces(input) == [ip, Decimal(bits)] && IsDecimal(Decimal(bits)) && NumeralValue(Decimal(bits), 10) == bits
    ensures Denote(input, url) ==
            var read := ReadAddress(ip, url);
            if read.None? || bits > Width(read.value.v6) then None
            else Some(Canonical(read.value.v6, read.value.number, bits))
  {
    hide Pieces, ReadAddress, IsDecimal, Decimal, NumeralValue, Canonical;
  }

  lemma ReadV4(ip: string, q: seq<nat>, url: Parser)
    requires ':' !in ip && V4(ip) == Some(q)
    ensures ReadAddress(ip, url) == Some(Address(false, Value(q, 8)))
  {
    hide V4, Value;
  }

  lemma ReadV6(ip: string, url: Parser)
    requires ':' in ip && MayBeV6(ip) && url(ip).Some?
    ensures ReadAddress(ip, url) == Some(Address(true, Value(url(ip).value.units, 16)))
  {
    hide MayBeV6, Value;
  }

  function MappedUnits(q: seq<nat>): (r: seq<nat>)
    requires |q| == 4
    ensures |r| == 8
  {
    [0, 0, 0, 0, 0, 65535, q[0] * 256 + q[1], q[2] * 256 + q[3]]
  }

  lemma MappedUnitsInRange(q: seq<nat>)
    requires |q| == 4 && InRange(q, 8)
    ensures InRange(MappedUnits(q), 16)
  {
    hide InRange;
    Powers();
    Byte(q, 0); Byte(q, 1); Byte(q, 2); Byte(q, 3);
    AllInRange(MappedUnits(q));
  }

  lemma AllInRange(units: seq<nat>)
    requires forall i | 0 <= i < |units| :: units[i] < 65536
    ensures InRange(units, 16)
  {
    Powers();
  }

  lemma MappedValue(q: seq<nat>)
    requires |q| == 4 && InRange(q, 8)
    ensures Value(MappedUnits(q), 16) / Pow2(32) == MAPPED
    ensures Value(MappedUnits(q), 16) % Pow2(32) == Value(q, 8)
  {
    hide Pow2, Value, InRange;
    var units := MappedUnits(q);
    MappedUnitsInRange(q);
    SplitNumber(units);
    RangeSlice(units);
    HeadNumber(units[..6]);
    Value4(q[0], q[1], q[2], q[3]);
    assert q == [q[0], q[1], q[2], q[3]];
  }

  lemma RangeSlice(units: seq<nat>)
    requires |units| == 8 && InRange(units, 16)
    ensures InRange(units[..6], 16)
  {
  }

  lemma MappedNumbers(q: seq<nat>, k: nat)
    requires |q| == 4 && InRange(q, 8) && k <= 32
    ensures Width(true) == 128 && Width(false) == 32
            && Canonical(true, Value(MappedUnits(q), 16), 96 + k) == Canonical(false, Value(q, 8), k)
  {
    hide Pow2, Value, Network;
    MappedValue(q);
  }

  //-------------------------------------------------------
  // Which texts are accepted
  //-------------------------------------------------------

  ghost predicate OctetQuad(q: seq<nat>) { |q| == 4 && forall i | 0 <= i < 4 :: q[i] < 256 }

  lemma QuadInRange(q: seq<nat>)
    requires |q| == 4
    ensures OctetQuad(q) <==> InRange(q, 8)
  {
    Powers();
  }

  lemma OctetReads(s: string)
    requires Octet(s)
    ensures NumeralValue(s, 10) < 256 && Decimal(NumeralValue(s, 10)) == s
  {
    NumeralOfValue(s);
  }

  lemma V4Splits(text: string)
    requires V4(text).Some?
    ensures var q, octets := V4(text).value, Split(text, '.');
            OctetQuad(q) && |octets| == 4 && forall i | 0 <= i < 4 :: Octet(octets[i]) && q[i] == NumeralValue(octets[i], 10)
  {
    QuadInRange(V4(text).value);
    hide NumeralValue, Split;
  }

  /** An IPv4 text is accepted exactly when it is the dotted text of four octets, each written without leading
      zeros: no other, octal or abbreviated form is. */
  lemma V4Exactly(text: string)
    ensures V4(text).Some? <==> exists q :: OctetQuad(q) && text == Dotted(q)
    ensures V4(text).Some? ==> OctetQuad(V4(text).value) && text == Dotted(V4(text).value)
  {
    hide V4, Split, Octet, NumeralValue, Numeral, Decimals;
    if V4(text).Some? {
      V4Splits(text);
      var q, octets := V4(text).value, Split(text, '.');
      forall i | 0 <= i < 4
        ensures octets[i] == Decimals(q)[i]
      {
        OctetReads(octets[i]);
      }
      assert octets == Decimals(q);
      JoinSplit(text, '.');
    }
    forall q | OctetQuad(q) && text == Dotted(q)
      ensures V4(text).Some?
    {
      QuadInRange(q);
      DottedReads(q);
    }
  }

  const V6_ALPHABET := "0123456789abcdefABCDEF:."

  lemma AlphabetIs(c: char)
    ensures AddressChar(c) <==> c in V6_ALPHABET
  {
    assert V6_ALPHABET == ['0', '1', '2', '3', '4', '5', '6', '7', '8', '9', 'a', 'b', 'c', 'd', 'e', 'f', 'A', 'B',
                           'C', 'D', 'E', 'F', ':', '.'];
  }

  /** The dotted text of four octets. */
  ghost predicate IsV4(ip: string) { exists q :: OctetQuad(q) && ip == Dotted(q) }

  /** Ends in a colon and such a text. */
  ghost predicate EndsInV4(ip: string) { exists u, v :: ip == u + ":" + v && IsV4(v) }

  /** What the code hands to the URL parser, and the parser accepts. */
  ghost predicate IsV6(ip: string, url: Parser)
  {
    ':' in ip && (forall c | c in ip :: c in V6_ALPHABET) && ('.' in ip ==> EndsInV4(ip)) && url(ip).Some?
  }

  ghost predicate Length(text: string, max: nat) { IsDecimal(text) && NumeralValue(text, 10) <= max }

  /** `text` is an address, alone or with `/` and a decimal length of at most its width. */
  ghost predicate IsPrefix(text: string, ip: string, length: Option<string>, url: Parser)
  {
    && text == (if length.Some? then ip + "/" + length.value else ip)
    && (IsV4(ip) || IsV6(ip, url))
    && (length.Some? ==> Length(length.value, if ':' in ip then 128 else 32))
  }

  lemma {:induction false} TailSplits(ip: string) returns (u: string)
    requires ':' in ip
    ensures ip == u + ":" + Tail(ip) && ':' !in Tail(ip)
    decreases |ip|
  {
    hide Tail;
    var e := IndexOf(ip, ':');
    TailStep(ip);
    u := ip[..e];
    if ':' in ip[e + 1..] {
      var v := TailSplits(ip[e + 1..]);
      Glue(ip[..e], v, Tail(ip));
      u := ip[..e] + ":" + v;
    }
  }

  lemma TailStep(ip: string)
    requires ':' in ip
    ensures var e := IndexOf(ip, ':');
            Tail(ip) == Tail(ip[e + 1..]) && ip == ip[..e] + ":" + ip[e + 1..]
    ensures ':' !in ip[IndexOf(ip, ':') + 1..] ==> Tail(ip) == ip[IndexOf(ip, ':') + 1..]
  {
    hide Tail, IndexOf;
    TailOf(ip);
    TailOf(ip[IndexOf(ip, ':') + 1..]);
    CutAround(ip, IndexOf(ip, ':'));
  }

  lemma TailOf(ip: string)
    ensures Tail(ip) == if ':' in ip then Tail(ip[IndexOf(ip, ':') + 1..]) else ip
  {
    hide IndexOf;
  }

  lemma CutAround(s: string, e: nat)
    requires e < |s| && s[e] == ':'
    ensures s == s[..e] + ":" + s[e + 1..]
  {
  }

  lemma Glue(a: string, b: string, c: string)
    ensures a + ":" + (b + ":" + c) == (a + ":" + b) + ":" + c
  {
  }

  lemma V4NoColon(ip: string)
    requires IsV4(ip)
    ensures ':' !in ip && '/' !in ip
  {
    var q :| OctetQuad(q) && ip == Dotted(q);
    DottedIsDotted(q);
    hide Decimals, Join;
  }

  lemma V6Handed(ip: string)
    requires ':' in ip
    ensures MayBeV6(ip) <==> (forall c | c in ip :: c in V6_ALPHABET) && ('.' in ip ==> EndsInV4(ip))
  {
    hide Tail, AddressChar, V4, IsV4;
    forall c | c in ip
      ensures AddressChar(c) <==> c in V6_ALPHABET
    {
      AlphabetIs(c);
    }
    var u := TailSplits(ip);
    V4Exactly(Tail(ip));
    V4Is(Tail(ip));
    forall u, v | ip == u + ":" + v && IsV4(v)
      ensures v == Tail(ip)
    {
      V4NoColon(v);
      TailAfter(u, v);
    }
  }

  lemma V4Is(ip: string)
    ensures V4(ip).Some? <==> IsV4(ip)
  {
    V4Exactly(ip);
  }

  lemma AddressRead(ip: string, url: Parser)
    ensures ReadAddress(ip, url).Some? <==> IsV4(ip) || IsV6(ip, url)
    ensures ReadAddress(ip, url).Some? ==> ReadAddress(ip, url).value.v6 == (':' in ip)
  {
    hide V4, MayBeV6, IsV4, EndsInV4;
    V4Is(ip);
    if IsV4(ip) { V4NoColon(ip); }
    if ':' in ip { V6Handed(ip); }
  }

  /** The parts of an accepted text. */
  lemma PrefixParts(ip: string, length: Option<string>, url: Parser)
    requires IsV4(ip) || IsV6(ip, url)
    requires length.Some? ==> IsDecimal(length.value)
    ensures Split(if length.Some? then ip + "/" + length.value else ip, '/') == if length.Some? then [ip, length.value] else [ip]
  {
    hide Split, IsV4;
    if IsV4(ip) { V4NoColon(ip); } else { NoSlashInV6(ip, url); }
    if length.Some? {
      SplitFirst(ip, length.value, '/');
      SplitNone(length.value, '/');
    } else {
      SplitNone(ip, '/');
    }
  }

  lemma NoSlashInV6(ip: string, url: Parser)
    requires IsV6(ip, url)
    ensures '/' !in ip
  {
    AlphabetIs('/');
  }

  /** A text has a prefix exactly when, trimmed, it is an accepted address, alone or with one `/` and a decimal
      length of at most 32 or 128 bits. */
  lemma DenotesExactly(input: string, url: Parser)
    ensures Denote(input, url).Some? <==> exists ip, length :: IsPrefix(Trim(input), ip, length, url)
  {
    hide Trim, Split, ReadAddress, IsV4, IsV6, NumeralValue, IsNumeral, Canonical;
    var text := Trim(input);
    var pieces := Split(text, '/');
    JoinSplit(text, '/');
    AddressRead(pieces[0], url);
    if Denote(input, url).Some? {
      var length := if |pieces| == 2 then Some(pieces[1]) else None;
      assert IsPrefix(text, pieces[0], length, url);
    }
    forall ip, length | IsPrefix(text, ip, length, url)
      ensures Denote(input, url).Some?
    {
      PrefixParts(ip, length, url);
    }
  }
}
