/** UTF-8 (RFC 3629), percent-encoding (section 2.1 of RFC 3986) as `encodeURIComponent`
    applies it, and the form encoding `URLSearchParams` prints; with their decoder. */
module Percent {
  import opened Text

  //-------------------------------------------------------
  // UTF-8
  //-------------------------------------------------------

  type Byte = b: nat | b < 256

  function Utf8Char(c: char): (r: seq<Byte>)
    ensures |r| > 0
  {
    var n := c as int;
    if n < 0x80 then [n]
    else if n < 0x800 then [0xC0 + n / 64, 0x80 + n % 64]
    else if n < 0x10000 then [0xE0 + n / 4096, 0x80 + n / 64 % 64, 0x80 + n % 64]
    else [0xF0 + n / 262144, 0x80 + n / 4096 % 64, 0x80 + n / 64 % 64, 0x80 + n % 64]
  }

  function Utf8(s: string): seq<Byte>
  {
    if s == "" then [] else Utf8Char(s[0]) + Utf8(s[1..])
  }

  /** The bytes the character led by `b` occupies. */
  function Length(b: Byte): (n: nat)
    ensures 1 <= n <= 4
  {
    if b < 0x80 then 1 else if b < 0xE0 then 2 else if b < 0xF0 then 3 else 4
  }

  function Scalar(n: int): char
  {
    if 0 <= n < 0xD800 || 0xE000 <= n < 0x11_0000 then n as char else '\0'
  }

  /** The character spelled by the front of `b`. */
  function FrontChar(b: seq<Byte>): char
    requires |b| > 0 && Length(b[0]) <= |b|
  {
    match Length(b[0])
    case 1 => Scalar(b[0])
    case 2 => Scalar(Number(0, 0, b[0] as int - 0xC0, b[1] as int - 0x80))
    case 3 => Scalar(Number(0, b[0] as int - 0xE0, b[1] as int - 0x80, b[2] as int - 0x80))
    case _ => Scalar(Number(b[0] as int - 0xF0, b[1] as int - 0x80, b[2] as int - 0x80, b[3] as int - 0x80))
  }

  /** The number with these base-64 digits. */
  function Number(a: int, b: int, c: int, d: int): int { a * 262144 + b * 4096 + c * 64 + d }

  lemma NumberOf(n: nat)
    ensures Number(n / 262144, n / 4096 % 64, n / 64 % 64, n % 64) == n
    ensures n < 0x800 ==> Number(0, 0, n / 64, n % 64) == n
    ensures n < 0x10000 ==> Number(0, n / 4096, n / 64 % 64, n % 64) == n
  {
    var a := n / 64;
    var b := a / 64;
    assert n / 4096 == b && n / 262144 == b / 64;
  }

  function FromUtf8(b: seq<Byte>): string
    decreases |b|
  {
    if b == [] || Length(b[0]) > |b| then "" else [FrontChar(b)] + FromUtf8(b[Length(b[0])..])
  }

  lemma Utf8Front(c: char)
    ensures Length(Utf8Char(c)[0]) == |Utf8Char(c)| && FrontChar(Utf8Char(c)) == c
  {
    NumberOf(c as int);
    hide Number;
  }

  lemma FrontLocal(b: seq<Byte>, rest: seq<Byte>)
    requires |b| > 0 && Length(b[0]) <= |b|
    ensures FrontChar(b + rest) == FrontChar(b)
  {
  }

  lemma {:induction false} Utf8RoundTrip(s: string)
    ensures FromUtf8(Utf8(s)) == s
  {
    if s != "" {
      hide Utf8Char, FrontChar, Length;
      var b, rest := Utf8Char(s[0]), Utf8(s[1..]);
      Utf8Front(s[0]);
      FrontLocal(b, rest);
      assert (b + rest)[0] == b[0] && (b + rest)[|b|..] == rest;
      Utf8RoundTrip(s[1..]);
      assert s == [s[0]] + s[1..];
    }
  }

  //-------------------------------------------------------
  // Escapes
  //-------------------------------------------------------

  datatype Style = Component | Form

  predicate AlphaNumeric(c: char) { '0' <= c <= '9' || 'A' <= c <= 'Z' || 'a' <= c <= 'z' }

  /** The characters that stand for themselves. */
  predicate Literal(c: char, style: Style)
  {
    AlphaNumeric(c) || c == '-' || c == '_' || c == '.' || c == '*'
    || (style.Component? && (c == '!' || c == '~' || c == '\'' || c == '(' || c == ')'))
  }

  function HexDigit(d: nat): (c: char)
    requires d < 16
    ensures DigitValue(c) == d && AlphaNumeric(c)
  {
    "0123456789ABCDEF"[d]
  }

  function Escape(b: Byte): string
  {
    ['%', HexDigit(b / 16), HexDigit(b % 16)]
  }

  function Escapes(b: seq<Byte>): string
  {
    if b == [] then "" else Escape(b[0]) + Escapes(b[1..])
  }

  function EncodeChar(c: char, style: Style): string
  {
    if Literal(c, style) then [c]
    else if style.Form? && c == ' ' then "+"
    else Escapes(Utf8Char(c))
  }

  function Encode(s: string, style: Style): string
  {
    if s == "" then "" else EncodeChar(s[0], style) + Encode(s[1..], style)
  }

  predicate SafeChar(c: char) { c != '/' && c != '?' && c != '&' && c != '=' }

  /** The characters of an encoding: none of them separates anything in a URL. */
  predicate Safe(s: string) { forall c | c in s :: SafeChar(c) }

  lemma {:induction false} EscapesSafe(b: seq<Byte>)
    ensures Safe(Escapes(b))
  {
    if b != [] {
      EscapesSafe(b[1..]);
      assert AlphaNumeric(HexDigit(b[0] / 16)) && AlphaNumeric(HexDigit(b[0] % 16));
      assert Safe(Escape(b[0]));
    }
  }

  lemma {:induction false} EncodeSafe(s: string, style: Style)
    ensures Safe(Encode(s, style))
  {
    if s != "" {
      EscapesSafe(Utf8Char(s[0]));
      EncodeSafe(s[1..], style);
    }
  }

  //-------------------------------------------------------
  // The decoder
  //-------------------------------------------------------

  predicate IsEscape(s: string)
  {
    |s| >= 3 && s[0] == '%' && DigitValue(s[1]) >= 0 && DigitValue(s[2]) >= 0
  }

  /** The bytes of an encoded text, which is ASCII. */
  function Unescape(s: string, style: Style): seq<Byte>
    decreases |s|
  {
    if s == "" then []
    else if IsEscape(s) then [DigitValue(s[1]) * 16 + DigitValue(s[2])] + Unescape(s[3..], style)
    else [if style.Form? && s[0] == '+' then 32 else s[0] as int % 256] + Unescape(s[1..], style)
  }

  function Decode(s: string, style: Style): string { FromUtf8(Unescape(s, style)) }

  lemma UnescapeOne(b: Byte, rest: string, style: Style)
    ensures Unescape(Escape(b) + rest, style) == [b] + Unescape(rest, style)
  {
    var s := Escape(b) + rest;
    assert s[3..] == rest && s[0] == '%' && s[1] == HexDigit(b / 16) && s[2] == HexDigit(b % 16);
  }

  lemma {:induction false} UnescapeAll(b: seq<Byte>, rest: string, style: Style)
    ensures Unescape(Escapes(b) + rest, style) == b + Unescape(rest, style)
  {
    hide Unescape, Escape;
    if b == [] {
      assert Escapes(b) + rest == rest;
    } else {
      Assoc(Escape(b[0]), Escapes(b[1..]), rest);
      UnescapeOne(b[0], Escapes(b[1..]) + rest, style);
      UnescapeAll(b[1..], rest, style);
      assert [b[0]] + (b[1..] + Unescape(rest, style)) == b + Unescape(rest, style);
    }
  }

  lemma UnescapeLiteral(c: char, rest: string, style: Style)
    requires Literal(c, style) || (style.Form? && c == '+')
    ensures Unescape([c] + rest, style) == [if c == '+' then 32 else c as int % 256] + Unescape(rest, style)
  {
    assert ([c] + rest)[1..] == rest;
  }

  lemma UnescapeChar(c: char, rest: string, style: Style)
    ensures Unescape(EncodeChar(c, style) + rest, style) == Utf8Char(c) + Unescape(rest, style)
  {
    hide Unescape;
    if Literal(c, style) {
      UnescapeLiteral(c, rest, style);
    } else if style.Form? && c == ' ' {
      UnescapeLiteral('+', rest, style);
    } else {
      UnescapeAll(Utf8Char(c), rest, style);
    }
  }

  lemma {:induction false} UnescapeEncode(s: string, style: Style)
    ensures Unescape(Encode(s, style), style) == Utf8(s)
  {
    if s != "" {
      hide Unescape, EncodeChar, Utf8Char;
      UnescapeChar(s[0], Encode(s[1..], style), style);
      UnescapeEncode(s[1..], style);
    }
  }

  /** Decoding recovers any text from its encoding. */
  lemma DecodeEncode(s: string, style: Style)
    ensures Decode(Encode(s, style), style) == s
  {
    UnescapeEncode(s, style);
    Utf8RoundTrip(s);
  }

  //-------------------------------------------------------
  // The encodings by their definitions
  //-------------------------------------------------------

  /** The bytes of a character by section 3 of RFC 3629: the lead byte tells the length, six bits a byte follow. */
  lemma Utf8Bits(c: char)
    ensures var b, n := Utf8Char(c), c as int;
            && (n < 0x80 ==> b == [n])
            && (0x80 <= n < 0x800 ==> |b| == 2 && 0xC2 <= b[0] < 0xE0 && n == Low(b[0], 0xC0) * 64 + Low(b[1], 0x80))
            && (0x800 <= n < 0x10000 ==>
                  |b| == 3 && 0xE0 <= b[0] < 0xF0 && n == Low(b[0], 0xE0) * 4096 + Low(b[1], 0x80) * 64 + Low(b[2], 0x80))
            && (0x10000 <= n ==>
                  |b| == 4 && 0xF0 <= b[0] < 0xF5
                  && n == Low(b[0], 0xF0) * 262144 + Low(b[1], 0x80) * 4096 + Low(b[2], 0x80) * 64 + Low(b[3], 0x80))
            && forall i | 1 <= i < |b| :: 0x80 <= b[i] < 0xC0
  {
    NumberOf(c as int);
  }

  /** What a byte carries beside its mark. */
  function Low(b: Byte, mark: nat): int { b as int - mark }

  /** The marks that stand for themselves: those of `encodeURIComponent`, and those of the form serialiser. */
  const MARKS := "-_.!~*'()"
  const FORM_MARKS := "*-._"

  lemma LiteralIs(c: char, style: Style)
    ensures Literal(c, style) <==> AlphaNumeric(c) || c in (if style.Component? then MARKS else FORM_MARKS)
  {
    assert MARKS == ['-', '_', '.', '!', '~', '*', '\'', '(', ')'];
    assert FORM_MARKS == ['*', '-', '.', '_'];
  }

  /** `%` and the two upper-case hexadecimal digits of a byte. */
  predicate Spells(e: string, b: Byte)
  {
    && |e| == 3 && e[0] == '%' && e[1] in "0123456789ABCDEF" && e[2] in "0123456789ABCDEF"
    && DigitValue(e[1]) * 16 + DigitValue(e[2]) == b
  }

  /** One character: letters, digits and marks as they are, a space in a form as `+`, and every other one as
      the escapes of its bytes. */
  lemma EncodeOne(c: char, style: Style)
    ensures var marks, b, text := if style.Component? then MARKS else FORM_MARKS, Utf8Char(c), EncodeChar(c, style);
            if 'a' <= c <= 'z' || 'A' <= c <= 'Z' || '0' <= c <= '9' || c in marks then text == [c]
            else if style.Form? && c == ' ' then text == "+"
            else |text| == 3 * |b| && forall i | 0 <= i < |b| :: Spells(text[3 * i..3 * i + 3], b[i])
  {
    hide Utf8Char, Literal, Spells;
    LiteralIs(c, style);
    EscapesAre(Utf8Char(c));
  }

  lemma {:induction false} EscapesAre(b: seq<Byte>)
    ensures |Escapes(b)| == 3 * |b|
    ensures forall i | 0 <= i < |b| :: Spells(Escapes(b)[3 * i..3 * i + 3], b[i])
  {
    hide Spells;
    if b != [] {
      EscapesAre(b[1..]);
      EscapeIs(b[0]);
      forall i | 0 <= i < |b|
        ensures Spells(Escapes(b)[3 * i..3 * i + 3], b[i])
      {
        Third(Escape(b[0]), Escapes(b[1..]), i);
      }
    }
  }

  lemma Third(head: string, tail: string, i: nat)
    requires |head| == 3 && 3 * i <= |tail|
    ensures (head + tail)[3 * i..3 * i + 3] == if i == 0 then head else tail[3 * (i - 1)..3 * (i - 1) + 3]
  {
  }

  lemma EscapeIs(b: Byte)
    ensures |Escape(b)| == 3 && Spells(Escape(b), b)
  {
  }

  /** A text is encoded character by character. */
  lemma {:induction false} EncodeConcat(s: string, t: string, style: Style)
    ensures Encode(s + t, style) == Encode(s, style) + Encode(t, style)
  {
    hide EncodeChar;
    if s == "" {
      assert s + t == t;
    } else {
      assert (s + t)[1..] == s[1..] + t;
      EncodeConcat(s[1..], t, style);
    }
  }

  /** A text of letters, digits and marks is not changed. */
  lemma {:induction false} EncodePlain(s: string)
    requires forall c | c in s :: 'a' <= c <= 'z' || 'A' <= c <= 'Z' || '0' <= c <= '9' || c in MARKS
    ensures Encode(s, Component) == s
  {
    if s != "" {
      hide EncodeChar, Utf8Char;
      EncodeOne(s[0], Component);
      EncodePlain(s[1..]);
    }
  }
}
