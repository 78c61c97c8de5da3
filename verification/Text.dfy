/** Text primitives shared by the models: substring search, splitting and
    joining on a character, trimming, and decimal and hexadecimal numerals. */
module Text {
  datatype Option<T> = None | Some(value: T)

  /** An index moved right by `k`; -1 stays "none". */
  function Shift(r: int, k: nat): int { if r == -1 then -1 else r + k }

  /** The index of the first occurrence of `p` in `s`, or -1. */
  function Find(s: string, p: string): (r: int)
    requires p != ""
    ensures r == -1 || 0 <= r <= |s| - |p|
  {
    if p <= s then 0
    else if s == "" then -1
    else Shift(Find(s[1..], p), 1)
  }

  lemma {:induction false} FindOccurs(s: string, p: string)
    requires p != "" && Find(s, p) >= 0
    ensures s[Find(s, p)..Find(s, p) + |p|] == p
  {
    var r := Find(s, p);
    if !(p <= s) {
      FindOccurs(s[1..], p);
      Slice(s, 1, r - 1, r - 1 + |p|);
    }
  }

  /** `Find` reports the earliest occurrence, and -1 only when there is none. */
  lemma {:induction false} FindFirst(s: string, p: string, k: nat)
    requires p != "" && k + |p| <= |s| && s[k..k + |p|] == p
    ensures 0 <= Find(s, p) <= k
  {
    if p <= s {
    } else {
      assert s[0..|p|] != p;
      assert s[1..][k - 1..k - 1 + |p|] == p;
      FindFirst(s[1..], p, k - 1);
    }
  }

  /** An occurrence with none before it, told apart by the first two characters, is the one found. */
  lemma FindExactly(s: string, p: string, k: nat)
    requires |p| > 1 && k + |p| <= |s| && s[k..k + |p|] == p
    requires forall i | 0 <= i < k :: s[i] != p[0] || s[i + 1] != p[1]
    ensures Find(s, p) == k
  {
    FindFirst(s, p, k);
    FindOccurs(s, p);
    var f := Find(s, p);
    assert s[f..f + |p|][0] == s[f] && s[f..f + |p|][1] == s[f + 1];
  }

  /** An occurrence that ends inside `a` is first in `a` exactly when it is first in `a + b`. */
  lemma {:induction false} FindLocal(a: string, b: string, p: string, k: nat)
    requires p != "" && k + |p| <= |a|
    ensures Find(a, p) == k <==> Find(a + b, p) == k
  {
    assert (a + b)[..|p|] == a[..|p|];
    if p <= a || k == 0 {
    } else {
      assert (a + b)[1..] == a[1..] + b;
      FindLocal(a[1..], b, p, k - 1);
    }
  }

  lemma Suffix<T>(s: seq<T>, i: nat, k: nat)
    requires i + k <= |s|
    ensures s[i..][k..] == s[i + k..]
  {
  }

  lemma Slice<T>(s: seq<T>, i: nat, a: nat, b: nat)
    requires a <= b && i + b <= |s|
    ensures s[i..][a..b] == s[i + a..i + b]
  {
  }

  lemma NotPrefix<T>(p: seq<T>, s: seq<T>, k: nat)
    requires k < |p| && (|s| <= k || s[k] != p[k])
    ensures !(p <= s)
  {
  }

  lemma Assoc<T>(a: seq<T>, b: seq<T>, c: seq<T>)
    ensures (a + b) + c == a + (b + c)
  {
  }

  predicate Contains(s: string, p: string)
  {
    p == "" || Find(s, p) >= 0
  }

  predicate OccursAt(s: string, p: string, k: nat) { k + |p| <= |s| && s[k..k + |p|] == p }

  ghost predicate Occurs(s: string, p: string) { exists k: nat :: OccursAt(s, p, k) }

  lemma ContainsOccurs(s: string, p: string)
    ensures Contains(s, p) <==> Occurs(s, p)
  {
    hide Find;
    if p == "" {
      assert OccursAt(s, p, 0);
    } else {
      if Find(s, p) >= 0 {
        FindOccurs(s, p);
        assert OccursAt(s, p, Find(s, p));
      }
      forall k: nat | OccursAt(s, p, k)
        ensures Find(s, p) >= 0
      {
        FindFirst(s, p, k);
      }
    }
  }

  lemma ContainsChar(s: string, p: string, k: nat)
    requires Contains(s, p) && k < |p|
    ensures p[k] in s
  {
    FindOccurs(s, p);
    var f := Find(s, p);
    assert s[f..f + |p|][k] == s[f + k];
  }

  /** The pieces of `s` between occurrences of `sep`. */
  function Split(s: string, sep: char): (r: seq<string>)
    ensures |r| > 0
    ensures forall p | p in r :: sep !in p
    decreases |s|
  {
    if sep !in s then [s]
    else
      var e := IndexOf(s, sep);
      [s[..e]] + Split(s[e + 1..], sep)
  }

  function IndexOf(s: string, c: char): (e: nat)
    requires c in s
    ensures e < |s| && s[e] == c && c !in s[..e]
  {
    if s[0] == c then 0 else 1 + IndexOf(s[1..], c)
  }

  lemma IndexOfFirst(s: string, c: char, k: nat)
    requires k < |s| && s[k] == c
    ensures c in s && IndexOf(s, c) <= k
  {
  }

  lemma {:induction false} IndexOfAfter(a: string, b: string, c: char)
    requires c !in a && c in b
    ensures c in a + b && IndexOf(a + b, c) == |a| + IndexOf(b, c)
  {
    if a == "" {
      assert a + b == b;
    } else {
      assert (a + b)[1..] == a[1..] + b && (a + b)[0] == a[0];
      IndexOfAfter(a[1..], b, c);
    }
  }

  function Join(pieces: seq<string>, sep: string): string
  {
    if |pieces| == 0 then ""
    else if |pieces| == 1 then pieces[0]
    else pieces[0] + sep + Join(pieces[1..], sep)
  }

  lemma SplitNone(s: string, sep: char)
    requires sep !in s
    ensures Split(s, sep) == [s]
  {
  }

  /** The first separator ends the first piece. */
  lemma SplitFirst(a: string, rest: string, sep: char)
    requires sep !in a
    ensures Split(a + [sep] + rest, sep) == [a] + Split(rest, sep)
  {
    var s := a + [sep] + rest;
    assert s[|a|] == sep;
    var e := IndexOf(s, sep);
    assert forall j | 0 <= j < |a| :: s[j] == a[j];
    assert forall j | 0 <= j < e :: s[..e][j] == s[j];
    assert e == |a| && s[..e] == a && s[e + 1..] == rest;
  }

  /** Splitting recovers joined pieces that do not contain the separator. */
  lemma {:induction false} SplitJoin(pieces: seq<string>, sep: char)
    requires |pieces| > 0
    requires forall p | p in pieces :: sep !in p
    ensures Split(Join(pieces, [sep]), sep) == pieces
  {
    assert pieces[0] in pieces;
    if |pieces| > 1 {
      hide Split;
      SplitJoin(pieces[1..], sep);
      SplitFirst(pieces[0], Join(pieces[1..], [sep]), sep);
      assert pieces == [pieces[0]] + pieces[1..];
    }
  }

  /** Joining the pieces of a split gives the text back. */
  lemma {:induction false} JoinSplit(s: string, sep: char)
    ensures Join(Split(s, sep), [sep]) == s
    decreases |s|
  {
    if sep in s {
      var e := IndexOf(s, sep);
      JoinSplit(s[e + 1..], sep);
      assert Split(s, sep)[1..] == Split(s[e + 1..], sep);
    }
  }

  //-------------------------------------------------------
  // Trimming
  //-------------------------------------------------------

  /** The characters `String.prototype.trim` strips (ECMAScript white space and line terminators). */
  predicate IsSpace(c: char)
  {
    c == ' ' || '\t' <= c <= '\r' || c == '\U{00A0}' || c == '\U{1680}' || '\U{2000}' <= c <= '\U{200A}'
    || c == '\U{2028}' || c == '\U{2029}' || c == '\U{202F}' || c == '\U{205F}' || c == '\U{3000}' || c == '\U{FEFF}'
  }

  function TrimLeft(s: string): (r: string)
    ensures r == "" || !IsSpace(r[0])
    ensures |r| <= |s| && r == s[|s| - |r|..]
  {
    if s != "" && IsSpace(s[0]) then TrimLeft(s[1..]) else s
  }

  function TrimRight(s: string): (r: string)
    ensures r == "" || !IsSpace(r[|r| - 1])
    ensures r <= s
  {
    if s != "" && IsSpace(s[|s| - 1]) then TrimRight(s[..|s| - 1]) else s
  }

  predicate Trimmed(s: string)
  {
    s == "" || (!IsSpace(s[0]) && !IsSpace(s[|s| - 1]))
  }

  function Trim(s: string): (r: string)
    ensures Trimmed(r)
    ensures Trimmed(s) ==> r == s
    ensures forall c | c in r :: c in s
  {
    TrimRight(TrimLeft(s))
  }

  //-------------------------------------------------------
  // Comma-separated lists
  //-------------------------------------------------------

  /** A list entry that survives printing and parsing: trimmed, not empty, without a comma. */
  lemma {:induction false} TrimLeftCuts(s: string)
    ensures forall k | 0 <= k < |s| - |TrimLeft(s)| :: IsSpace(s[k])
  {
    if s != "" && IsSpace(s[0]) {
      TrimLeftCuts(s[1..]);
      hide IsSpace;
      forall k | 0 <= k < |s| - |TrimLeft(s)|
        ensures IsSpace(s[k])
      {
        if k > 0 { assert s[1..][k - 1] == s[k]; }
      }
    }
  }

  lemma {:induction false} TrimRightCuts(s: string)
    ensures forall k | |TrimRight(s)| <= k < |s| :: IsSpace(s[k])
  {
    if s != "" && IsSpace(s[|s| - 1]) { TrimRightCuts(s[..|s| - 1]); }
  }

  /** Trimming takes away white space at both ends, and nothing else. */
  lemma TrimCuts(s: string) returns (i: nat)
    ensures i + |Trim(s)| <= |s| && s[i..i + |Trim(s)|] == Trim(s)
    ensures forall k | 0 <= k < i || i + |Trim(s)| <= k < |s| :: IsSpace(s[k])
  {
    hide IsSpace, TrimLeft, TrimRight;
    TrimLeftCuts(s);
    TrimRightCuts(TrimLeft(s));
    i := |s| - |TrimLeft(s)|;
    CutBoth(s, i, TrimLeft(s), Trim(s));
  }

  lemma CutBoth(s: string, i: nat, left: string, middle: string)
    requires i <= |s| && left == s[i..] && middle <= left
    requires forall k | 0 <= k < i :: IsSpace(s[k])
    requires forall k | |middle| <= k < |left| :: IsSpace(left[k])
    ensures i + |middle| <= |s| && s[i..i + |middle|] == middle
    ensures forall k | 0 <= k < i || i + |middle| <= k < |s| :: IsSpace(s[k])
  {
    hide IsSpace;
    forall k | i + |middle| <= k < |s|
      ensures IsSpace(s[k])
    {
      assert left[k - i] == s[k];
    }
  }

  predicate ListName(s: string) { s != "" && ',' !in s && Trimmed(s) }

  ghost predicate ListNames(list: seq<string>) { forall n | n in list :: ListName(n) }

  lemma SkipSpace(n: string)
    ensures TrimLeft(" " + n) == TrimLeft(n)
  {
    hide TrimRight;
    assert (" " + n)[1..] == n;
  }

  lemma TrimSpaced(n: string)
    requires Trimmed(n)
    ensures Trim(" " + n) == n
  {
    hide TrimLeft, TrimRight;
    SkipSpace(n);
    calc {
      Trim(" " + n);
      TrimRight(TrimLeft(n));
      Trim(n);
      n;
    }
  }

  lemma TrimEither(n: string, p: string)
    requires ListName(n) && (p == n || p == " " + n)
    ensures Trim(p) == n != ""
  {
    hide Trim;
    TrimSpaced(n);
    TrimPlain(n);
  }

  lemma TrimPlain(n: string)
    requires Trimmed(n)
    ensures Trim(n) == n
  {
  }

  /** Every name after the first, with a space before it. */
  function SpacedList(list: seq<string>): (r: seq<string>)
    ensures |r| == |list|
  {
    seq(|list|, i requires 0 <= i < |list| => if i == 0 then list[i] else " " + list[i])
  }

  lemma {:induction false} JoinSpaced(list: seq<string>)
    requires list != []
    ensures Join(list, ", ") == Join(SpacedList(list), ",")
  {
    if |list| > 1 {
      hide Join, SpacedList;
      JoinSpaced(list[1..]);
      SpacedTail(list);
      JoinMore(list, ", ");
      JoinMore(SpacedList(list), ",");
      JoinFirst(SpacedList(list)[1..], SpacedList(list[1..]));
      SpacedGlue(list[0], Join(list[1..], ", "));
    }
  }

  lemma SpacedGlue(a: string, b: string)
    ensures a + ", " + b == a + "," + (" " + b)
  {
  }

  lemma JoinMore(pieces: seq<string>, sep: string)
    requires |pieces| > 1
    ensures Join(pieces, sep) == pieces[0] + sep + Join(pieces[1..], sep)
  {
  }

  lemma SpacedTail(list: seq<string>)
    requires |list| > 1
    ensures var rest, again := SpacedList(list)[1..], SpacedList(list[1..]);
            && SpacedList(list)[0] == list[0] && rest[1..] == again[1..] && rest[0] == " " + again[0]
  {
  }

  lemma JoinFirst(a: seq<string>, b: seq<string>)
    requires a != [] && b != [] && a[1..] == b[1..] && a[0] == " " + b[0]
    ensures Join(a, ",") == " " + Join(b, ",")
  {
    if |a| == 1 {
      assert |a[1..]| == 0 && |b[1..]| == 0;
    } else {
      assert |a[1..]| > 0 && |b| > 1;
      JoinMore(a, ",");
      JoinMore(b, ",");
      hide Join;
      assert " " + b[0] + "," + Join(b[1..], ",") == " " + (b[0] + "," + Join(b[1..], ","));
    }
  }

  lemma TrimFixed(s: string)
    ensures Trim(s) == s <==> Trimmed(s)
  {
    hide TrimLeft, TrimRight, IsSpace;
  }

  //-------------------------------------------------------
  // Numerals
  //-------------------------------------------------------

  function DigitChar(d: nat): (c: char)
    requires d < 16
    ensures DigitValue(c) == d
  {
    "0123456789abcdef"[d]
  }

  /** The value of a digit in a base of at most 16, upper or lower case, or -1. */
  function DigitValue(c: char): (d: int)
    ensures -1 <= d < 16
  {
    if '0' <= c <= '9' then c as int - '0' as int
    else if 'a' <= c <= 'f' then c as int - 'a' as int + 10
    else if 'A' <= c <= 'F' then c as int - 'A' as int + 10
    else -1
  }

  predicate IsNumeral(s: string, base: nat)
  {
    s != "" && forall c | c in s :: 0 <= DigitValue(c) < base
  }

  lemma DivStep(n: nat, base: nat)
    requires 2 <= base <= n
    ensures 0 < n / base < n && 0 <= n % base < base
    ensures n / base * base + n % base == n
  {
    var q := n / base;
    assert n == base * q + n % base;
    if q <= 0 {
      Times(base, q, 0);
    } else {
      Times(q, 2, base);
    }
  }

  lemma Times(a: nat, b: int, c: int)
    requires b <= c
    ensures a * b <= a * c && a * b == b * a && a * c == c * a
  {
  }

  /** The numeral of `n` without leading zeros. */
  function Numeral(n: nat, base: nat): (s: string)
    requires 2 <= base <= 16
    ensures IsNumeral(s, base)
    ensures |s| > 1 ==> s[0] != '0'
    ensures n > 0 ==> s[0] != '0'
    decreases n
  {
    if n < base then [DigitChar(n)]
    else
      DivStep(n, base);
      var high, last := Numeral(n / base, base), DigitChar(n % base);
      Push(high, last, base);
      high + [last]
  }

  lemma Push(high: string, c: char, base: nat)
    requires IsNumeral(high, base) && 0 <= DigitValue(c) < base
    ensures IsNumeral(high + [c], base) && (high + [c])[0] == high[0]
  {
  }

  function NumeralValue(s: string, base: nat): (n: nat)
    requires IsNumeral(s, base)
  {
    var d := DigitValue(s[|s| - 1]);
    if |s| == 1 then d else NumeralValue(s[..|s| - 1], base) * base + d
  }

  lemma NumeralSnoc(high: string, c: char, base: nat)
    requires IsNumeral(high, base) && 0 <= DigitValue(c) < base
    ensures IsNumeral(high + [c], base)
    ensures NumeralValue(high + [c], base) == NumeralValue(high, base) * base + DigitValue(c)
  {
    var s := high + [c];
    assert s[..|s| - 1] == high && s[|s| - 1] == c;
  }

  lemma OneDigit(d: nat, base: nat)
    requires d < base <= 16
    ensures IsNumeral([DigitChar(d)], base) && NumeralValue([DigitChar(d)], base) == d
  {
  }

  /** Reading a printed number gives the number back. */
  lemma {:induction false} NumeralRoundTrip(n: nat, base: nat)
    requires 2 <= base <= 16
    ensures NumeralValue(Numeral(n, base), base) == n
    decreases n
  {
    hide NumeralValue, IsNumeral, DigitChar;
    if n >= base {
      DivStep(n, base);
      NumeralRoundTrip(n / base, base);
      NumeralSnoc(Numeral(n / base, base), DigitChar(n % base), base);
    } else {
      OneDigit(n, base);
    }
  }

  /** Printing the value of a numeral without leading zeros gives the numeral back. */
  lemma {:induction false} NumeralOfValue(s: string)
    requires IsNumeral(s, 10) && (|s| > 1 ==> s[0] != '0')
    ensures Numeral(NumeralValue(s, 10), 10) == s
    ensures s[0] != '0' ==> NumeralValue(s, 10) > 0
  {
    hide NumeralValue, Numeral;
    var c := s[|s| - 1];
    assert c in s;
    if |s| == 1 {
      OneDecimal(c);
      assert s == [c];
    } else {
      var high := s[..|s| - 1];
      assert s == high + [c];
      NumeralOfValue(high);
      NumeralSnoc(high, c, 10);
      LastDigit(NumeralValue(high, 10), c);
    }
  }

  lemma OneDecimal(c: char)
    requires '0' <= c <= '9'
    ensures NumeralValue([c], 10) == DigitValue(c) && Numeral(DigitValue(c), 10) == [c]
    ensures c != '0' ==> DigitValue(c) > 0
  {
  }

  lemma LastDigit(high: nat, c: char)
    requires high > 0 && '0' <= c <= '9'
    ensures Numeral(high * 10 + DigitValue(c), 10) == Numeral(high, 10) + [c]
  {
    var n := high * 10 + DigitValue(c);
    assert n / 10 == high && n % 10 == DigitValue(c);
  }

  function Decimal(n: nat): string { Numeral(n, 10) }

  predicate IsDecimal(s: string) { IsNumeral(s, 10) }

  lemma DecimalInjective(m: nat, n: nat)
    requires Decimal(m) == Decimal(n)
    ensures m == n
  {
    NumeralRoundTrip(m, 10);
    NumeralRoundTrip(n, 10);
  }

  /** Numerals contain no separator used by the formats of this project. */
  lemma NumeralPlain(n: nat, base: nat, c: char)
    requires 2 <= base <= 16 && DigitValue(c) == -1
    ensures c !in Numeral(n, base)
  {
  }
}
