/** When rewriting a line keeps its syntax: the rewritten line lexes to the same
    tokens with the scrubbed bodies exactly when every scrubbed body respects
    the delimiter around it. */
module ScrubSafety {
  import opened Text
  import opened ScrubLexer

  //-------------------------------------------------------
  // Conservation
  //-------------------------------------------------------

  /** What a stretch leaves over. */
  lemma StretchConserves(open: string, s: string, st: State)
    requires st in {Block, TripleDouble, TripleSingle}
    ensures var t := Stretch(open, s, st);
            Source(t) + s[|Source(t)| - |open|..] == open + s
  {
    var c := Closer(st);
    var e := Find(s, c);
    hide Find, Closer;
    if e == -1 {
      assert s[|s|..] == [];
    } else {
      FindOccurs(s, c);
      var k := e + |c|;
      assert s[..e] + c + s[k..] == s;
      Assoc(open, s[..e], c);
      Assoc(open, s[..e] + c, s[k..]);
    }
  }

  lemma QuoteConserves(s: string, e: nat)
    requires s != "" && e == CloseQuote(s[1..], s[0])
    ensures [s[0]] + s[1..e + 1] + [s[0]] + s[e + 2..] == s
  {
    var r := s[1..];
    assert r[e] == s[0];
    hide CloseQuote;
  }

  lemma HeadStretch(s: string, open: string, st: State, lc: Style)
    requires s != "" && st in {Block, TripleDouble, TripleSingle} && open <= s
    requires NextToken(s, lc) == Stretch(open, s[|open|..], st)
    ensures var t := NextToken(s, lc); Source(t) + s[|Source(t)|..] == s
  {
    hide NextToken, Stretch;
    var t, rest := Stretch(open, s[|open|..], st), s[|open|..];
    assert open + rest == s;
    StretchConserves(open, rest, st);
    Suffix(s, |open|, |Source(t)| - |open|);
  }

  /** How a token starts decides which branch of the scan produced it. */
  lemma NextTokenConserves(s: string, lc: Style)
    requires s != ""
    ensures var t := NextToken(s, lc); Source(t) + s[|Source(t)|..] == s
  {
    hide Find, CloseQuote, Stretch;
    if lc.Hash? && TRIPLE_DOUBLE <= s {
      HeadStretch(s, TRIPLE_DOUBLE, TripleDouble, lc);
    } else if lc.Hash? && TRIPLE_SINGLE <= s {
      HeadStretch(s, TRIPLE_SINGLE, TripleSingle, lc);
    } else if LineMark(lc) <= s {
      assert LineMark(lc) + s[|LineMark(lc)|..] == s;
    } else if lc.Slash? && "/*" <= s {
      HeadStretch(s, "/*", Block, lc);
    } else if NextToken(s, lc).Delimited? {
      QuoteConserves(s, CloseQuote(s[1..], s[0]));
    }
  }

  /** Every line is the concatenation of its tokens. */
  lemma {:induction false} LexConserves(s: string, lc: Style)
    ensures SourceOf(Lex(s, lc)) == s
    decreases |s|
  {
    if s != "" {
      var t := NextToken(s, lc);
      NextTokenConserves(s, lc);
      LexConserves(s[|Source(t)|..], lc);
    }
  }

  lemma HeadSplit(line: string, e: nat, c: string)
    requires e + |c| <= |line| && line[e..e + |c|] == c
    ensures ("" + line[..e] + c) + line[e + |c|..] == line
    ensures line[..e + |c|] + line[e + |c|..] == line
  {
  }

  lemma LineConserves(line: string, st: State, lc: Style)
    ensures SourceOf(LexLine(line, st, lc)) == line
  {
    if st.Code? {
      LexConserves(line, lc);
    } else {
      hide Lex, Find, Closer;
      var c := Closer(st);
      var e := Find(line, c);
      if e == -1 {
        assert SourceOf(LexLine(line, st, lc)) == if st.Backtick? then line + "" else ("" + line) + "";
      } else {
        FindOccurs(line, c);
        LexConserves(line[e + |c|..], lc);
        HeadSplit(line, e, c);
      }
    }
  }

  /** A scrub that changes nothing leaves every token, and so every line, as it is. */
  lemma {:induction false} IdentityScrub(ts: Tokens, scrub: string -> string)
    requires forall b :: scrub(b) == b
    ensures ScrubbedAll(ts, scrub) == ts
  {
    if ts.More? {
      IdentityScrub(ts.tail, scrub);
    }
  }

  //-------------------------------------------------------
  // Delimiter safety
  //-------------------------------------------------------

  /** The scrubbed body of `t`, written before `next`, ends where its delimiter says it ends. */
  ghost predicate Holds(t: Token, next: string, lc: Style, scrub: string -> string)
  {
    match t
    case Delimited(_, body, close) =>
      var b := scrub(body);
      if |close| == 1 then
        && CloseQuote(b + close, close[0]) == |b|
        && (lc.Hash? && b == "" ==> !(close <= next))
      else |close| > 0 && Find(b + close, close) == |b|
    case Trailing(_, body, carry) =>
      carry.Code? || Find(scrub(body), Closer(carry)) == -1
    case _ => true
  }

  ghost predicate Safe(ts: Tokens, lc: Style, scrub: string -> string)
  {
    match ts case End => true case More(t, rest) => Holds(t, SourceOf(rest), lc, scrub) && Safe(rest, lc, scrub)
  }

  /** Where a quote closes depends only on the text up to it. */
  lemma {:induction false} CloseQuoteLocal(a: string, b: string, q: char, k: nat)
    requires k < |a|
    ensures CloseQuote(a, q) == k <==> CloseQuote(a + b, q) == k
    decreases |a|
  {
    if a[0] == '\\' {
      if k >= 2 {
        assert (a + b)[2..] == a[2..] + b;
        CloseQuoteLocal(a[2..], b, q, k - 2);
      }
    } else if a[0] != q && k > 0 {
      assert (a + b)[1..] == a[1..] + b;
      CloseQuoteLocal(a[1..], b, q, k - 1);
    }
  }

  /** What follows a token begins alike before and after the rewrite. */
  ghost predicate SameLead(rest: string, after: string)
  {
    (rest == "" <==> after == "") && (rest != "" ==> rest[0] == after[0])
  }

  lemma PrefixOfSum(open: string, rest: string)
    ensures open <= open + rest && (open + rest)[|open|..] == rest
  {
  }

  lemma StretchStable(open: string, s: string, st: State, lc: Style, scrub: string -> string, rest: string, after: string)
    requires st in {Block, TripleDouble, TripleSingle}
    requires var t := Stretch(open, s, st); t.Trailing? ==> after == ""
    ensures var t := Stretch(open, s, st);
            var body := if t.Trailing? then scrub(s) + after else scrub(t.body) + Closer(st) + after;
            Source(Scrubbed(t, scrub)) + after == open + body
            && (Stretch(open, body, st) == Scrubbed(t, scrub) <==> Holds(t, rest, lc, scrub))
  {
    hide Find;
    var t, c := Stretch(open, s, st), Closer(st);
    if t.Trailing? {
      assert scrub(s) + after == scrub(s);
    } else {
      var b := scrub(t.body);
      Assoc(open, b, c);
      Assoc(open, b + c, after);
      FindLocal(b + c, after, c, |b|);
      assert (b + c + after)[..|b|] == b;
      assert Find(b + c + after, c) >= 0 ==> |(b + c + after)[..Find(b + c + after, c)]| == Find(b + c + after, c);
    }
  }

  /** Whether `s` opens a triple-quoted string. */
  predicate OpensTriple(s: string, lc: Style)
  {
    lc.Hash? && (TRIPLE_DOUBLE <= s || TRIPLE_SINGLE <= s)
  }

  lemma QuoteHead(s: string, lc: Style)
    requires s != "" && (s[0] == '\"' || (s[0] == '\'' && lc.Hash?))
    ensures var t, e := NextToken(s, lc), CloseQuote(s[1..], s[0]);
            if OpensTriple(s, lc) then (t.Delimited? || t.Trailing?) && |t.open| == 3
            else if e == -1 then t.Opaque?
            else t == Delimited([s[0]], s[1..e + 1], [s[0]])
  {
    hide Find, CloseQuote;
    NotPrefix(LineMark(lc), s, 0);
    NotPrefix("/*", s, 0);
  }

  /** Three equal quotes in front. */
  lemma TriplePrefix(q: char, s: string)
    requires q == '\"' || q == '\''
    ensures TripleOf(q) <= s <==> |s| >= 3 && s[0] == s[1] == s[2] == q
  {
    if |s| >= 3 { assert s[..3] == [s[0], s[1], s[2]]; }
  }

  function TripleOf(q: char): string { if q == '\"' then TRIPLE_DOUBLE else TRIPLE_SINGLE }

  lemma QuoteWindow(q: char, b: string, after: string, rest: string, lc: Style)
    requires (q == '\"' || (q == '\'' && lc.Hash?)) && SameLead(rest, after)
    requires b == "" || b[0] != q
    ensures OpensTriple([q] + b + [q] + after, lc) <==> lc.Hash? && b == "" && [q] <= rest
  {
    var s := [q] + b + [q] + after;
    assert [q] <= after <==> [q] <= rest;
    TriplePrefix('\"', s);
    TriplePrefix('\'', s);
    assert s[0] == q;
    if b != "" {
      assert s[1] == b[0];
    } else {
      assert s == [q, q] + after;
    }
  }

  lemma QuotedText(q: char, b: string, after: string)
    ensures var s := [q] + b + [q] + after; s[0] == q && s[1..] == (b + [q]) + after && |s| == |b| + 2 + |after|
    ensures b != "" ==> (b + [q])[0] == b[0]
  {
  }

  /** A quoted body, re-scanned between its quotes. */
  lemma QuotedStable(q: char, b: string, after: string, rest: string, lc: Style)
    requires (q == '\"' || (q == '\'' && lc.Hash?)) && SameLead(rest, after)
    ensures var fits := CloseQuote(b + [q], q) == |b| && (lc.Hash? && b == "" ==> !([q] <= rest));
            NextToken([q] + b + [q] + after, lc) == Delimited([q], b, [q]) <==> fits
  {
    hide CloseQuote, NextToken, OpensTriple, SameLead;
    var s := [q] + b + [q] + after;
    QuotedText(q, b, after);
    CloseQuoteLocal(b + [q], after, q, |b|);
    QuoteHead(s, lc);
    ClosesAtOnce(b + [q], q);
    if b == "" || b[0] != q {
      QuoteWindow(q, b, after, rest, lc);
    }
    var e := CloseQuote(s[1..], q);
    if e >= 0 { QuotedBody(s, q, b, after, e); }
  }

  lemma QuotedBody(s: string, q: char, b: string, after: string, e: nat)
    requires e + 1 <= |s| && s[1..] == (b + [q]) + after
    ensures s[1..e + 1] == b <==> e == |b|
  {
    Slice(s, 1, 0, |b|);
    assert ((b + [q]) + after)[..|b|] == b;
  }

  lemma ClosesAtOnce(s: string, q: char)
    requires s != "" && q != '\\'
    ensures s[0] == q ==> CloseQuote(s, q) == 0
  {
  }

  /** A closed backtick string or character literal closes at the same place before any text. */
  lemma ClosedOpaqueStable(text: string, rest: string, after: string)
    requires |text| >= 2 && (text[0] == '`' || text[0] == '\'')
    requires NextToken(text + rest, Slash) == Opaque(text)
    requires if text[0] == '`' then Find((text + rest)[1..], "`") == |text| - 2 else CloseQuote((text + rest)[1..], text[0]) == |text| - 2
    ensures NextToken(text + after, Slash) == Opaque(text)
  {
    hide Find, CloseQuote, Stretch;
    ClosedAlike(text, rest, after);
    var r := text + after;
    assert r[..|text|] == text && r[0] == text[0];
    NotPrefix("//", r, 0);
    NotPrefix("/*", r, 0);
  }

  lemma ClosedAlike(text: string, rest: string, after: string)
    requires |text| >= 2
    ensures Find((text + rest)[1..], "`") == |text| - 2 <==> Find((text + after)[1..], "`") == |text| - 2
    ensures CloseQuote((text + rest)[1..], text[0]) == |text| - 2 <==> CloseQuote((text + after)[1..], text[0]) == |text| - 2
  {
    hide Find, CloseQuote;
    var e, x := |text| - 2, text[1..];
    assert (text + after)[1..] == x + after && (text + rest)[1..] == x + rest;
    FindLocal(x, rest, "`", e);
    FindLocal(x, after, "`", e);
    CloseQuoteLocal(x, rest, text[0], e);
    CloseQuoteLocal(x, after, text[0], e);
  }

  lemma PlainStable(c: char, rest: string, after: string, lc: Style)
    requires NextToken([c] + rest, lc) == Plain(c) && SameLead(rest, after)
    ensures NextToken([c] + after, lc) == Plain(c)
  {
    hide Find, CloseQuote, Stretch;
    var s, r := [c] + rest, [c] + after;
    assert s[0] == c && r[0] == c;
    assert rest != "" ==> s[1] == rest[0];
    if lc.Hash? {
      PlainInHash(r);
    } else {
      PlainInSlash(r);
    }
  }

  lemma PlainInHash(s: string)
    requires s != "" && s[0] != '\"' && s[0] != '\'' && s[0] != '#'
    ensures NextToken(s, Hash) == Plain(s[0])
  {
    NotPrefix(TRIPLE_DOUBLE, s, 0);
    NotPrefix(TRIPLE_SINGLE, s, 0);
    NotPrefix("#", s, 0);
  }

  lemma PlainInSlash(s: string)
    requires s != "" && s[0] != '\"' && s[0] != '\'' && s[0] != '`'
    requires s[0] == '/' && |s| > 1 ==> s[1] != '/' && s[1] != '*'
    ensures NextToken(s, Slash) == Plain(s[0])
  {
    NotPrefix("//", s, if s[0] == '/' then 1 else 0);
    NotPrefix("/*", s, if s[0] == '/' then 1 else 0);
  }

  /** Text that is never scrubbed is read back as it was written. */
  lemma OpaqueStable(s: string, lc: Style, after: string)
    requires s != "" && SameLead(s[|Source(NextToken(s, lc))|..], after)
    requires NextToken(s, lc).Opaque? || NextToken(s, lc).Plain? || NextToken(s, lc).Carried?
    ensures NextToken(Source(NextToken(s, lc)) + after, lc) == NextToken(s, lc)
  {
    var t := NextToken(s, lc);
    var n := |Source(t)|;
    NextTokenConserves(s, lc);
    if t.Plain? {
      hide NextToken;
      PlainStable(t.c, s[n..], after, lc);
    } else if n == |s| {
      hide NextToken;
      assert s[n..] == "" && Source(t) + "" == Source(t);
    } else {
      hide Find, CloseQuote;
      ClosedOpaqueStable(t.text, s[n..], after);
    }
  }

  /** A comment or triple-quoted string opens on its mark alone. */
  lemma OpensStretch(open: string, body: string, st: State, lc: Style)
    requires if lc.Slash? then open == "/*" && st.Block?
             else (open == TRIPLE_DOUBLE && st.TripleDouble?) || (open == TRIPLE_SINGLE && st.TripleSingle?)
    ensures NextToken(open + body, lc) == Stretch(open, body, st)
  {
    hide Stretch;
    var s := open + body;
    PrefixOfSum(open, body);
    assert forall k | 0 <= k < |open| :: s[k] == open[k];
    if open == "/*" {
      NotPrefix("//", s, 1);
    } else if st.TripleSingle? {
      NotPrefix(TRIPLE_DOUBLE, s, 0);
    }
  }

  /** One token survives the rewrite exactly when its body respects its delimiter. */
  lemma TokenStable(s: string, lc: Style, scrub: string -> string, after: string)
    requires s != "" && SameLead(s[|Source(NextToken(s, lc))|..], after)
    ensures var t := NextToken(s, lc);
            NextToken(Source(Scrubbed(t, scrub)) + after, lc) == Scrubbed(t, scrub) <==> Holds(t, s[|Source(t)|..], lc, scrub)
  {
    hide Find, CloseQuote;
    var t := NextToken(s, lc);
    var rest := s[|Source(t)|..];
    if lc.Hash? && TRIPLE_DOUBLE <= s {
      StretchStable(TRIPLE_DOUBLE, s[3..], TripleDouble, lc, scrub, rest, after);
      StretchReopens(t, TRIPLE_DOUBLE, TripleDouble, lc, scrub, after);
    } else if lc.Hash? && TRIPLE_SINGLE <= s {
      StretchStable(TRIPLE_SINGLE, s[3..], TripleSingle, lc, scrub, rest, after);
      StretchReopens(t, TRIPLE_SINGLE, TripleSingle, lc, scrub, after);
    } else if LineMark(lc) <= s {
      LineCommentStable(t, lc, scrub, after);
    } else if lc.Slash? && "/*" <= s {
      StretchStable("/*", s[2..], Block, lc, scrub, rest, after);
      StretchReopens(t, "/*", Block, lc, scrub, after);
    } else if t.Delimited? {
      QuotedStable(s[0], scrub(t.body), after, rest, lc);
    } else {
      OpaqueStable(s, lc, after);
    }
  }

  lemma StretchReopens(t: Token, open: string, st: State, lc: Style, scrub: string -> string, after: string)
    requires t.Delimited? || t.Trailing?
    requires if lc.Slash? then open == "/*" && st.Block?
             else (open == TRIPLE_DOUBLE && st.TripleDouble?) || (open == TRIPLE_SINGLE && st.TripleSingle?)
    ensures var body := if t.Trailing? then scrub(t.body) + after else scrub(t.body) + Closer(st) + after;
            NextToken(open + body, lc) == Stretch(open, body, st)
  {
    hide NextToken, Stretch;
    OpensStretch(open, if t.Trailing? then scrub(t.body) + after else scrub(t.body) + Closer(st) + after, st, lc);
  }

  lemma LineCommentReopens(b: string, lc: Style)
    ensures NextToken(LineMark(lc) + b, lc) == Trailing(LineMark(lc), b, Code)
  {
    var s := LineMark(lc) + b;
    PrefixOfSum(LineMark(lc), b);
    assert s[0] == LineMark(lc)[0];
  }

  lemma LineCommentStable(t: Token, lc: Style, scrub: string -> string, after: string)
    requires t.Trailing? && t.carry.Code? && t == Trailing(LineMark(lc), t.body, Code) && after == ""
    ensures NextToken(Source(Scrubbed(t, scrub)) + after, lc) == Scrubbed(t, scrub)
  {
    var m := LineMark(lc);
    assert m + scrub(t.body) + after == m + scrub(t.body);
    hide NextToken;
    LineCommentReopens(scrub(t.body), lc);
  }

  lemma TokenLead(s: string, lc: Style, scrub: string -> string)
    requires s != ""
    ensures var text := Source(Scrubbed(NextToken(s, lc), scrub)); text != "" && text[0] == s[0]
  {
    hide Find, CloseQuote;
  }

  lemma LeadKept(s: string, lc: Style, scrub: string -> string)
    ensures SameLead(s, SourceOf(ScrubbedAll(Lex(s, lc), scrub)))
  {
    if s != "" {
      hide Find, CloseQuote;
      TokenLead(s, lc, scrub);
    }
  }

  lemma {:induction false} RelexTail(s: string, lc: Style, scrub: string -> string)
    ensures Lex(SourceOf(ScrubbedAll(Lex(s, lc), scrub)), lc) == ScrubbedAll(Lex(s, lc), scrub)
            <==> Safe(Lex(s, lc), lc, scrub)
    decreases |s|
  {
    if s != "" {
      hide NextToken, Holds;
      var t := NextToken(s, lc);
      var rest := s[|Source(t)|..];
      var text, after := Source(Scrubbed(t, scrub)), SourceOf(ScrubbedAll(Lex(rest, lc), scrub));
      RelexTail(rest, lc, scrub);
      LexConserves(rest, lc);
      LeadKept(rest, lc, scrub);
      LeadKept(s, lc, scrub);
      TokenStable(s, lc, scrub, after);
      assert (text + after)[|text|..] == after;
      assert Lex(text + after, lc) == More(NextToken(text + after, lc), Lex((text + after)[|Source(NextToken(text + after, lc))|..], lc));
    }
  }

  /** The stretch a line continues from the one before it. */
  lemma HeadStable(line: string, st: State, lc: Style, scrub: string -> string)
    requires !st.Code? && Find(line, Closer(st)) >= 0
    ensures var c := Closer(st);
            var e := Find(line, c);
            var rest := Lex(line[e + |c|..], lc);
            var after := SourceOf(ScrubbedAll(rest, scrub));
            var body := if st.Backtick? then line[..e] else scrub(line[..e]);
            var text := SourceOf(ScrubbedAll(LexLine(line, st, lc), scrub));
            && text == body + c + after
            && (Find(text, c) == |body| ==> LexLine(text, st, lc).tail == Lex(after, lc) && LexLine(text, st, lc).head == Scrubbed(LexLine(line, st, lc).head, scrub))
            && (Find(text, c) != |body| ==> LexLine(text, st, lc).head != Scrubbed(LexLine(line, st, lc).head, scrub))
            && (Find(text, c) == |body| <==> Holds(LexLine(line, st, lc).head, SourceOf(rest), lc, scrub))
  {
    hide Find, Lex, Closer;
    var c := Closer(st);
    var e := Find(line, c);
    FindOccurs(line, c);
    var after := SourceOf(ScrubbedAll(Lex(line[e + |c|..], lc), scrub));
    var body := if st.Backtick? then line[..e] else scrub(line[..e]);
    var text := body + c + after;
    assert line[..e + |c|] == line[..e] + c;
    assert "" + body + c == body + c;
    FindLocal(body + c, after, c, |body|);
    if st.Backtick? {
      FindLocal(line[..e] + c, line[e + |c|..], c, e);
      assert line == line[..e] + c + line[e + |c|..];
    }
    assert text[..|body|] == body && text[|body| + |c|..] == after;
    CloserSize(st);
    assert text[..|body| + |c|] == body + c;
  }

  lemma CloserSize(st: State)
    requires !st.Code?
    ensures |Closer(st)| == 1 <==> st.Backtick?
  {
  }

  /** The rewritten line lexes to the scrubbed tokens, and so carries the same
      state on, exactly when every body respects its delimiter. */
  lemma RelexLine(line: string, st: State, lc: Style, scrub: string -> string)
    ensures var ts := LexLine(line, st, lc);
            LexLine(SourceOf(ScrubbedAll(ts, scrub)), st, lc) == ScrubbedAll(ts, scrub) <==> Safe(ts, lc, scrub)
  {
    hide Find, Closer, Lex, Holds, SourceOf, Scrubbed;
    if st.Code? {
      RelexTail(line, lc, scrub);
    } else if Find(line, Closer(st)) == -1 {
      RelexOpen(line, st, lc, scrub);
    } else {
      HeadStable(line, st, lc, scrub);
      RelexTail(line[Find(line, Closer(st)) + |Closer(st)|..], lc, scrub);
    }
  }

  /** A line that stays inside the stretch it continues. */
  lemma RelexOpen(line: string, st: State, lc: Style, scrub: string -> string)
    requires !st.Code? && Find(line, Closer(st)) == -1
    ensures var ts := LexLine(line, st, lc);
            LexLine(SourceOf(ScrubbedAll(ts, scrub)), st, lc) == ScrubbedAll(ts, scrub) <==> Safe(ts, lc, scrub)
  {
    hide Find, Closer;
    var text := if st.Backtick? then line else scrub(line);
    assert SourceOf(ScrubbedAll(LexLine(line, st, lc), scrub)) == (if st.Backtick? then line else "" + scrub(line)) + "";
    assert "" + text == text && text + "" == text;
  }

  /** What a rewrite keeps: the tokens with their bodies left out. */
  function Shape(ts: Tokens): Tokens
  {
    ScrubbedAll(ts, _ => "")
  }

  lemma {:induction false} ShapeKept(ts: Tokens, scrub: string -> string)
    ensures Shape(ScrubbedAll(ts, scrub)) == Shape(ts)
    ensures Exit(ScrubbedAll(ts, scrub)) == Exit(ts)
  {
    if ts.More? {
      ShapeKept(ts.tail, scrub);
    }
  }

  /** Re-lexing a safely rewritten line finds the same delimiters, the same
      code and opaque text, and the same carried state. */
  lemma SyntaxKept(line: string, st: State, lc: Style, scrub: string -> string)
    requires Safe(LexLine(line, st, lc), lc, scrub)
    ensures var again := LexLine(SourceOf(ScrubbedAll(LexLine(line, st, lc), scrub)), st, lc);
            Shape(again) == Shape(LexLine(line, st, lc)) && Exit(again) == Exit(LexLine(line, st, lc))
  {
    RelexLine(line, st, lc, scrub);
    ShapeKept(LexLine(line, st, lc), scrub);
  }

  ghost predicate Settled(ts: Tokens, scrub: string -> string)
  {
    ScrubbedAll(ScrubbedAll(ts, scrub), scrub) == ScrubbedAll(ts, scrub)
  }

  lemma {:induction false} IdempotentSettles(ts: Tokens, scrub: string -> string)
    requires forall b :: scrub(scrub(b)) == scrub(b)
    ensures Settled(ts, scrub)
  {
    if ts.More? {
      IdempotentSettles(ts.tail, scrub);
    }
  }

  /** A scrub that takes the first citation `D-1` out of a body. */
  function DropCitation(seg: string): string
  {
    var f := Find(seg, "D-1");
    if f < 0 then seg else seg[..f] + seg[f + 3..]
  }

  const CITED := "/*x*D-1/*/"
  const UNCITED := "/*x*/*/"

  lemma CitedClose()
    ensures Find("x*D-1/*/", "*/") == 6 && "x*D-1/*/"[..6] == "x*D-1/"
  {
    hide Find;
    var s := "x*D-1/*/";
    assert s[6..6 + 2] == "*/";
    FindExactly(s, "*/", 6);
  }

  lemma UncitedClose()
    ensures Find("x*/*/", "*/") == 1 && "x*/*/"[..1] == "x"
  {
    hide Find;
    var s := "x*/*/";
    assert s[1..1 + 2] == "*/";
    FindExactly(s, "*/", 1);
  }

  lemma CitedToken()
    ensures NextToken(CITED, Slash) == Delimited("/*", "x*D-1/", "*/") && |CITED| == 10
  {
    hide Find;
    CitedClose();
    assert CITED[2..] == "x*D-1/*/" && CITED[1] == '*';
    NotPrefix("//", CITED, 1);
  }

  lemma UncitedToken()
    ensures NextToken(UNCITED, Slash) == Delimited("/*", "x", "*/") && |UNCITED| == 7
  {
    hide Find;
    UncitedClose();
    assert UNCITED[2..] == "x*/*/" && UNCITED[1] == '*';
    NotPrefix("//", UNCITED, 1);
  }

  lemma CitationDropped()
    ensures DropCitation("x*D-1/") == "x*/"
  {
    hide Find;
    var body := "x*D-1/";
    assert body[2..2 + 3] == "D-1" && |body| == 6;
    FindExactly(body, "D-1", 2);
    assert body[..2] == "x*" && body[5..] == "/";
  }

  lemma LexCited()
    ensures Lex(CITED, Slash) == More(Delimited("/*", "x*D-1/", "*/"), End)
  {
    hide NextToken, Find;
    CitedToken();
    assert Source(Delimited("/*", "x*D-1/", "*/")) == CITED;
    assert CITED[10..] == "";
  }

  /** The rewritten comment ends at its fifth character. */
  lemma LexUncited()
    ensures Lex(UNCITED, Slash).More? && Lex(UNCITED, Slash).tail.More?
  {
    hide NextToken, Find;
    UncitedToken();
    assert |Source(Delimited("/*", "x", "*/"))| == 5;
    assert UNCITED[5..] != "";
  }

  lemma ShapeTail(ts: Tokens)
    requires ts.More?
    ensures Shape(ts).More? && (Shape(ts).tail.More? <==> ts.tail.More?)
  {
    var rest := ts.tail;
    assert ScrubbedAll(rest, _ => "").More? <==> rest.More?;
  }

  /** Deleting a citation can write a closer: the rewritten comment ends early, and what was its text
      is lexed as code. */
  lemma DeletionCanClose()
    ensures SourceOf(ScrubbedAll(Lex(CITED, Slash), DropCitation)) == UNCITED
    ensures Shape(Lex(UNCITED, Slash)) != Shape(Lex(CITED, Slash))
    ensures !Safe(Lex(CITED, Slash), Slash, DropCitation)
  {
    hide Lex, DropCitation, Safe;
    LexCited();
    LexUncited();
    CitationDropped();
    assert "/*" + "x*/" + "*/" + "" == UNCITED;
    ShapeTail(Lex(CITED, Slash));
    ShapeTail(Lex(UNCITED, Slash));
    if Safe(Lex(CITED, Slash), Slash, DropCitation) {
      RelexLine(CITED, Code, Slash, DropCitation);
      ShapeKept(Lex(CITED, Slash), DropCitation);
    }
  }
}
