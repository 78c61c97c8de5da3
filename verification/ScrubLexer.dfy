/** The multi-state line lexer of scripts/scrub-internal-ids.py: how a line
    splits into tokens, and the loop that rewrites the scrubbable ones. */
module ScrubLexer {
  import opened Text

  /** The line-comment style, chosen from the file name. */
  datatype Style = Slash | Hash

  /** What one line hands to the next. */
  datatype State = Code | Block | Backtick | TripleDouble | TripleSingle

  const TRIPLE_DOUBLE := "\"\"\""
  const TRIPLE_SINGLE := "\'\'\'"

  function Closer(st: State): (c: string)
    requires !st.Code?
    ensures |c| > 0
  {
    match st
    case Block => "*/"
    case Backtick => "`"
    case TripleDouble => TRIPLE_DOUBLE
    case TripleSingle => TRIPLE_SINGLE
  }

  function LineMark(lc: Style): (m: string)
    ensures |m| > 0
  {
    match lc case Slash => "//" case Hash => "#"
  }

  /** A lexical unit. Only the `body` parts are ever scrubbed. */
  datatype Token =
    | Plain(c: char)
    | Opaque(text: string)
    | Carried(text: string)  // a backtick string that runs on to the next line
    | Delimited(open: string, body: string, close: string)
    | Trailing(open: string, body: string, carry: State)  // runs to the end of the line

  function Source(t: Token): string
  {
    match t
    case Plain(c) => [c]
    case Opaque(text) => text
    case Carried(text) => text
    case Delimited(open, body, close) => open + body + close
    case Trailing(open, body, _) => open + body
  }

  /** The tokens of a line, in order. */
  datatype Tokens = End | More(head: Token, tail: Tokens)

  function SourceOf(ts: Tokens): string
  {
    match ts case End => "" case More(t, rest) => Source(t) + SourceOf(rest)
  }

  function ExitOf(t: Token): State
  {
    match t
    case Carried(_) => Backtick
    case Trailing(_, _, carry) => carry
    case _ => Code
  }

  /** The carried state after a line: that of the token that runs off it, if there is one. */
  function Exit(ts: Tokens): State
  {
    match ts
    case End => Code
    case More(t, rest) => if t.Trailing? || t.Carried? then ExitOf(t) else Exit(rest)
  }

  /** The position of the first unescaped `quote`, or -1: an escape hides the character after it. */
  function CloseQuote(s: string, quote: char): (r: int)
    ensures -1 <= r < |s|
    ensures r >= 0 ==> s[r] == quote
    decreases |s|
  {
    if s == "" then -1
    else if s[0] == '\\' then
      if |s| == 1 then -1
      else Shift(CloseQuote(s[2..], quote), 2)
    else if s[0] == quote then 0
    else Shift(CloseQuote(s[1..], quote), 1)
  }

  /** A stretch closed by `close` on this line, or the rest of the line in `st`. */
  function Stretch(open: string, s: string, st: State): (t: Token)
    requires st in {Block, TripleDouble, TripleSingle}
    ensures |open| <= |Source(t)| <= |open| + |s|
    ensures t.Trailing? ==> |Source(t)| == |open| + |s|
  {
    var e := Find(s, Closer(st));
    if e == -1 then Trailing(open, s, st) else Delimited(open, s[..e], Closer(st))
  }

  /** The token a code position starts with. */
  function NextToken(s: string, lc: Style): (t: Token)
    requires s != ""
    ensures 0 < |Source(t)| <= |s|
    ensures t.Trailing? || t.Carried? ==> |Source(t)| == |s|
  {
    if lc.Hash? && TRIPLE_DOUBLE <= s then
      Stretch(TRIPLE_DOUBLE, s[3..], TripleDouble)
    else if lc.Hash? && TRIPLE_SINGLE <= s then
      Stretch(TRIPLE_SINGLE, s[3..], TripleSingle)
    else if LineMark(lc) <= s then
      Trailing(LineMark(lc), s[|LineMark(lc)|..], Code)
    else if lc.Slash? && "/*" <= s then
      Stretch("/*", s[2..], Block)
    else if lc.Slash? && s[0] == '`' then
      var e := Find(s[1..], "`");
      if e == -1 then Carried(s) else Opaque(s[..e + 2])
    else if s[0] == '\"' || s[0] == '\'' then
      var e := CloseQuote(s[1..], s[0]);
      if e == -1 then Opaque(s)
      else if s[0] == '\'' && lc.Slash? then Opaque(s[..e + 2])
      else Delimited([s[0]], s[1..e + 1], [s[0]])
    else Plain(s[0])
  }

  function Lex(s: string, lc: Style): Tokens
    decreases |s|
  {
    if s == "" then End
    else
      var t := NextToken(s, lc);
      More(t, Lex(s[|Source(t)|..], lc))
  }

  function LexLine(line: string, st: State, lc: Style): Tokens
  {
    if st.Code? then Lex(line, lc)
    else
      var e := Find(line, Closer(st));
      if e == -1 then More(if st.Backtick? then Carried(line) else Trailing("", line, st), End)
      else
        var n := e + |Closer(st)|;
        More(if st.Backtick? then Opaque(line[..n]) else Delimited("", line[..e], Closer(st)), Lex(line[n..], lc))
  }

  /** The scrub reaches the bodies and nothing else. */
  function Scrubbed(t: Token, scrub: string -> string): Token
  {
    match t
    case Delimited(open, body, close) => Delimited(open, scrub(body), close)
    case Trailing(open, body, carry) => Trailing(open, scrub(body), carry)
    case _ => t
  }

  function ScrubbedAll(ts: Tokens, scrub: string -> string): Tokens
  {
    match ts case End => End case More(t, rest) => More(Scrubbed(t, scrub), ScrubbedAll(rest, scrub))
  }

  //-------------------------------------------------------
  // Where a quoted text ends
  //-------------------------------------------------------

  /** How many backslashes stand directly before `k`. */
  function Backslashes(s: string, k: nat): nat
    requires k <= |s|
  {
    if k > 0 && s[k - 1] == '\\' then 1 + Backslashes(s, k - 1) else 0
  }

  /** Backslashes escape in pairs from the left: `k` is escaped when an odd number of them stands before it. */
  predicate Escaped(s: string, k: nat)
    requires k <= |s|
  {
    Backslashes(s, k) % 2 == 1
  }

  /** A quote that ends the text. */
  predicate Closes(s: string, quote: char, k: nat)
  {
    k < |s| && s[k] == quote && !Escaped(s, k)
  }

  /** `r` is the first quote that is not escaped, or -1 if there is none. */
  ghost predicate FirstClosing(s: string, quote: char, r: int)
  {
    && (if r < 0 then r == -1 else Closes(s, quote, r))
    && forall k: nat | k < |s| && (r < 0 || k < r) :: !Closes(s, quote, k)
  }

  /** Text before `n` that ends in no backslash does not matter. */
  lemma {:induction false} BackslashesAfter(s: string, n: nat, k: nat)
    requires n + k <= |s| && (n > 0 ==> s[n - 1] != '\\')
    ensures Backslashes(s, n + k) == Backslashes(s[n..], k)
  {
    if k > 0 { BackslashesAfter(s, n, k - 1); }
  }

  /** Nor does an escape: a backslash and the character after it. */
  lemma {:induction false} EscapeSkipped(s: string, k: nat)
    requires 2 + k <= |s| && s[0] == '\\'
    ensures Escaped(s, 2 + k) == Escaped(s[2..], k)
  {
    if k > 0 {
      EscapeSkipped(s, k - 1);
    } else {
      assert Backslashes(s, 1) == 1;
    }
  }

  lemma ClosesAfterChar(s: string, quote: char, k: nat)
    requires s != "" && s[0] != '\\'
    ensures Closes(s, quote, k + 1) == Closes(s[1..], quote, k)
  {
    if k + 1 < |s| { BackslashesAfter(s, 1, k); }
  }

  lemma ClosesAfterEscape(s: string, quote: char, k: nat)
    requires |s| >= 2 && s[0] == '\\'
    ensures Closes(s, quote, k + 2) == Closes(s[2..], quote, k)
  {
    if k + 2 < |s| { EscapeSkipped(s, k); }
  }

  lemma {:induction false} QuoteCloses(s: string, quote: char)
    requires quote != '\\'
    ensures FirstClosing(s, quote, CloseQuote(s, quote))
    decreases |s|
  {
    if s != "" {
      hide Closes;
      AtStart(s, quote);
      if s[0] == '\\' {
        if |s| > 1 {
          QuoteCloses(s[2..], quote);
          Skips(s, quote, 2, CloseQuote(s[2..], quote));
        }
      } else if s[0] != quote {
        QuoteCloses(s[1..], quote);
        Skips(s, quote, 1, CloseQuote(s[1..], quote));
      }
    }
  }

  /** The text ends at `r` exactly when `r` is the first quote that is not escaped, and never exactly when
      every quote is. */
  lemma QuoteClosesExactly(s: string, quote: char, r: int)
    requires quote != '\\'
    ensures CloseQuote(s, quote) == r <==> FirstClosing(s, quote, r)
  {
    QuoteCloses(s, quote);
    hide CloseQuote;
    var e := CloseQuote(s, quote);
    assert e >= 0 ==> Closes(s, quote, e);
    assert r >= 0 && FirstClosing(s, quote, r) ==> Closes(s, quote, r);
  }

  lemma AtStart(s: string, quote: char)
    requires s != "" && quote != '\\'
    ensures Closes(s, quote, 0) <==> s[0] == quote
    ensures s[0] == '\\' ==> !Closes(s, quote, 1)
  {
    if |s| > 1 { assert Backslashes(s, 1) == (if s[0] == '\\' then 1 else 0); }
  }

  lemma Skips(s: string, quote: char, n: nat, r: int)
    requires 1 <= n <= |s| && quote != '\\' && (if s[0] == '\\' then n == 2 else n == 1 && s[0] != quote)
    requires FirstClosing(s[n..], quote, r)
    ensures FirstClosing(s, quote, Shift(r, n))
  {
    hide Closes;
    AtStart(s, quote);
    forall k: nat | k + n < |s|
      ensures Closes(s, quote, k + n) == Closes(s[n..], quote, k)
    {
      if n == 1 { ClosesAfterChar(s, quote, k); } else { ClosesAfterEscape(s, quote, k); }
    }
    forall k: nat | k < |s| && (r < 0 || k < r + n)
      ensures !Closes(s, quote, k)
    {
      if k >= n { assert Closes(s, quote, (k - n) + n) == Closes(s[n..], quote, k - n); }
    }
    if r >= 0 { Bounded(s[n..], quote, r); }
  }

  lemma Bounded(s: string, quote: char, k: nat)
    requires Closes(s, quote, k)
    ensures k < |s|
  {
  }

  //-------------------------------------------------------
  // What opens and closes what
  //-------------------------------------------------------

  /** Text without any character the lexer looks for. */
  predicate Simple(b: string) { forall c | c in b :: c !in ['\"', '\'', '\\', '`', '*', '/', '#'] }

  lemma {:induction false} FindAfter(b: string, p: string, rest: string)
    requires p != "" && p[0] !in b
    ensures Find(b + p + rest, p) == |b|
  {
    var s := b + p + rest;
    if b == "" {
      assert s == p + rest;
    } else {
      assert s[0] == b[0] && s[1..] == b[1..] + p + rest;
      FindAfter(b[1..], p, rest);
      assert s[0] != p[0];
    }
  }

  lemma NoneIn(b: string, p: string)
    requires p != "" && p[0] !in b
    ensures Find(b, p) == -1
  {
    if Find(b, p) >= 0 { ContainsChar(b, p, 0); }
  }

  lemma {:induction false} CloseAfter(b: string, q: char, rest: string)
    requires q !in b && '\\' !in b && q != '\\'
    ensures CloseQuote(b + [q] + rest, q) == |b|
  {
    var s := b + [q] + rest;
    if b != "" {
      assert s[0] == b[0] && s[1..] == b[1..] + [q] + rest;
      CloseAfter(b[1..], q, rest);
    }
  }

  /** A line comment runs to the end of the line, a block comment to its closer or past the line. */
  lemma CommentTokens(b: string, rest: string)
    requires Simple(b)
    ensures NextToken("//" + b, Slash) == Trailing("//", b, Code)
    ensures NextToken("#" + b, Hash) == Trailing("#", b, Code)
    ensures NextToken("/*" + b + "*/" + rest, Slash) == Delimited("/*", b, "*/")
    ensures NextToken("/*" + b, Slash) == Trailing("/*", b, Block)
    ensures LexLine(b + "*/" + rest, Block, Slash).head == Delimited("", b, "*/")
  {
    hide NextToken, Find, Simple;
    LineMarks(b);
    NoStar(b);
    FindAfter(b, "*/", rest);
    NoneIn(b, "*/");
    BlockMarks(b + "*/" + rest);
    BlockMarks(b);
    assert "/*" + (b + "*/" + rest) == "/*" + b + "*/" + rest && (b + "*/" + rest)[..|b|] == b;
  }

  lemma NoStar(b: string)
    requires Simple(b)
    ensures '*' !in b
  {
  }

  lemma LineMarks(b: string)
    ensures NextToken("//" + b, Slash) == Trailing("//", b, Code)
    ensures NextToken("#" + b, Hash) == Trailing("#", b, Code)
  {
    hide NextToken;
    LineCommentAt("//" + b, Slash);
    LineCommentAt("#" + b, Hash);
    assert ("//" + b)[2..] == b && ("#" + b)[1..] == b;
  }

  lemma BlockMarks(s: string)
    ensures NextToken("/*" + s, Slash) == Stretch("/*", s, Block)
  {
    hide Stretch;
    var t := "/*" + s;
    assert t[2..] == s && t[1] == '*';
  }

  /** Double quotes hold text to scrub in both styles, single quotes in the one with `#` comments only. */
  lemma QuoteTokens(b: string, rest: string)
    requires Simple(b) && b != ""
    ensures NextToken("\"" + b + "\"" + rest, Slash) == Delimited("\"", b, "\"")
    ensures NextToken("\"" + b + "\"" + rest, Hash) == Delimited("\"", b, "\"")
    ensures NextToken("\'" + b + "\'" + rest, Hash) == Delimited("\'", b, "\'")
    ensures NextToken("\'" + b + "\'" + rest, Slash) == Opaque("\'" + b + "\'")
  {
    hide CloseQuote, NextToken;
    OneQuote('\"', b, rest);
    OneQuote('\'', b, rest);
  }

  lemma OneQuote(q: char, b: string, rest: string)
    requires Simple(b) && b != "" && (q == '\"' || q == '\'')
    ensures var s := [q] + b + [q] + rest;
            && NextToken(s, Hash) == Delimited([q], b, [q])
            && NextToken(s, Slash) == if q == '\'' then Opaque([q] + b + [q]) else Delimited([q], b, [q])
  {
    hide CloseQuote;
    var s := [q] + b + [q] + rest;
    assert b[0] in b && s[1] == b[0];
    assert s[1..] == b + [q] + rest && s[1..|b| + 1] == b && s[..|b| + 2] == [q] + b + [q];
    CloseAfter(b, q, rest);
    QuoteNext(s, Hash);
    QuoteNext(s, Slash);
  }

  /** Backtick strings are left as they are, and may run on; triple quotes hold text to scrub. */
  lemma LongTokens(b: string, rest: string)
    requires Simple(b)
    ensures NextToken("`" + b + "`" + rest, Slash) == Opaque("`" + b + "`")
    ensures NextToken("`" + b, Slash) == Carried("`" + b)
    ensures NextToken("\"\"\"" + b + "\"\"\"" + rest, Hash) == Delimited("\"\"\"", b, "\"\"\"")
    ensures NextToken("\'\'\'" + b + "\'\'\'" + rest, Hash) == Delimited("\'\'\'", b, "\'\'\'")
    ensures NextToken("\"\"\"" + b, Hash) == Trailing("\"\"\"", b, TripleDouble)
    ensures NextToken("\'\'\'" + b, Hash) == Trailing("\'\'\'", b, TripleSingle)
  {
    hide Find, NextToken;
    Backticks(b, rest);
    Triples(b, rest);
  }

  lemma Backticks(b: string, rest: string)
    requires Simple(b)
    ensures NextToken("`" + b + "`" + rest, Slash) == Opaque("`" + b + "`")
    ensures NextToken("`" + b, Slash) == Carried("`" + b)
  {
    hide Find;
    FindAfter(b, "`", rest);
    NoneIn(b, "`");
    var s, t := "`" + b + "`" + rest, "`" + b;
    assert s[1..] == b + "`" + rest && s[..|b| + 2] == "`" + b + "`" && t[1..] == b && s[0] == '`' == t[0];
  }

  lemma Triples(b: string, rest: string)
    requires Simple(b)
    ensures NextToken("\"\"\"" + b + "\"\"\"" + rest, Hash) == Delimited("\"\"\"", b, "\"\"\"")
    ensures NextToken("\'\'\'" + b + "\'\'\'" + rest, Hash) == Delimited("\'\'\'", b, "\'\'\'")
    ensures NextToken("\"\"\"" + b, Hash) == Trailing("\"\"\"", b, TripleDouble)
    ensures NextToken("\'\'\'" + b, Hash) == Trailing("\'\'\'", b, TripleSingle)
  {
    hide Find;
    OneTriple("\"\"\"", TripleDouble, b, rest);
    OneTriple("\'\'\'", TripleSingle, b, rest);
  }

  lemma OneTriple(m: string, st: State, b: string, rest: string)
    requires Simple(b) && ((m == "\"\"\"" && st.TripleDouble?) || (m == "\'\'\'" && st.TripleSingle?))
    ensures NextToken(m + b + m + rest, Hash) == Delimited(m, b, m)
    ensures NextToken(m + b, Hash) == Trailing(m, b, st)
  {
    hide Find;
    FindAfter(b, m, rest);
    NoneIn(b, m);
    var s, t := m + b + m + rest, m + b;
    assert s[3..] == b + m + rest && s[3..][..|b|] == b && t[3..] == b;
    assert s[0] == m[0] == t[0] && m <= s && m <= t;
  }

  //-------------------------------------------------------
  // The loops
  //-------------------------------------------------------

  /** Where the text that goes on at `j` closes, as a position of the line. */
  ghost function ClosesFrom(line: string, j: nat, quote: char): int
  {
    if j <= |line| then Shift(CloseQuote(line[j..], quote), j) else -1
  }

  lemma ClosesStep(line: string, j: nat, quote: char)
    ensures j >= |line| ==> ClosesFrom(line, j, quote) == -1
    ensures j < |line| ==>
              ClosesFrom(line, j, quote) ==
                if line[j] == '\\' then ClosesFrom(line, j + 2, quote)
                else if line[j] == quote then j
                else ClosesFrom(line, j + 1, quote)
  {
    if j + 1 < |line| { Suffix(line, j, 2); }
    if j < |line| { Suffix(line, j, 1); }
  }

  method ScanQuote(line: string, i: nat, quote: char) returns (j: int)
    requires i < |line|
    ensures j == Shift(CloseQuote(line[i + 1..], quote), i + 1)
    ensures quote != '\\' ==> FirstClosing(line[i + 1..], quote, if j == -1 then -1 else j - (i + 1))
  {
    hide FirstClosing, CloseQuote, ClosesFrom;
    ScanFrom(line, i + 1, quote);
    j := i + 1;
    while j < |line|
      invariant i + 1 <= j <= |line| + 1
      invariant ClosesFrom(line, j, quote) == ClosesFrom(line, i + 1, quote)
    {
      ClosesStep(line, j, quote);
      if line[j] == '\\' {
        j := j + 2;
      } else if line[j] == quote {
        return j;
      } else {
        j := j + 1;
      }
    }
    ClosesStep(line, j, quote);
    return -1;
  }

  lemma ScanFrom(line: string, start: nat, quote: char)
    requires start <= |line|
    ensures var r := ClosesFrom(line, start, quote);
            && r == Shift(CloseQuote(line[start..], quote), start)
            && (quote != '\\' ==> FirstClosing(line[start..], quote, if r == -1 then -1 else r - start))
  {
    hide FirstClosing;
    if quote != '\\' { QuoteCloses(line[start..], quote); }
  }

  /** `str.find(pat, start)`. */
  function FindFrom(line: string, pat: string, start: nat): (r: int)
    requires pat != "" && start <= |line|
    ensures r == -1 || start <= r <= |line| - |pat|
  {
    Shift(Find(line[start..], pat), start)
  }

  /** What the scan writes for the rest `s` of a line, and the state it ends in. */
  function Tail(s: string, lc: Style, scrub: string -> string): (string, State)
  {
    var ts := Lex(s, lc);
    (SourceOf(ScrubbedAll(ts, scrub)), Exit(ts))
  }

  lemma TailStep(s: string, t: Token, lc: Style, scrub: string -> string)
    requires s != "" && t == NextToken(s, lc)
    ensures var n := |Source(t)|;
            if t.Trailing? || t.Carried? then Tail(s, lc, scrub) == (Source(Scrubbed(t, scrub)), ExitOf(t))
            else Tail(s, lc, scrub) == (Source(Scrubbed(t, scrub)) + Tail(s[n..], lc, scrub).0, Tail(s[n..], lc, scrub).1)
  {
    var text, rest := Source(Scrubbed(t, scrub)), Lex(s[|Source(t)|..], lc);
    assert Lex(s, lc) == More(t, rest);
    assert text + "" == text;
    if t.Trailing? || t.Carried? {
      assert s[|Source(t)|..] == "";
      assert Tail(s, lc, scrub).0 == text + SourceOf(ScrubbedAll(rest, scrub));
    } else {
      assert Exit(Lex(s, lc)) == Exit(rest);
    }
  }

  lemma OneToken(t: Token, scrub: string -> string)
    ensures SourceOf(ScrubbedAll(More(t, End), scrub)) == Source(Scrubbed(t, scrub))
  {
    assert ScrubbedAll(More(t, End), scrub) == More(Scrubbed(t, scrub), End);
    assert SourceOf(End) == "";
  }

  /** A line entered in a carried state: what precedes the scan, and where the scan starts. */
  lemma HeadStep(line: string, st: State, lc: Style, scrub: string -> string)
    requires !st.Code?
    ensures var ts, e := LexLine(line, st, lc), Find(line, Closer(st));
            var n := e + |Closer(st)|;
            if e == -1 then
              SourceOf(ScrubbedAll(ts, scrub)) == (if st.Backtick? then line else scrub(line)) && Exit(ts) == st
            else
              && SourceOf(ScrubbedAll(ts, scrub)) == (if st.Backtick? then line[..n] else scrub(line[..e]) + Closer(st)) + Tail(line[n..], lc, scrub).0
              && Exit(ts) == Tail(line[n..], lc, scrub).1
  {
    hide NextToken, Find, Lex;
    var ts, e := LexLine(line, st, lc), Find(line, Closer(st));
    if e == -1 {
      OneToken(if st.Backtick? then Carried(line) else Trailing("", line, st), scrub);
      assert "" + scrub(line) == scrub(line);
    } else {
      assert "" + scrub(line[..e]) == scrub(line[..e]);
    }
  }

  lemma HeadCode(line: string, lc: Style, scrub: string -> string)
    ensures Tail(line[0..], lc, scrub) == (SourceOf(ScrubbedAll(LexLine(line, Code, lc), scrub)), Exit(LexLine(line, Code, lc)))
    ensures "" + Tail(line[0..], lc, scrub).0 == Tail(line[0..], lc, scrub).0
  {
    assert line[0..] == line;
  }

  lemma TailEnd(line: string, lc: Style, scrub: string -> string)
    ensures Tail(line[|line|..], lc, scrub) == ("", Code)
  {
    assert line[|line|..] == "";
  }

  /** `line[i:i + k]`, which is shorter at the end of the line. */
  function Window(line: string, i: nat, k: nat): string
    requires i <= |line|
  {
    line[i..if i + k <= |line| then i + k else |line|]
  }

  lemma WindowIsPrefix(line: string, i: nat, p: string)
    requires i <= |line|
    ensures p <= line[i..] <==> Window(line, i, |p|) == p
  {
    if i + |p| <= |line| { Slice(line, i, 0, |p|); }
  }

  /** One turn of the scan at `i` writes `piece`, then goes on at `next` or ends the line in `exit`. */
  ghost predicate Turn(line: string, i: nat, lc: Style, scrub: string -> string, piece: string, next: nat, exit: State, ends: bool)
    requires i < |line|
  {
    && i < next <= |line|
    && var rest := Tail(line[next..], lc, scrub);
       Tail(line[i..], lc, scrub) == if ends then (piece, exit) else (piece + rest.0, rest.1)
  }

  lemma TokenTurn(line: string, i: nat, t: Token, lc: Style, scrub: string -> string)
    requires i < |line| && t == NextToken(line[i..], lc)
    ensures |Source(t)| <= |line| - i
    ensures Turn(line, i, lc, scrub, Source(Scrubbed(t, scrub)), i + |Source(t)|, ExitOf(t), t.Trailing? || t.Carried?)
  {
    hide Lex, Tail, Find, Source;
    TailStep(line[i..], t, lc, scrub);
    Suffix(line, i, |Source(t)|);
  }

  /** What a comment or triple-quoted string writes. */
  lemma StretchWrites(open: string, rest: string, st: State, scrub: string -> string)
    requires st in {Block, TripleDouble, TripleSingle}
    ensures var e, t := Find(rest, Closer(st)), Stretch(open, rest, st);
            if e == -1 then Source(Scrubbed(t, scrub)) == open + scrub(rest) && |Source(t)| == |open| + |rest| && t.Trailing? && ExitOf(t) == st
            else Source(Scrubbed(t, scrub)) == open + scrub(rest[..e]) + Closer(st) && |Source(t)| == |open| + e + |Closer(st)| && t.Delimited? && ExitOf(t) == Code
  {
  }

  lemma StretchTurn(line: string, i: nat, open: string, st: State, lc: Style, scrub: string -> string)
    requires 0 < |open| && i + |open| <= |line| && st in {Block, TripleDouble, TripleSingle}
    requires NextToken(line[i..], lc) == Stretch(open, line[i + |open|..], st)
    ensures var b, c := i + |open|, Closer(st);
            var end := FindFrom(line, c, b);
            if end == -1 then Turn(line, i, lc, scrub, open + scrub(line[b..]), |line|, st, true)
            else Turn(line, i, lc, scrub, open + scrub(line[b..end]) + c, end + |c|, Code, false)
  {
    hide Find, NextToken, Turn, Stretch, Scrubbed, Source, ExitOf, Closer;
    var b := i + |open|;
    TokenTurn(line, i, Stretch(open, line[b..], st), lc, scrub);
    StretchWrites(open, line[b..], st, scrub);
    var e := Find(line[b..], Closer(st));
    if e != -1 { Slice(line, b, 0, e); }
  }

  lemma TripleTurn(line: string, i: nat, st: State)
    requires i < |line|
    requires if st.TripleDouble? then Window(line, i, 3) == TRIPLE_DOUBLE else st.TripleSingle? && Window(line, i, 3) == TRIPLE_SINGLE
    ensures i + 3 <= |line| && Closer(st) == Window(line, i, 3) && |Closer(st)| == 3
    ensures NextToken(line[i..], Hash) == Stretch(Window(line, i, 3), line[i + 3..], st)
  {
    WindowIsPrefix(line, i, TRIPLE_DOUBLE);
    WindowIsPrefix(line, i, TRIPLE_SINGLE);
    Suffix(line, i, 3);
  }

  lemma WindowOne(line: string, i: nat, lc: Style)
    requires i < |line|
    requires if lc.Slash? then Window(line, i, 2) == "//" else line[i] == '#'
    ensures Window(line, i, |LineMark(lc)|) == LineMark(lc)
  {
  }

  lemma LineCommentTurn(line: string, i: nat, lc: Style, scrub: string -> string)
    requires i < |line| && Window(line, i, |LineMark(lc)|) == LineMark(lc)
    ensures i + |LineMark(lc)| <= |line|
    ensures Turn(line, i, lc, scrub, LineMark(lc) + scrub(line[i + |LineMark(lc)|..]), |line|, Code, true)
  {
    hide Turn, NextToken, Window;
    var m := LineMark(lc);
    WindowIsPrefix(line, i, m);
    LineCommentAt(line[i..], lc);
    Suffix(line, i, |m|);
    TokenTurn(line, i, Trailing(m, line[i + |m|..], Code), lc, scrub);
  }

  lemma LineCommentAt(s: string, lc: Style)
    requires LineMark(lc) <= s
    ensures NextToken(s, lc) == Trailing(LineMark(lc), s[|LineMark(lc)|..], Code)
  {
    hide Stretch;
    assert s[0] == LineMark(lc)[0];
  }

  lemma BlockTurn(line: string, i: nat)
    requires i < |line| && Window(line, i, 2) == "/*"
    ensures i + 2 <= |line| && Closer(Block) == "*/"
    ensures NextToken(line[i..], Slash) == Stretch("/*", line[i + 2..], Block)
  {
    WindowIsPrefix(line, i, "//");
    WindowIsPrefix(line, i, "/*");
    Suffix(line, i, 2);
  }

  lemma BacktickTurn(line: string, i: nat, scrub: string -> string)
    requires i < |line| && line[i] == '`'
    ensures var end := FindFrom(line, "`", i + 1);
            if end == -1 then Turn(line, i, Slash, scrub, line[i..], |line|, Backtick, true)
            else Turn(line, i, Slash, scrub, line[i..end + 1], end + 1, Code, false)
  {
    hide Turn, Find;
    var e := Find(line[i + 1..], "`");
    Suffix(line, i, 1);
    if e != -1 { Slice(line, i, 0, e + 2); }
    TokenTurn(line, i, if e == -1 then Carried(line[i..]) else Opaque(line[i..i + e + 2]), Slash, scrub);
  }

  lemma QuoteNext(s: string, lc: Style)
    requires s != "" && s[0] in {'\"', '\''}
    requires lc.Hash? ==> !(TRIPLE_DOUBLE <= s) && !(TRIPLE_SINGLE <= s)
    ensures NextToken(s, lc) ==
            var e := CloseQuote(s[1..], s[0]);
            if e == -1 then Opaque(s)
            else if s[0] == '\'' && lc.Slash? then Opaque(s[..e + 2])
            else Delimited([s[0]], s[1..e + 1], [s[0]])
  {
    hide CloseQuote, Stretch;
    NotPrefix(LineMark(lc), s, 0);
    NotPrefix("/*", s, 0);
  }

  lemma QuoteOpens(line: string, i: nat, lc: Style)
    requires i < |line|
    requires lc.Hash? ==> Window(line, i, 3) != TRIPLE_DOUBLE && Window(line, i, 3) != TRIPLE_SINGLE
    ensures line[i..][0] == line[i]
    ensures lc.Hash? ==> !(TRIPLE_DOUBLE <= line[i..]) && !(TRIPLE_SINGLE <= line[i..])
  {
    hide Window;
    WindowIsPrefix(line, i, TRIPLE_DOUBLE);
    WindowIsPrefix(line, i, TRIPLE_SINGLE);
  }

  /** A quote at `i` that opens no triple-quoted string. */
  lemma QuoteToken(line: string, i: nat, j: int, lc: Style)
    requires i < |line| && line[i] in {'\"', '\''}
    requires lc.Hash? ==> Window(line, i, 3) != TRIPLE_DOUBLE && Window(line, i, 3) != TRIPLE_SINGLE
    requires j == Shift(CloseQuote(line[i + 1..], line[i]), i + 1)
    ensures j == -1 || i + 1 <= j < |line|
    ensures NextToken(line[i..], lc) ==
            if j == -1 then Opaque(line[i..])
            else if line[i] == '\'' && lc.Slash? then Opaque(line[i..j + 1])
            else Delimited([line[i]], line[i + 1..j], [line[i]])
  {
    hide CloseQuote, NextToken, Window;
    QuoteOpens(line, i, lc);
    QuoteNext(line[i..], lc);
    QuoteSlices(line, i, CloseQuote(line[i + 1..], line[i]));
  }

  lemma QuoteSlices(line: string, i: nat, e: int)
    requires i < |line| && -1 <= e < |line| - i - 1
    ensures line[i..][1..] == line[i + 1..]
    ensures e >= 0 ==> line[i..][..e + 2] == line[i..i + e + 2] && line[i..][1..e + 1] == line[i + 1..i + e + 1]
  {
  }

  lemma QuoteTurn(line: string, i: nat, j: int, lc: Style, scrub: string -> string)
    requires i < |line| && line[i] in {'\"', '\''}
    requires lc.Hash? ==> Window(line, i, 3) != TRIPLE_DOUBLE && Window(line, i, 3) != TRIPLE_SINGLE
    requires j == Shift(CloseQuote(line[i + 1..], line[i]), i + 1)
    ensures j == -1 || i + 1 <= j < |line|
    ensures if j == -1 then Turn(line, i, lc, scrub, line[i..], |line|, Code, false)
            else if line[i] == '\'' && lc.Slash? then Turn(line, i, lc, scrub, line[i..j + 1], j + 1, Code, false)
            else Turn(line, i, lc, scrub, [line[i]] + scrub(line[i + 1..j]) + [line[i]], j + 1, Code, false)
  {
    hide Turn, NextToken, CloseQuote, Window, Shift;
    QuoteToken(line, i, j, lc);
    var t := NextToken(line[i..], lc);
    TokenTurn(line, i, t, lc, scrub);
    if j == -1 || (line[i] == '\'' && lc.Slash?) {
      assert Scrubbed(t, scrub) == t;
    } else {
      assert |Source(t)| == j + 1 - i;
    }
  }

  lemma PlainTurn(line: string, i: nat, lc: Style, scrub: string -> string)
    requires i < |line| && line[i] !in {'\"', '\''}
    requires lc.Hash? ==> line[i] != '#'
    requires lc.Slash? ==> line[i] != '`' && Window(line, i, 2) != "//" && Window(line, i, 2) != "/*"
    ensures Turn(line, i, lc, scrub, [line[i]], i + 1, Code, false)
  {
    WindowIsPrefix(line, i, LineMark(lc));
    WindowIsPrefix(line, i, "/*");
    assert line[i..][0] == line[i];
    TokenTurn(line, i, Plain(line[i]), lc, scrub);
  }

  /** A turn that goes on extends what is written so far. */
  lemma Continue(out: string, text: string, line: string, i: nat, lc: Style, scrub: string -> string, piece: string, next: nat)
    requires i < |line| && Turn(line, i, lc, scrub, piece, next, Code, false)
    requires text == out + Tail(line[i..], lc, scrub).0
    ensures text == (out + piece) + Tail(line[next..], lc, scrub).0
    ensures Tail(line[i..], lc, scrub).1 == Tail(line[next..], lc, scrub).1
  {
    hide Tail;
    Assoc(out, piece, Tail(line[next..], lc, scrub).0);
  }

  /** A turn that ends the line completes it. */
  lemma Finish(out: string, text: string, line: string, i: nat, lc: Style, scrub: string -> string, piece: string, exit: State)
    requires i < |line| && Turn(line, i, lc, scrub, piece, |line|, exit, true)
    requires text == out + Tail(line[i..], lc, scrub).0
    ensures text == out + piece && Tail(line[i..], lc, scrub).1 == exit
  {
  }

  /** One pass of the loop at `i`: what it appends, where it goes on, and whether it ends the line. */
  method ScanTurn(line: string, i: nat, lc: Style, scrub: string -> string)
    returns (piece: string, next: nat, exit: State, ends: bool)
    requires i < |line|
    ensures Turn(line, i, lc, scrub, piece, next, exit, ends)
    ensures if ends then next == |line| else exit == Code
  {
    hide *;
    var ch, two, three := line[i], Window(line, i, 2), Window(line, i, 3);
    next, exit, ends := |line|, Code, false;
    if lc.Hash? && (three == TRIPLE_DOUBLE || three == TRIPLE_SINGLE) {
      var st := if three == TRIPLE_DOUBLE then TripleDouble else TripleSingle;
      TripleTurn(line, i, st);
      StretchTurn(line, i, three, st, lc, scrub);
      var end := FindFrom(line, three, i + 3);
      if end == -1 {
        piece, exit, ends := three + scrub(line[i + 3..]), st, true;
      } else {
        piece, next := three + scrub(line[i + 3..end]) + three, end + 3;
      }
    } else if (lc.Slash? && two == "//") || (lc.Hash? && ch == '#') {
      WindowOne(line, i, lc);
      LineCommentTurn(line, i, lc, scrub);
      piece, ends := LineMark(lc) + scrub(line[i + |LineMark(lc)|..]), true;
    } else if lc.Slash? && two == "/*" {
      BlockTurn(line, i);
      StretchTurn(line, i, "/*", Block, lc, scrub);
      var end := FindFrom(line, "*/", i + 2);
      if end == -1 {
        piece, exit, ends := "/*" + scrub(line[i + 2..]), Block, true;
      } else {
        piece, next := "/*" + scrub(line[i + 2..end]) + "*/", end + 2;
      }
    } else if lc.Slash? && ch == '`' {
      BacktickTurn(line, i, scrub);
      var end := FindFrom(line, "`", i + 1);
      if end == -1 {
        piece, exit, ends := line[i..], Backtick, true;
      } else {
        piece, next := line[i..end + 1], end + 1;
      }
    } else if ch == '\"' || ch == '\'' {
      var j := ScanQuote(line, i, ch);
      QuoteTurn(line, i, j, lc, scrub);
      if j == -1 {
        piece := line[i..];
      } else if ch == '\'' && lc.Slash? {
        piece, next := line[i..j + 1], j + 1;
      } else {
        piece, next := [ch] + scrub(line[i + 1..j]) + [ch], j + 1;
      }
    } else {
      PlainTurn(line, i, lc, scrub);
      piece, next := [ch], i + 1;
    }
  }

  lemma TurnMoves(line: string, i: nat, lc: Style, scrub: string -> string, piece: string, next: nat, exit: State, ends: bool)
    requires i < |line| && Turn(line, i, lc, scrub, piece, next, exit, ends)
    ensures i < next <= |line|
  {
  }

  method RewriteLine(line: string, state: State, lc: Style, scrub: string -> string) returns (out: string, exit: State)
    ensures out == SourceOf(ScrubbedAll(LexLine(line, state, lc), scrub))
    ensures exit == Exit(LexLine(line, state, lc))
  {
    hide *;
    var n, i := |line|, 0;
    out := "";
    ghost var text, last := SourceOf(ScrubbedAll(LexLine(line, state, lc), scrub)), Exit(LexLine(line, state, lc));

    if state.Code? {
      HeadCode(line, lc, scrub);
    } else {
      HeadStep(line, state, lc, scrub);
      var end := Find(line, Closer(state));
      if end == -1 {
        return if state.Backtick? then line else scrub(line), state;
      }
      i := end + |Closer(state)|;
      out := if state.Backtick? then line[..i] else scrub(line[..end]) + Closer(state);
    }

    while i < n
      invariant 0 <= i <= n
      invariant text == out + Tail(line[i..], lc, scrub).0
      invariant last == Tail(line[i..], lc, scrub).1
    {
      var piece, next, ended, ends := ScanTurn(line, i, lc, scrub);
      TurnMoves(line, i, lc, scrub, piece, next, ended, ends);
      if ends {
        Finish(out, text, line, i, lc, scrub, piece, ended);
        return out + piece, ended;
      }
      Continue(out, text, line, i, lc, scrub, piece, next);
      out, i := out + piece, next;
    }
    TailEnd(line, lc, scrub);
    assert out + "" == out;
    exit := Code;
  }
}
