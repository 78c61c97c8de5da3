/** `process` and the `--check` count: the line lexer over a whole file. */
module ScrubFile {
  import opened Text
  import opened ScrubLexer
  import opened ScrubSafety

  /** Text mode: CR LF and CR are read as LF. */
  function Universal(raw: string): string
  {
    if raw == "" then ""
    else if raw[0] != '\r' then [raw[0]] + Universal(raw[1..])
    else "\n" + Universal(raw[if |raw| > 1 && raw[1] == '\n' then 2 else 1..])
  }

  /** `readlines`: every line with its newline, which only the last one may lack. */
  function ReadLines(text: string): seq<string>
    decreases |text|
  {
    if text == "" then []
    else if '\n' !in text then [text]
    else
      var e := IndexOf(text, '\n');
      [text[..e + 1]] + ReadLines(text[e + 1..])
  }

  predicate Ended(line: string) { line != "" && line[|line| - 1] == '\n' }

  /** `rstrip("\n")`. */
  function Chomp(line: string): string
  {
    if Ended(line) then Chomp(line[..|line| - 1]) else line
  }

  function Ending(line: string): string { if Ended(line) then "\n" else "" }

  /** The tokens of every line, each lexed in the state the line before it left. */
  function LexFile(lines: seq<string>, st: State, lc: Style): seq<Tokens>
  {
    if lines == [] then []
    else
      var ts := LexLine(Chomp(lines[0]), st, lc);
      [ts] + LexFile(lines[1..], Exit(ts), lc)
  }

  function RewriteText(ts: Tokens, scrub: string -> string): string { SourceOf(ScrubbedAll(ts, scrub)) }

  function RewrittenLines(lines: seq<string>, st: State, lc: Style, scrub: string -> string): (r: seq<string>)
    ensures |r| == |lines|
  {
    if lines == [] then []
    else
      var ts := LexLine(Chomp(lines[0]), st, lc);
      [RewriteText(ts, scrub) + Ending(lines[0])] + RewrittenLines(lines[1..], Exit(ts), lc, scrub)
  }

  /** The lines a run reports, numbered from `n`. */
  function ChangedLines(lines: seq<string>, st: State, lc: Style, scrub: string -> string, n: nat): seq<(nat, string, string)>
  {
    if lines == [] then []
    else
      var nl := Chomp(lines[0]);
      var ts := LexLine(nl, st, lc);
      var now := RewriteText(ts, scrub);
      (if now != nl then [(n, nl, now)] else []) + ChangedLines(lines[1..], Exit(ts), lc, scrub, n + 1)
  }

  method Process(raw: string, lc: Style, scrub: string -> string) returns (changed: seq<(nat, string, string)>, content: string)
    ensures var lines := ReadLines(Universal(raw));
            && changed == ChangedLines(lines, Code, lc, scrub, 1)
            && content == Join(RewrittenLines(lines, Code, lc, scrub), "")
  {
    hide LexLine, RewriteText, Universal, ReadLines, Chomp, Ending;
    var lines := ReadLines(Universal(raw));
    var state := Code;
    changed, content := [], "";
    var idx := 0;
    ghost var allChanged, all := ChangedLines(lines, Code, lc, scrub, 1), Join(RewrittenLines(lines, Code, lc, scrub), "");
    assert lines[0..] == lines;
    while idx < |lines|
      invariant 0 <= idx <= |lines|
      invariant allChanged == changed + ChangedLines(lines[idx..], state, lc, scrub, idx + 1)
      invariant all == content + Join(RewrittenLines(lines[idx..], state, lc, scrub), "")
    {
      var nl := Chomp(lines[idx]);
      var rewritten, next := RewriteLine(nl, state, lc, scrub);
      FileStep(lines, idx, state, lc, scrub, changed, content);
      if rewritten != nl {
        changed := changed + [(idx + 1, nl, rewritten)];
      }
      content := content + (rewritten + Ending(lines[idx]));
      state, idx := next, idx + 1;
    }
  }

  lemma FileStep(lines: seq<string>, idx: nat, st: State, lc: Style, scrub: string -> string, changed: seq<(nat, string, string)>, content: string)
    requires idx < |lines|
    ensures var nl := Chomp(lines[idx]);
            var ts := LexLine(nl, st, lc);
            var now := RewriteText(ts, scrub);
            && now == SourceOf(ScrubbedAll(ts, scrub))
            && changed + ChangedLines(lines[idx..], st, lc, scrub, idx + 1)
               == (if now != nl then changed + [(idx + 1, nl, now)] else changed) + ChangedLines(lines[idx + 1..], Exit(ts), lc, scrub, idx + 2)
            && content + Join(RewrittenLines(lines[idx..], st, lc, scrub), "")
               == (content + (now + Ending(lines[idx]))) + Join(RewrittenLines(lines[idx + 1..], Exit(ts), lc, scrub), "")
  {
    hide LexLine, Chomp;
    Suffix(lines, idx, 1);
    var nl := Chomp(lines[idx]);
    var ts := LexLine(nl, st, lc);
    var now := RewriteText(ts, scrub);
    var rest := RewrittenLines(lines[idx + 1..], Exit(ts), lc, scrub);
    JoinCons(now + Ending(lines[idx]), rest);
    Assoc(content, now + Ending(lines[idx]), Join(rest, ""));
    hide RewriteText;
    if now != nl {
      Assoc(changed, [(idx + 1, nl, now)], ChangedLines(lines[idx + 1..], Exit(ts), lc, scrub, idx + 2));
    } else {
      assert [] + ChangedLines(lines[idx + 1..], Exit(ts), lc, scrub, idx + 2) == ChangedLines(lines[idx + 1..], Exit(ts), lc, scrub, idx + 2);
    }
  }

  lemma JoinCons(piece: string, rest: seq<string>)
    ensures Join([piece] + rest, "") == piece + Join(rest, "")
  {
    assert ([piece] + rest)[1..] == rest;
    assert piece + "" == piece;
  }

  //-------------------------------------------------------
  // Reading and writing lines
  //-------------------------------------------------------

  predicate Proper(line: string)
  {
    line != "" && '\n' !in line[..|line| - 1]
  }

  ghost predicate ProperLines(lines: seq<string>)
  {
    && (forall k | 0 <= k < |lines| :: Proper(lines[k]))
    && (forall k | 0 <= k < |lines| - 1 :: Ended(lines[k]))
  }

  lemma {:induction false} ReadLinesProper(text: string)
    ensures ProperLines(ReadLines(text)) && Join(ReadLines(text), "") == text
    decreases |text|
  {
    if text != "" && '\n' in text {
      var e := IndexOf(text, '\n');
      var first := text[..e + 1];
      ReadLinesProper(text[e + 1..]);
      JoinCons(first, ReadLines(text[e + 1..]));
      assert first[..e] == text[..e];
      assert first + text[e + 1..] == text;
    }
  }

  lemma {:induction false} ReadJoined(lines: seq<string>)
    requires ProperLines(lines)
    ensures ReadLines(Join(lines, "")) == lines
  {
    if lines != [] {
      var first, rest := lines[0], Join(lines[1..], "");
      assert lines == [first] + lines[1..];
      JoinCons(first, lines[1..]);
      assert forall k | 0 <= k < |lines| - 1 :: lines[1..][k] == lines[k + 1];
      ReadJoined(lines[1..]);
      var text := first + rest;
      if Ended(first) {
        var n := |first| - 1;
        assert text[n] == '\n';
        var e := IndexOf(text, '\n');
        assert forall k | 0 <= k < n :: text[k] == first[..n][k];
        assert forall k | 0 <= k < e :: text[..e][k] == text[k];
        assert e == n;
        assert text[..e + 1] == first && text[e + 1..] == rest;
      } else {
        assert |lines| == 1 && rest == "" && text == first;
        assert forall k | 0 <= k < |first| - 1 :: first[k] == first[..|first| - 1][k];
      }
    }
  }

  lemma ChompProper(body: string, ended: bool)
    requires '\n' !in body
    ensures var line := body + if ended then "\n" else "";
            Chomp(line) == body && Ended(line) == ended && (ended || body != "" ==> Proper(line))
  {
    if ended {
      var line := body + "\n";
      assert line[..|line| - 1] == body;
    } else {
      assert body + "" == body;
    }
  }

  lemma ProperParts(line: string)
    requires Proper(line)
    ensures line == Chomp(line) + Ending(line) && '\n' !in Chomp(line)
  {
    var body := line[..|line| - 1];
    if Ended(line) {
      ChompProper(body, true);
      assert line == body + "\n";
    } else {
      assert line == body + [line[|line| - 1]];
      assert line + "" == line;
    }
  }

  //-------------------------------------------------------
  // The file keeps its structure
  //-------------------------------------------------------

  /** A scrub of text within a line stays within it. */
  ghost predicate KeepsLines(scrub: string -> string)
  {
    forall b: string :: '\n' !in b && '\r' !in b ==> '\n' !in scrub(b) && '\r' !in scrub(b)
  }

  predicate OneLine(s: string) { '\n' !in s && '\r' !in s }

  lemma OneLineParts(a: string, b: string)
    ensures OneLine(a + b) <==> OneLine(a) && OneLine(b)
  {
    assert forall c :: c in a + b <==> c in a || c in b;
  }

  lemma {:induction false} RewriteStaysOnLine(ts: Tokens, scrub: string -> string)
    requires KeepsLines(scrub) && OneLine(SourceOf(ts))
    ensures OneLine(RewriteText(ts, scrub))
  {
    if ts.More? {
      var t, t' := ts.head, Scrubbed(ts.head, scrub);
      OneLineParts(Source(t), SourceOf(ts.tail));
      OneLineParts(Source(t'), RewriteText(ts.tail, scrub));
      RewriteStaysOnLine(ts.tail, scrub);
      match t {
        case Delimited(open, body, close) =>
          OneLineParts(open + body, close);
          OneLineParts(open, body);
          OneLineParts(open + scrub(body), close);
          OneLineParts(open, scrub(body));
        case Trailing(open, body, _) =>
          OneLineParts(open, body);
          OneLineParts(open, scrub(body));
        case _ =>
      }
    }
  }

  /** Every line is delimiter-safe, and an unended last line does not vanish. */
  ghost predicate SafeFile(lines: seq<string>, st: State, lc: Style, scrub: string -> string)
  {
    lines != [] ==>
      var ts := LexLine(Chomp(lines[0]), st, lc);
      && Safe(ts, lc, scrub)
      && (Ended(lines[0]) || RewriteText(ts, scrub) != "")
      && SafeFile(lines[1..], Exit(ts), lc, scrub)
  }

  function ScrubbedFile(file: seq<Tokens>, scrub: string -> string): (r: seq<Tokens>)
    ensures |r| == |file|
  {
    if file == [] then [] else [ScrubbedAll(file[0], scrub)] + ScrubbedFile(file[1..], scrub)
  }

  ghost predicate Readable(lines: seq<string>)
  {
    ProperLines(lines) && forall k | 0 <= k < |lines| :: OneLine(Chomp(lines[k]))
  }

  lemma ReadableTail(lines: seq<string>)
    requires Readable(lines) && lines != []
    ensures Readable(lines[1..]) && Proper(lines[0]) && OneLine(Chomp(lines[0]))
    ensures |lines| > 1 ==> Ended(lines[0])
  {
    assert forall k | 0 <= k < |lines| - 1 :: lines[1..][k] == lines[k + 1];
  }

  /** A rewritten line: still one line, and ended when another follows. */
  predicate Written(line: string, more: bool)
  {
    (line != "" ==> Proper(line)) && (more ==> Ended(line)) && OneLine(Chomp(line))
  }

  lemma {:induction false} RewrittenProper(lines: seq<string>, st: State, lc: Style, scrub: string -> string)
    requires Readable(lines) && KeepsLines(scrub)
    ensures forall k | 0 <= k < |lines| :: Written(RewrittenLines(lines, st, lc, scrub)[k], k < |lines| - 1)
  {
    if lines != [] {
      hide Chomp, LexLine, Written, Readable, KeepsLines, RewrittenLines;
      var exit := Exit(LexLine(Chomp(lines[0]), st, lc));
      ReadableTail(lines);
      FirstProper(lines, st, lc, scrub);
      RewrittenProper(lines[1..], exit, lc, scrub);
      RewrittenTail(lines, st, lc, scrub);
      var redone, rest := RewrittenLines(lines, st, lc, scrub), RewrittenLines(lines[1..], exit, lc, scrub);
      forall k | 1 <= k < |lines|
        ensures Written(redone[k], k < |lines| - 1)
      {
        assert redone[k] == redone[1..][k - 1] == rest[k - 1];
      }
    }
  }

  lemma FirstProper(lines: seq<string>, st: State, lc: Style, scrub: string -> string)
    requires Readable(lines) && KeepsLines(scrub) && lines != []
    ensures Written(RewrittenLines(lines, st, lc, scrub)[0], |lines| > 1)
  {
    hide Chomp, LexLine;
    var line := Chomp(lines[0]);
    var ts := LexLine(line, st, lc);
    LineConserves(line, st, lc);
    RewriteStaysOnLine(ts, scrub);
    ChompProper(RewriteText(ts, scrub), Ended(lines[0]));
  }

  lemma RewrittenTail(lines: seq<string>, st: State, lc: Style, scrub: string -> string)
    requires lines != []
    ensures RewrittenLines(lines, st, lc, scrub)[1..] == RewrittenLines(lines[1..], Exit(LexLine(Chomp(lines[0]), st, lc)), lc, scrub)
  {
  }

  /** Lexing the rewritten lines gives the scrubbed tokens on every line, each
      entered in the same carried state, exactly when every line is safe. */
  lemma {:induction false} RelexLines(lines: seq<string>, st: State, lc: Style, scrub: string -> string)
    requires Readable(lines) && KeepsLines(scrub)
    requires forall k | 0 <= k < |lines| :: RewrittenLines(lines, st, lc, scrub)[k] != ""
    ensures LexFile(RewrittenLines(lines, st, lc, scrub), st, lc) == ScrubbedFile(LexFile(lines, st, lc), scrub)
            <==> SafeFile(lines, st, lc, scrub)
  {
    if lines != [] {
      hide Chomp, LexLine, Safe;
      var line := Chomp(lines[0]);
      var ts := LexLine(line, st, lc);
      var text := RewriteText(ts, scrub);
      ReadableTail(lines);
      LineConserves(line, st, lc);
      RewriteStaysOnLine(ts, scrub);
      ChompProper(text, Ended(lines[0]));
      var redone := RewrittenLines(lines, st, lc, scrub);
      var rest := RewrittenLines(lines[1..], Exit(ts), lc, scrub);
      assert redone[1..] == rest && forall k | 0 <= k < |rest| :: rest[k] == redone[k + 1];
      RelexLines(lines[1..], Exit(ts), lc, scrub);
      RelexLine(line, st, lc, scrub);
      ShapeKept(ts, scrub);
      assert redone[0] == text + Ending(lines[0]) && redone[0] != "";
      RelexCons(redone, st, lc, LexFile(lines, st, lc), scrub);
    }
  }

  lemma RelexCons(redone: seq<string>, st: State, lc: Style, file: seq<Tokens>, scrub: string -> string)
    requires redone != [] && file != []
    ensures var first := LexLine(Chomp(redone[0]), st, lc);
            LexFile(redone, st, lc) == ScrubbedFile(file, scrub)
            <==> first == ScrubbedAll(file[0], scrub) && LexFile(redone[1..], Exit(first), lc) == ScrubbedFile(file[1..], scrub)
  {
    hide LexLine, Chomp;
    var a, b := LexFile(redone, st, lc), ScrubbedFile(file, scrub);
    var first := LexLine(Chomp(redone[0]), st, lc);
    assert a[0] == first && a[1..] == LexFile(redone[1..], Exit(first), lc);
    assert b[0] == ScrubbedAll(file[0], scrub) && b[1..] == ScrubbedFile(file[1..], scrub);
    assert a == [a[0]] + a[1..] && b == [b[0]] + b[1..];
  }

  /** Where the text of a file is one line after another again. */
  lemma ReadWritten(redone: seq<string>)
    requires forall k | 0 <= k < |redone| :: Written(redone[k], k < |redone| - 1)
    ensures if redone == [] || redone[|redone| - 1] != "" then
              (forall k | 0 <= k < |redone| :: redone[k] != "") && ReadLines(Join(redone, "")) == redone
            else |ReadLines(Join(redone, ""))| == |redone| - 1
  {
    hide Chomp, OneLine, ReadLines, Join;
    forall k | 0 <= k < |redone| && redone[k] != ""
      ensures Proper(redone[k])
    {
      assert Written(redone[k], k < |redone| - 1);
    }
    forall k | 0 <= k < |redone| - 1
      ensures Ended(redone[k]) && redone[k] != ""
    {
      assert Written(redone[k], k < |redone| - 1);
    }
    hide Written, Proper, Ended;
    if redone != [] {
      var n := |redone| - 1;
      if redone[n] != "" {
        ReadJoined(redone);
      } else {
        var front := redone[..n];
        ReadJoined(front);
        assert redone == front + [""];
        JoinEmptyLast(front);
      }
    } else {
      ReadJoined(redone);
    }
  }

  lemma {:induction false} JoinEmptyLast(front: seq<string>)
    ensures Join(front + [""], "") == Join(front, "")
  {
    if front != [] {
      assert (front + [""])[1..] == front[1..] + [""];
      assert front == [front[0]] + front[1..];
      assert front + [""] == [front[0]] + (front[1..] + [""]);
      JoinCons(front[0], front[1..]);
      JoinCons(front[0], front[1..] + [""]);
      JoinEmptyLast(front[1..]);
    }
  }

  lemma {:induction false} LexFileSize(lines: seq<string>, st: State, lc: Style)
    ensures |LexFile(lines, st, lc)| == |lines|
  {
    hide LexLine;
    if lines != [] {
      LexFileSize(lines[1..], Exit(LexLine(Chomp(lines[0]), st, lc)), lc);
    }
  }

  lemma {:induction false} SafeFileKeepsLast(lines: seq<string>, st: State, lc: Style, scrub: string -> string)
    requires SafeFile(lines, st, lc, scrub) && lines != []
    ensures RewrittenLines(lines, st, lc, scrub)[|lines| - 1] != ""
  {
    hide LexLine, Safe, Chomp, RewriteText;
    var st' := Exit(LexLine(Chomp(lines[0]), st, lc));
    if |lines| > 1 {
      SafeFileKeepsLast(lines[1..], st', lc, scrub);
      RewrittenTail(lines, st, lc, scrub);
    }
  }

  /** The whole file: reading the written text back finds the scrubbed tokens of
      the original, line by line, exactly when the file is safe to rewrite. */
  lemma RelexFile(raw: string, lc: Style, scrub: string -> string)
    requires KeepsLines(scrub)
    ensures var lines := ReadLines(Universal(raw));
            var content := Join(RewrittenLines(lines, Code, lc, scrub), "");
            LexFile(ReadLines(Universal(content)), Code, lc) == ScrubbedFile(LexFile(lines, Code, lc), scrub)
            <==> SafeFile(lines, Code, lc, scrub)
  {
    hide LexFile, ScrubbedFile, SafeFile, ReadLines, Universal, RewrittenLines;
    var lines := ReadLines(Universal(raw));
    var redone := RewrittenLines(lines, Code, lc, scrub);
    ReadReadable(raw);
    WrittenText(lines, Code, lc, scrub);
    RewrittenProper(lines, Code, lc, scrub);
    ReadWritten(redone);
    LexFileSize(lines, Code, lc);
    LexFileSize(ReadLines(Join(redone, "")), Code, lc);
    if SafeFile(lines, Code, lc, scrub) && lines != [] {
      SafeFileKeepsLast(lines, Code, lc, scrub);
    }
    if lines == [] || redone[|lines| - 1] != "" {
      RelexLines(lines, Code, lc, scrub);
    }
  }

  lemma {:induction false} UniversalPlain(raw: string)
    ensures '\r' !in Universal(raw)
    ensures '\r' !in raw <==> Universal(raw) == raw
    decreases |raw|
  {
    if raw != "" {
      var rest := raw[if raw[0] == '\r' && |raw| > 1 && raw[1] == '\n' then 2 else 1..];
      UniversalPlain(rest);
      assert raw == [raw[0]] + raw[1..];
      if raw[0] != '\r' {
        assert Universal(raw)[1..] == Universal(rest);
      } else {
        assert Universal(raw)[0] == '\n';
      }
    }
  }

  lemma ReadReadable(raw: string)
    ensures Readable(ReadLines(Universal(raw)))
  {
    hide Universal, ReadLines, Chomp, Ended;
    var text := Universal(raw);
    var lines := ReadLines(text);
    UniversalPlain(raw);
    ReadLinesProper(text);
    JoinLacks(lines, '\r');
    forall k | 0 <= k < |lines|
      ensures OneLine(Chomp(lines[k]))
    {
      ProperParts(lines[k]);
    }
  }

  lemma {:induction false} JoinLacks(lines: seq<string>, c: char)
    ensures c !in Join(lines, "") <==> forall k | 0 <= k < |lines| :: c !in lines[k]
  {
    if lines != [] {
      var first, rest := lines[0], lines[1..];
      assert lines == [first] + rest;
      JoinCons(first, rest);
      JoinLacks(rest, c);
      assert forall k | 1 <= k < |lines| :: lines[k] == rest[k - 1];
      assert c in first + Join(rest, "") <==> c in first || c in Join(rest, "");
    }
  }

  lemma WrittenText(lines: seq<string>, st: State, lc: Style, scrub: string -> string)
    requires Readable(lines) && KeepsLines(scrub)
    ensures var content := Join(RewrittenLines(lines, st, lc, scrub), ""); Universal(content) == content
  {
    hide Universal, RewrittenLines, Join;
    var redone := RewrittenLines(lines, st, lc, scrub);
    RewrittenProper(lines, st, lc, scrub);
    forall k | 0 <= k < |redone|
      ensures '\r' !in redone[k]
    {
      assert Written(redone[k], k < |lines| - 1);
      if redone[k] != "" { ProperParts(redone[k]); }
    }
    JoinLacks(redone, '\r');
    UniversalPlain(Join(redone, ""));
  }

  lemma {:induction false} ScrubbedFileAt(file: seq<Tokens>, scrub: string -> string, k: nat)
    requires k < |file|
    ensures ScrubbedFile(file, scrub)[k] == ScrubbedAll(file[k], scrub)
  {
    if k > 0 {
      ScrubbedFileAt(file[1..], scrub, k - 1);
    }
  }

  /** After a safe rewrite every line keeps its delimiters, its code and opaque
      text, and the state it carries on. */
  lemma FileSyntaxKept(raw: string, lc: Style, scrub: string -> string, k: nat)
    requires KeepsLines(scrub)
    ensures var lines := ReadLines(Universal(raw));
            var was := LexFile(lines, Code, lc);
            var now := LexFile(ReadLines(Universal(Join(RewrittenLines(lines, Code, lc, scrub), ""))), Code, lc);
            SafeFile(lines, Code, lc, scrub) && k < |was| ==>
              |now| == |was| && Shape(now[k]) == Shape(was[k]) && Exit(now[k]) == Exit(was[k])
  {
    hide LexFile, ReadLines, Universal, RewrittenLines, SafeFile, ScrubbedFile;
    RelexFile(raw, lc, scrub);
    var was := LexFile(ReadLines(Universal(raw)), Code, lc);
    if k < |was| {
      ScrubbedFileAt(was, scrub, k);
      ShapeKept(was[k], scrub);
    }
  }

  /** The run that reports no line is the run that rewrites none: what `--check` gates on. */
  lemma {:induction false} ChecksClean(lines: seq<string>, st: State, lc: Style, scrub: string -> string, n: nat)
    requires Readable(lines)
    ensures ChangedLines(lines, st, lc, scrub, n) == [] <==> RewrittenLines(lines, st, lc, scrub) == lines
  {
    if lines != [] {
      hide Chomp, LexLine, RewriteText, RewrittenLines, Readable;
      var nl := Chomp(lines[0]);
      var ts := LexLine(nl, st, lc);
      ReadableTail(lines);
      ChecksClean(lines[1..], Exit(ts), lc, scrub, n + 1);
      RewrittenTail(lines, st, lc, scrub);
      FirstUnchanged(lines, st, lc, scrub);
      SameLines(RewrittenLines(lines, st, lc, scrub), lines);
    }
  }

  lemma FirstUnchanged(lines: seq<string>, st: State, lc: Style, scrub: string -> string)
    requires Readable(lines) && lines != []
    ensures var nl := Chomp(lines[0]);
            RewrittenLines(lines, st, lc, scrub)[0] == lines[0] <==> RewriteText(LexLine(nl, st, lc), scrub) == nl
  {
    hide Chomp, LexLine, RewriteText;
    var nl := Chomp(lines[0]);
    ProperParts(lines[0]);
    SameText(RewriteText(LexLine(nl, st, lc), scrub), nl, Ending(lines[0]));
  }

  lemma SameLines(a: seq<string>, b: seq<string>)
    requires |a| == |b| > 0
    ensures a == b <==> a[0] == b[0] && a[1..] == b[1..]
  {
    assert a == [a[0]] + a[1..] && b == [b[0]] + b[1..];
  }

  lemma SameText(a: string, b: string, ending: string)
    ensures a + ending == b + ending <==> a == b
  {
    if a + ending == b + ending {
      assert a == (a + ending)[..|a|] && b == (b + ending)[..|b|];
    }
  }

  /** A scrub that changes nothing gives the text back; the bytes too, unless they held a carriage return. */
  lemma IdentityKeepsFile(raw: string, lc: Style, scrub: string -> string)
    requires forall b :: scrub(b) == b
    ensures var content := Join(RewrittenLines(ReadLines(Universal(raw)), Code, lc, scrub), "");
            content == Universal(raw) && (content == raw <==> '\r' !in raw)
  {
    hide Universal, ReadLines, RewrittenLines, Join;
    ReadReadable(raw);
    ReadLinesProper(Universal(raw));
    IdentityLines(ReadLines(Universal(raw)), Code, lc, scrub);
    UniversalPlain(raw);
  }

  lemma {:induction false} IdentityLines(lines: seq<string>, st: State, lc: Style, scrub: string -> string)
    requires Readable(lines) && forall b :: scrub(b) == b
    ensures RewrittenLines(lines, st, lc, scrub) == lines
  {
    if lines != [] {
      hide Chomp, LexLine;
      var nl := Chomp(lines[0]);
      var ts := LexLine(nl, st, lc);
      ReadableTail(lines);
      ProperParts(lines[0]);
      IdentityScrub(ts, scrub);
      LineConserves(nl, st, lc);
      IdentityLines(lines[1..], Exit(ts), lc, scrub);
    }
  }

  /** A second run over a safely rewritten file, with an idempotent scrub, changes nothing. */
  lemma SecondRunIsQuiet(raw: string, lc: Style, scrub: string -> string)
    requires KeepsLines(scrub) && forall b :: scrub(scrub(b)) == scrub(b)
    requires SafeFile(ReadLines(Universal(raw)), Code, lc, scrub)
    ensures var content := Join(RewrittenLines(ReadLines(Universal(raw)), Code, lc, scrub), "");
            var again := ReadLines(Universal(content));
            && ChangedLines(again, Code, lc, scrub, 1) == []
            && Join(RewrittenLines(again, Code, lc, scrub), "") == content
  {
    hide Universal, ReadLines, RewrittenLines, Join, SafeFile, ChangedLines;
    var lines := ReadLines(Universal(raw));
    var redone := RewrittenLines(lines, Code, lc, scrub);
    ReadReadable(raw);
    WrittenText(lines, Code, lc, scrub);
    RewrittenProper(lines, Code, lc, scrub);
    ReadWritten(redone);
    if lines != [] { SafeFileKeepsLast(lines, Code, lc, scrub); }
    ReadReadable(Join(redone, ""));
    SettledLines(lines, Code, lc, scrub);
    ChecksClean(redone, Code, lc, scrub, 1);
  }

  lemma {:induction false} SettledLines(lines: seq<string>, st: State, lc: Style, scrub: string -> string)
    requires Readable(lines) && KeepsLines(scrub) && forall b :: scrub(scrub(b)) == scrub(b)
    requires SafeFile(lines, st, lc, scrub)
    ensures var redone := RewrittenLines(lines, st, lc, scrub);
            RewrittenLines(redone, st, lc, scrub) == redone
  {
    if lines != [] {
      hide Chomp, LexLine, Safe;
      var line := Chomp(lines[0]);
      var ts := LexLine(line, st, lc);
      var text := RewriteText(ts, scrub);
      ReadableTail(lines);
      LineConserves(line, st, lc);
      RewriteStaysOnLine(ts, scrub);
      ChompProper(text, Ended(lines[0]));
      RewrittenTail(lines, st, lc, scrub);
      SettledLines(lines[1..], Exit(ts), lc, scrub);
      RelexLine(line, st, lc, scrub);
      IdempotentSettles(ts, scrub);
      ShapeKept(ts, scrub);
    }
  }

  //-------------------------------------------------------
  // Line ends
  //-------------------------------------------------------

  /** Text without a carriage return is read as it is, up to the next one; that one, with a newline after it or
      alone, is read as one newline. */
  lemma {:induction false} UniversalNewlines(a: string, b: string)
    requires '\r' !in a
    ensures Universal(a) == a
    ensures Universal(a + "\r\n" + b) == a + "\n" + Universal(b)
    ensures (b == "" || b[0] != '\n') ==> Universal(a + "\r" + b) == a + "\n" + Universal(b)
  {
    if a == "" {
      assert "" + "\r\n" + b == "\r\n" + b && ("\r\n" + b)[2..] == b;
      assert "" + "\r" + b == "\r" + b && ("\r" + b)[1..] == b;
    } else {
      UniversalNewlines(a[1..], b);
      assert (a + "\r\n" + b)[1..] == a[1..] + "\r\n" + b && (a + "\r" + b)[1..] == a[1..] + "\r" + b;
      assert [a[0]] + a[1..] == a;
      assert [a[0]] + (a[1..] + "\n" + Universal(b)) == a + "\n" + Universal(b);
    }
  }
}
