/** Literals mean what they spell: plain ones decode every text, and multiline ones lose
  their margin and nothing else. */
module LexLiterals {
  import opened Wrappers
  import opened LexModel


  function Toks(tokens: seq<Token>): (r: seq<Tok>)
    ensures |r| == |tokens| && forall k :: 0 <= k < |r| ==> r[k] == tokens[k].tok
  {
    seq(|tokens|, k requires 0 <= k < |tokens| => tokens[k].tok)
  }

  /** A whole literal on its own: its opener, its text if any, its end and a terminator. */
  function Alone(kind: StrKind, text: string): seq<Tok> {
    [StrStart(kind)] + (if text == "" then [] else [StrText(text)]) + [StrEnd, IMPLICIT]
  }

  /** A string body is open at top level and holds `text` back. */
  ghost predicate Reading(st: State, kind: StrKind, text: string) {
    && |st.ctx| == 1 && st.ctx[0].Str? && st.ctx[0].body.kind == kind && st.ctx[0].body.pending == text
    && st.errors == [] && st.deferred == [] && st.attrClose == None
    && Toks(st.tokens) == [StrStart(kind)]
  }

  // -- plain literals -----------------------------------------------------------------------

  function Escaped(c: char): (r: string)
    ensures r != ""
  {
    if c == '"' then "\\\""
    else if c == '\\' then "\\\\"
    else if c == '{' then "{{"
    else if c == '}' then "}}"
    else if c == '\n' then "\\n"
    else [c]
  }

  function EscapedText(t: string): string {
    if t == "" then "" else Escaped(t[0]) + EscapedText(t[1..])
  }

  lemma SpecialIsEscaped(text: string, at: nat, c: char)
    requires StartsAt(text, at, ['\\', if c == '\n' then 'n' else c])
    requires c == '"' || c == '\\' || c == '\n'
    ensures at + 2 <= |text| && text[at] == '\\' && EscapeAt(text, at + 1, false) == Escape(at + 2, Ok(c))
  {
    var w := text[at..at + 2];
    assert text[at] == w[0] && text[at + 1] == w[1];
  }

  lemma WordAt(text: string, at: nat, w: string)
    requires StartsAt(text, at, w) && 1 <= |w| <= 2
    ensures at < |text| && text[at] == w[0] && (|w| == 2 ==> at + 1 < |text| && text[at + 1] == w[1])
  {
    assert text[at..at + |w|] == w;
    assert text[at..at + |w|][0] == text[at];
    if |w| == 2 {
      assert text[at..at + |w|][1] == text[at + 1];
    }
  }

  lemma EscapedCharIsHeld(i: Input, st: State, body: Body, c: char)
    requires Top(st.ctx) == Some(Str(body)) && body.kind.Plain?
    requires StartsAt(i.text, st.pos, Escaped(c))
    ensures st.pos < |i.text| && Step(i, st) == Hold(st, body, c, st.pos + |Escaped(c)|)
  {
    hide EscapeAt, Hold, CloseString, Abandon, Interpolate;
    WordAt(i.text, st.pos, Escaped(c));
    if c == '"' || c == '\\' || c == '\n' {
      assert Escaped(c) == ['\\', if c == '\n' then 'n' else c];
      SpecialIsEscaped(i.text, st.pos, c);
      assert !StartsAt(i.text, st.pos, "{{") && !StartsAt(i.text, st.pos, "}}");
    } else if c != '{' && c != '}' {
      assert !StartsAt(i.text, st.pos, "{{") && !StartsAt(i.text, st.pos, "}}");
    }
  }

  /** The body of a literal is read to its closing quote, every character decoded. */
  lemma {:induction false} EscapedTextIsHeld(i: Input, st: State, known: string, t: string) returns (last: State)
    requires st.pos <= |i.text| && Reading(st, StrKind.Plain, known)
    requires i.text[st.pos..] == EscapedText(t) + "\""
    ensures last.pos == |i.text| - 1 && i.text[last.pos] == '"' && Reading(last, StrKind.Plain, known + t)
    ensures Scan(i, st) == Scan(i, last)
    decreases |t|
  {
    hide Step, Escaped, Toks;
    if t == "" {
      last := st;
      assert i.text[st.pos..][0] == '"';
      assert known + t == known;
    } else {
      var w := Escaped(t[0]);
      var end := st.pos + |w|;
      assert i.text[st.pos..] == w + (EscapedText(t[1..]) + "\"");
      assert i.text[st.pos..end] == w;
      assert i.text[end..] == EscapedText(t[1..]) + "\"";
      var body := st.ctx[0].body;
      EscapedCharIsHeld(i, st, body, t[0]);
      var next := Hold(st, body, t[0], end);
      last := EscapedTextIsHeld(i, next, known + [t[0]], t[1..]);
      assert known + [t[0]] + t[1..] == known + t;
    }
  }

  /** Nothing follows the literal, so its end is followed by one inserted terminator. */
  lemma FinishesAlone(i: Input, st: State, kind: StrKind, text: string)
    requires st.pos == |i.text| && st.ctx == [] && st.attrClose == None && st.errors == [] && st.deferred == []
    requires Toks(st.tokens) == [StrStart(kind)] + (if text == "" then [] else [StrText(text)]) + [StrEnd]
    ensures Toks(Closed(i, st).tokens) == Alone(kind, text)
    ensures Closed(i, st).errors == [] && Closed(i, st).deferred == []
  {
    var n := |st.tokens|;
    assert st.tokens[n - 1].tok == Toks(st.tokens)[n - 1] == StrEnd;
    assert Toks(Closed(i, st).tokens) == Toks(st.tokens) + [IMPLICIT];
  }

  lemma QuoteIsOpener(i: Input, st: State)
    requires Sees(i.text, st.pos, '"') && st.ctx == []
    ensures Step(i, st) == QuoteStep(i, st)
  {
    hide QuoteStep;
    assert !StartsAt(i.text, st.pos, "//");
  }

  lemma OpensPlain(i: Input)
    requires |i.text| >= 2 && i.text[0] == '"' && !StartsAt(i.text, 0, "\"\"\"")
    ensures Step(i, Begin(i)).pos == 1 && Reading(Step(i, Begin(i)), StrKind.Plain, "")
    ensures Scan(i, Begin(i)) == Scan(i, Step(i, Begin(i)))
  {
    hide Step, Toks, OpenString;
    var begin := Begin(i);
    QuoteIsOpener(i, begin);
    OpensFirst(begin, StrKind.Plain, 0, 1);
    assert Scan(i, begin) == Scan(i, Step(i, begin));
  }

  lemma OpensFirst(st: State, kind: StrKind, start: nat, body: nat)
    requires st.ctx == [] && st.tokens == [] && st.errors == [] && st.deferred == [] && st.attrClose == None
    ensures Reading(OpenString(st, kind, start, body), kind, "")
    ensures OpenString(st, kind, start, body).ctx == [Str(Body(kind, body, "", body, [], []))]
  {
    var f := Str(Body(kind, body, "", body, [], []));
    assert Pop([f]) == [];
    assert StringDepth([f]) == 1;
  }

  /** For every text, lexing its escaped plain literal reports nothing and yields the opener,
    the text itself when there is any, the end and one terminator. */
  lemma PlainLiteralRoundTrips(t: string, u: Unicode)
    ensures var lexed := Lex(Input("\"" + EscapedText(t) + "\"", u));
            Toks(lexed.tokens) == Alone(StrKind.Plain, t) && lexed.errors == [] && lexed.deferred == []
  {
    hide Step, Escaped, Closed;
    var i := Input("\"" + EscapedText(t) + "\"", u);
    assert !StartsAt(i.text, 0, "\"\"\"") by { NoTripleQuote(t, i.text); }
    OpensPlain(i);
    var open := Step(i, Begin(i));
    assert i.text[1..] == EscapedText(t) + "\"";
    var last := EscapedTextIsHeld(i, open, "", t);
    assert "" + t == t;
    ClosesPlain(i, last, t);
    FinishesAlone(i, Scan(i, last), StrKind.Plain, t);
  }

  lemma NoTripleQuote(t: string, text: string)
    requires text == "\"" + EscapedText(t) + "\""
    ensures !StartsAt(text, 0, "\"\"\"")
  {
    if t != "" {
      assert EscapedText(t)[0] == Escaped(t[0])[0] != '"';
      assert text[1] == EscapedText(t)[0];
      assert text[0..3][1] == text[1];
    }
  }

  lemma ClosesPlain(i: Input, st: State, t: string)
    requires st.pos == |i.text| - 1 && i.text[st.pos] == '"' && Reading(st, StrKind.Plain, t)
    ensures var end := Scan(i, st);
            && end.pos == |i.text| && end.ctx == [] && end.attrClose == None && end.errors == [] && end.deferred == []
            && Toks(end.tokens) == [StrStart(StrKind.Plain)] + (if t == "" then [] else [StrText(t)]) + [StrEnd]
  {
    var body := st.ctx[0].body;
    var next := CloseString(i, st, body);
    assert Step(i, st) == next;
    assert Scan(i, st) == next;
  }

  // -- dedent, line by line -----------------------------------------------------------------

  /** The segments between newlines; there is always at least one. */
  function Lines(s: string): (r: seq<string>)
    ensures r != []
  {
    if s == "" then [""]
    else
      var rest := Lines(s[1..]);
      if s[0] == '\n' then [""] + rest else [[s[0]] + rest[0]] + rest[1..]
  }

  /** Every segment from the second on is a whole line; the first is one if `whole`. */
  function Unindented(lines: seq<string>, column: nat, whole: bool): string
    requires lines != []
    decreases |lines|
  {
    var first := if whole then lines[0][Blanks(lines[0], column)..] else lines[0];
    if |lines| == 1 then first else first + "\n" + Unindented(lines[1..], column, true)
  }

  predicate EndsAtLineStart(lines: seq<string>, whole: bool)
    requires lines != []
  {
    lines[|lines| - 1] == "" && (|lines| > 1 || whole)
  }

  lemma {:induction false} BlanksOfLine(s: string, most: nat)
    ensures Blanks(Lines(s)[0], most) == Blanks(s, most)
    ensures Lines(s)[0] <= s
    decreases |s|
  {
    if s != "" && s[0] != '\n' {
      BlanksOfLine(s[1..], Less(most, 1));
      assert Lines(s)[0][1..] == Lines(s[1..])[0];
      assert s == [s[0]] + s[1..];
    }
  }

  lemma {:induction false} LinesDropBlanks(s: string, n: nat)
    requires n <= |Lines(s)[0]| && Lines(s)[0] <= s
    ensures Lines(s[n..]) == [Lines(s)[0][n..]] + Lines(s)[1..]
    decreases n
  {
    if n == 0 {
      assert s[0..] == s;
    } else {
      assert s[0] == Lines(s)[0][0];
      LinesDropBlanks(s[1..], n - 1);
      assert s[1..][n - 1..] == s[n..];
      assert Lines(s)[0][1..] == Lines(s[1..])[0];
    }
  }

  /** A chunk whose first character is kept. */
  function Copied(s: string, column: nat): (string, bool)
    requires s != ""
  {
    var rest := DedentChunk(s[1..], column, s[0] == '\n');
    ([s[0]] + rest.0, rest.1)
  }

  lemma ChunkUnfolds(s: string, column: nat, whole: bool)
    requires s != ""
    ensures !whole || s[0] == '\n' ==> DedentChunk(s, column, whole) == Copied(s, column)
    ensures whole && s[0] != '\n' ==>
              DedentChunk(s, column, whole)
              == var kept := s[Blanks(s, column)..]; if kept == "" then ("", false) else Copied(kept, column)
  {
  }

  lemma LinesAfterNewline(s: string, column: nat)
    requires s != "" && s[0] == '\n'
    ensures Unindented(Lines(s), column, false) == [s[0]] + Unindented(Lines(s[1..]), column, true)
    ensures EndsAtLineStart(Lines(s), false) == EndsAtLineStart(Lines(s[1..]), true)
  {
    hide Blanks;
    assert Lines(s)[1..] == Lines(s[1..]);
    assert Lines(s)[0] == "";
    assert "" + "\n" == [s[0]];
  }

  lemma LinesAfterChar(s: string, column: nat)
    requires s != "" && s[0] != '\n'
    ensures Unindented(Lines(s), column, false) == [s[0]] + Unindented(Lines(s[1..]), column, false)
    ensures EndsAtLineStart(Lines(s), false) == EndsAtLineStart(Lines(s[1..]), false)
  {
    hide Blanks;
    var rest := Lines(s[1..]);
    assert Lines(s)[1..] == rest[1..];
    assert Lines(s)[0] == [s[0]] + rest[0];
  }

  /** A chunk that is copied keeps its first line whole. */
  lemma {:induction false} CopiedIsLineByLine(s: string, column: nat)
    requires s != ""
    ensures Copied(s, column).0 == Unindented(Lines(s), column, false)
    ensures Copied(s, column).1 == EndsAtLineStart(Lines(s), false)
    decreases |s|, 0
  {
    hide DedentChunk, Unindented, EndsAtLineStart, Lines;
    DedentIsLineByLine(s[1..], column, s[0] == '\n');
    if s[0] == '\n' {
      LinesAfterNewline(s, column);
    } else {
      LinesAfterChar(s, column);
    }
  }

  lemma NewlineFirst(s: string, column: nat)
    requires s != "" && s[0] == '\n'
    ensures Unindented(Lines(s), column, true) == Unindented(Lines(s), column, false)
    ensures EndsAtLineStart(Lines(s), true) == EndsAtLineStart(Lines(s), false)
  {
  }

  lemma UnindentsFirst(first: string, rest: seq<string>, column: nat)
    ensures Unindented([first[Blanks(first, column)..]] + rest, column, false) == Unindented([first] + rest, column, true)
  {
    hide Blanks;
    assert ([first] + rest)[1..] == rest;
    assert ([first[Blanks(first, column)..]] + rest)[1..] == rest;
  }

  lemma StripsFirst(s: string, column: nat)
    requires s != "" && s[0] != '\n'
    ensures var kept := s[Blanks(s, column)..];
            && Unindented(Lines(kept), column, false) == Unindented(Lines(s), column, true)
            && (kept != "" ==> EndsAtLineStart(Lines(kept), false) == EndsAtLineStart(Lines(s), true))
            && (kept == "" ==> !EndsAtLineStart(Lines(s), true))
  {
    hide Blanks, Unindented;
    var n := Blanks(s, column);
    var kept := s[n..];
    var first, rest := Lines(s)[0], Lines(s)[1..];
    BlanksOfLine(s, column);
    LinesDropBlanks(s, n);
    assert Lines(s) == [first] + rest && Lines(kept) == [first[n..]] + rest;
    UnindentsFirst(first, rest, column);
    assert first != "";
    if rest == [] {
      OneLine(kept);
    }
  }

  lemma {:induction false} OneLine(s: string)
    requires |Lines(s)| == 1
    ensures Lines(s) == [s]
  {
    if s != "" {
      OneLine(s[1..]);
      assert [s[0]] + s[1..] == s;
    }
  }

  /** `dedent_chunk` takes from each line start the blanks it has, up to the column, and
    nothing else; its answer says whether the chunk stops at a line start. */
  lemma {:induction false} DedentIsLineByLine(s: string, column: nat, whole: bool)
    ensures DedentChunk(s, column, whole).0 == Unindented(Lines(s), column, whole)
    ensures DedentChunk(s, column, whole).1 == EndsAtLineStart(Lines(s), whole)
    decreases |s|, 1
  {
    if s == "" {
      NothingToStrip(column, whole);
    } else {
      hide DedentChunk, Copied, Unindented, EndsAtLineStart, Lines, Blanks;
      ChunkUnfolds(s, column, whole);
      if !whole || s[0] == '\n' {
        CopiedIsLineByLine(s, column);
        if s[0] == '\n' {
          NewlineFirst(s, column);
        }
      } else {
        StripsFirst(s, column);
        var kept := s[Blanks(s, column)..];
        if kept != "" {
          CopiedIsLineByLine(kept, column);
        } else {
          NothingToStrip(column, false);
        }
      }
    }
  }

  lemma NothingToStrip(column: nat, whole: bool)
    ensures DedentChunk("", column, whole) == ("", whole)
    ensures Unindented(Lines(""), column, whole) == "" && EndsAtLineStart(Lines(""), whole) == whole
  {
  }
}
