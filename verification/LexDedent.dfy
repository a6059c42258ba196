/** Multiline literals: the margin rule measured on source, the strip applied to text. */
module LexDedent {
  import opened Wrappers
  import opened LexModel
  import opened LexLiterals

  // -- interpolations in the text --------------------------------------------------------------

  /** Dedenting around an interpolation is dedenting the text with any mark in its place:
    what precedes it keeps its lines, and it ends the line start it stands at. */
  lemma {:induction false} HolesEndLineStarts(a: string, x: char, b: string, column: nat, whole: bool)
    requires !IsBlank(x) && x != '\n'
    ensures DedentChunk(a + [x] + b, column, whole).0
         == DedentChunk(a, column, whole).0 + [x] + DedentChunk(b, column, false).0
    ensures DedentChunk(a + [x] + b, column, whole).1 == DedentChunk(b, column, false).1
    decreases |a|, 1
  {
    hide DedentChunk, Copied;
    var s := a + [x] + b;
    EmptyChunk(column, whole);
    ChunkUnfolds(s, column, whole);
    BlanksBefore(a, x, b, column);
    var n := Blanks(a, column);
    var kept := a[n..];
    assert s[n..] == kept + [x] + b;
    if a == "" {
      assert s[0..] == s;
      HoleIsCopied(s, x, b, column);
    } else {
      ChunkUnfolds(a, column, whole);
      if !whole || a[0] == '\n' {
        CopiedBeforeHole(a, x, b, column);
      } else if kept == "" {
        HoleIsCopied(s[n..], x, b, column);
      } else {
        CopiedBeforeHole(kept, x, b, column);
      }
    }
  }

  lemma HoleIsCopied(s: string, x: char, b: string, column: nat)
    requires s == [x] + b && x != '\n'
    ensures Copied(s, column).0 == [x] + DedentChunk(b, column, false).0
    ensures Copied(s, column).1 == DedentChunk(b, column, false).1
  {
    hide DedentChunk;
    assert s[1..] == b;
  }

  lemma {:induction false} CopiedBeforeHole(a: string, x: char, b: string, column: nat)
    requires a != "" && !IsBlank(x) && x != '\n'
    ensures Copied(a + [x] + b, column).0 == Copied(a, column).0 + [x] + DedentChunk(b, column, false).0
    ensures Copied(a + [x] + b, column).1 == DedentChunk(b, column, false).1
    decreases |a|, 0
  {
    hide DedentChunk;
    assert (a + [x] + b)[1..] == a[1..] + [x] + b;
    HolesEndLineStarts(a[1..], x, b, column, a[0] == '\n');
  }

  lemma {:induction false} BlanksBefore(a: string, x: char, b: string, most: nat)
    requires !IsBlank(x)
    ensures Blanks(a + [x] + b, most) == Blanks(a, most)
    decreases |a|
  {
    if a != "" && most > 0 {
      assert (a + [x] + b)[1..] == a[1..] + [x] + b;
      BlanksBefore(a[1..], x, b, most - 1);
    }
  }

  /** Stands for an interpolation. */
  const HOLE := 0xFFFC as char

  /** Texts name distinct text tokens, and each is followed by an interpolation. */
  predicate Woven(tokens: seq<Token>, pieces: seq<Piece>) {
    && (forall k :: 0 <= k < |pieces| && pieces[k].Text? ==>
          pieces[k].index < |tokens| && tokens[pieces[k].index].tok.StrText?)
    && (forall j, k :: 0 <= j < k < |pieces| && pieces[j].Text? && pieces[k].Text? ==>
          pieces[j].index < pieces[k].index)
    && Followed(pieces)
  }

  predicate Followed(pieces: seq<Piece>) {
    pieces == []
    || (pieces[0].Hole? && Followed(pieces[1..]))
    || (|pieces| > 1 && pieces[1].Hole? && Followed(pieces[2..]))
  }

  /** The literal's text with a mark for every interpolation, `tail` being its last part. */
  function WovenText(tokens: seq<Token>, pieces: seq<Piece>, tail: string): string
    requires forall k :: 0 <= k < |pieces| && pieces[k].Text? ==>
               pieces[k].index < |tokens| && tokens[pieces[k].index].tok.StrText?
  {
    if pieces == [] then tail
    else
      (match pieces[0] case Hole => [HOLE] case Text(index) => tokens[index].tok.text)
      + WovenText(tokens, pieces[1..], tail)
  }

  lemma {:induction false} WovenIgnores(tokens: seq<Token>, other: seq<Token>, pieces: seq<Piece>, tail: string)
    requires |tokens| == |other|
    requires forall k :: 0 <= k < |pieces| && pieces[k].Text? ==>
               pieces[k].index < |tokens| && tokens[pieces[k].index].tok.StrText?
               && tokens[pieces[k].index] == other[pieces[k].index]
    ensures WovenText(other, pieces, tail) == WovenText(tokens, pieces, tail)
  {
    if pieces != [] {
      WovenIgnores(tokens, other, pieces[1..], tail);
    }
  }

  lemma {:induction false} DedentTouchesOnly(tokens: seq<Token>, pieces: seq<Piece>, column: nat, whole: bool, at: nat)
    requires at < |tokens| && forall k :: 0 <= k < |pieces| && pieces[k].Text? ==> pieces[k].index != at
    ensures DedentPieces(tokens, pieces, column, whole).0[at] == tokens[at]
    decreases |pieces|
  {
    hide DedentChunk;
    if pieces != [] {
      match pieces[0]
      case Hole => DedentTouchesOnly(tokens, pieces[1..], column, false, at);
      case Text(index) =>
        if index < |tokens| && tokens[index].tok.StrText? {
          var stripped := DedentChunk(tokens[index].tok.text, column, whole);
          DedentTouchesOnly(tokens[index := Token(StrText(stripped.0), tokens[index].span)], pieces[1..], column,
                            stripped.1, at);
        } else {
          DedentTouchesOnly(tokens, pieces[1..], column, whole, at);
        }
    }
  }

  lemma {:induction false} DedentKeepsTexts(tokens: seq<Token>, pieces: seq<Piece>, column: nat, whole: bool, at: nat)
    requires at < |tokens| && tokens[at].tok.StrText?
    ensures DedentPieces(tokens, pieces, column, whole).0[at].tok.StrText?
    decreases |pieces|
  {
    hide DedentChunk;
    if pieces != [] {
      match pieces[0]
      case Hole => DedentKeepsTexts(tokens, pieces[1..], column, false, at);
      case Text(index) =>
        if index < |tokens| && tokens[index].tok.StrText? {
          var stripped := DedentChunk(tokens[index].tok.text, column, whole);
          DedentKeepsTexts(tokens[index := Token(StrText(stripped.0), tokens[index].span)], pieces[1..], column,
                           stripped.1, at);
        } else {
          DedentKeepsTexts(tokens, pieces[1..], column, whole, at);
        }
    }
  }

  lemma WovenTail(tokens: seq<Token>, pieces: seq<Piece>, n: nat)
    requires Woven(tokens, pieces) && n <= |pieces| && Followed(pieces[n..])
    ensures Woven(tokens, pieces[n..])
  {
  }

  lemma WovenStays(tokens: seq<Token>, pieces: seq<Piece>, column: nat, whole: bool)
    requires Woven(tokens, pieces)
    ensures Woven(DedentPieces(tokens, pieces, column, whole).0, pieces)
  {
    hide DedentPieces, Followed;
    forall k | 0 <= k < |pieces| && pieces[k].Text?
      ensures DedentPieces(tokens, pieces, column, whole).0[pieces[k].index].tok.StrText?
    {
      DedentKeepsTexts(tokens, pieces, column, whole, pieces[k].index);
    }
  }

  /** Rewriting the chunks of a literal one by one, the line-start flag passed along, is
    dedenting its whole text at once with its interpolations in place. */
  lemma {:induction false} ChunksDedentAsOne(tokens: seq<Token>, pieces: seq<Piece>, tail: string, column: nat, whole: bool)
    requires Woven(tokens, pieces)
    ensures var done := DedentPieces(tokens, pieces, column, whole);
            && Woven(done.0, pieces)
            && WovenText(done.0, pieces, DedentChunk(tail, column, done.1).0)
            == DedentChunk(WovenText(tokens, pieces, tail), column, whole).0
    decreases |pieces|
  {
    hide DedentChunk;
    WovenStays(tokens, pieces, column, whole);
    if pieces == [] {
    } else if pieces[0].Hole? {
      WovenTail(tokens, pieces, 1);
      ChunksDedentAsOne(tokens, pieces[1..], tail, column, false);
      HolesEndLineStarts("", HOLE, WovenText(tokens, pieces[1..], tail), column, whole);
      assert "" + [HOLE] + WovenText(tokens, pieces[1..], tail) == WovenText(tokens, pieces, tail);
      EmptyChunk(column, whole);
    } else {
      TextThenHole(tokens, pieces, tail, column, whole);
    }
  }

  lemma EmptyChunk(column: nat, whole: bool)
    ensures DedentChunk("", column, whole) == ("", whole)
  {
  }

  /** A text and the interpolation after it, given that what follows dedents as one. */
  lemma {:induction false} TextThenHole(tokens: seq<Token>, pieces: seq<Piece>, tail: string, column: nat, whole: bool)
    requires Woven(tokens, pieces) && |pieces| > 1 && pieces[0].Text? && pieces[1].Hole? && Followed(pieces[2..])
    ensures var done := DedentPieces(tokens, pieces, column, whole);
            && Woven(done.0, pieces)
            && WovenText(done.0, pieces, DedentChunk(tail, column, done.1).0)
            == DedentChunk(WovenText(tokens, pieces, tail), column, whole).0
    decreases |pieces|, 0
  {
    hide DedentChunk, Followed, DedentPieces, WovenText;
    WovenStays(tokens, pieces, column, whole);
    var index := pieces[0].index;
    var text := tokens[index].tok.text;
    var stripped := DedentChunk(text, column, whole);
    var now := tokens[index := Token(StrText(stripped.0), tokens[index].span)];
    var rest := pieces[2..];
    WovenTail(tokens, pieces, 2);
    assert Woven(now, rest);
    ChunksDedentAsOne(now, rest, tail, column, false);
    WovenIgnores(tokens, now, rest, tail);
    DedentTouchesOnly(now, rest, column, false, index);
    var done := DedentPieces(tokens, pieces, column, whole);
    DedentsTextThenHole(tokens, pieces, column, whole);
    HolesEndLineStarts(text, HOLE, WovenText(tokens, rest, tail), column, whole);
    WovenTextThenHole(tokens, pieces, tail);
    WovenTextThenHole(done.0, pieces, DedentChunk(tail, column, done.1).0);
  }

  lemma WovenTextThenHole(tokens: seq<Token>, pieces: seq<Piece>, tail: string)
    requires Woven(tokens, pieces) && |pieces| > 1 && pieces[0].Text? && pieces[1].Hole?
    ensures WovenText(tokens, pieces, tail)
         == tokens[pieces[0].index].tok.text + [HOLE] + WovenText(tokens, pieces[2..], tail)
  {
    hide Followed;
    assert pieces[1..][1..] == pieces[2..];
    assert WovenText(tokens, pieces[1..], tail) == [HOLE] + WovenText(tokens, pieces[2..], tail);
  }

  lemma DedentsTextThenHole(tokens: seq<Token>, pieces: seq<Piece>, column: nat, whole: bool)
    requires Woven(tokens, pieces) && |pieces| > 1 && pieces[0].Text? && pieces[1].Hole?
    ensures var index := pieces[0].index;
            var stripped := DedentChunk(tokens[index].tok.text, column, whole);
            var now := tokens[index := Token(StrText(stripped.0), tokens[index].span)];
            DedentPieces(tokens, pieces, column, whole) == DedentPieces(now, pieces[2..], column, false)
  {
    hide Followed, DedentChunk;
    assert pieces[1..][1..] == pieces[2..];
  }

  // -- a literal on its own ---------------------------------------------------------------------

  const QUOTES := "\"\"\""

  /** A line of a body that spells itself. */
  predicate PlainLine(line: string) {
    forall k :: 0 <= k < |line| ==>
      line[k] != '\n' && line[k] != '\\' && line[k] != '{' && line[k] != '}' && !StartsAt(line, k, QUOTES)
  }

  function Joined(lines: seq<string>): string {
    if lines == [] then "" else lines[0] + "\n" + Joined(lines[1..])
  }

  function StrippedText(lines: seq<string>, column: nat): string {
    if lines == [] then "" else lines[0][Blanks(lines[0], column)..] + "\n" + StrippedText(lines[1..], column)
  }

  /** A line the margin rule does not judge. */
  predicate BlankLine(line: string) {
    var run := RunEnd(line, 0, IsBlank);
    run == |line| || line[run] == '\r'
  }

  predicate Margined(lines: seq<string>, margin: string) {
    forall k :: 0 <= k < |lines| ==> BlankLine(lines[k]) || margin <= lines[k]
  }

  predicate PlainLines(lines: seq<string>) {
    forall k :: 0 <= k < |lines| ==> PlainLine(lines[k])
  }

  /** The line starts of a body whose first line begins at `at`, the closing line's last. */
  function LineStarts(lines: seq<string>, at: nat): (r: seq<nat>)
    ensures r != [] && r[0] == at
  {
    [at] + if lines == [] then [] else LineStarts(lines[1..], at + |lines[0]| + 1)
  }

  ghost predicate InBody(st: State, text: string, starts: seq<nat>) {
    && Reading(st, Multiline, text)
    && st.ctx[0].body.start == 4 && st.ctx[0].body.pieces == [] && st.ctx[0].body.lineStarts == starts
  }

  predicate Ordinary(text: string, at: nat)
    requires at < |text|
  {
    var c := text[at];
    c != '\n' && c != '\\' && c != '{' && c != '}' && !StartsAt(text, at, QUOTES)
  }

  lemma OrdinaryIsHeld(i: Input, st: State, body: Body)
    requires Top(st.ctx) == Some(Str(body)) && body.kind.Multiline? && st.pos < |i.text| && Ordinary(i.text, st.pos)
    ensures Step(i, st) == Hold(st, body, i.text[st.pos], st.pos + 1)
  {
    assert !StartsAt(i.text, st.pos, "{{") && !StartsAt(i.text, st.pos, "}}");
  }

  lemma {:induction false} RunIsHeld(i: Input, st: State, known: string, starts: seq<nat>, end: nat) returns (last: State)
    requires st.pos <= end <= |i.text| && InBody(st, known, starts)
    requires forall k :: st.pos <= k < end ==> Ordinary(i.text, k)
    ensures last.pos == end && InBody(last, known + i.text[st.pos..end], starts) && Scan(i, st) == Scan(i, last)
    decreases end - st.pos
  {
    hide Step, Ordinary, Toks;
    if st.pos == end {
      last := st;
      assert known + i.text[end..end] == known;
    } else {
      var body := st.ctx[0].body;
      var c := i.text[st.pos];
      OrdinaryIsHeld(i, st, body);
      var next := Hold(st, body, c, st.pos + 1);
      last := RunIsHeld(i, next, known + [c], starts, end);
      assert known + [c] + i.text[st.pos + 1..end] == known + i.text[st.pos..end];
    }
  }

  lemma NewlineStep(i: Input, st: State, body: Body)
    requires st.pos < |i.text| && i.text[st.pos] == '\n' && Top(st.ctx) == Some(Str(body)) && body.kind.Multiline?
    ensures Step(i, st) == AtLineStart(Hold(st, body, '\n', st.pos + 1), st.pos + 1)
  {
    hide AtLineStart, Hold;
    assert !StartsAt(i.text, st.pos, QUOTES) && !StartsAt(i.text, st.pos, "{{") && !StartsAt(i.text, st.pos, "}}");
  }

  lemma NewlineIsHeld(i: Input, st: State, known: string, starts: seq<nat>) returns (next: State)
    requires st.pos < |i.text| && i.text[st.pos] == '\n' && InBody(st, known, starts)
    ensures next.pos == st.pos + 1 && InBody(next, known + "\n", starts + [next.pos]) && Scan(i, st) == Scan(i, next)
  {
    hide Step, Toks;
    var body := st.ctx[0].body;
    NewlineStep(i, st, body);
    next := AtLineStart(Hold(st, body, '\n', st.pos + 1), st.pos + 1);
    assert Scan(i, st) == Scan(i, Step(i, st));
  }

  lemma QuotesAt(text: string, k: nat)
    ensures StartsAt(text, k, QUOTES) ==> text[k] == '"' && text[k + 1] == '"' && text[k + 2] == '"'
  {
    if StartsAt(text, k, QUOTES) {
      var w := text[k..k + 3];
      assert w[0] == text[k] && w[1] == text[k + 1] && w[2] == text[k + 2];
    }
  }

  lemma SliceOfSlice(text: string, at: nat, line: string, j: nat)
    requires at + |line| <= |text| && text[at..at + |line|] == line && j + 3 <= |line|
    ensures text[at + j..at + j + 3] == line[j..j + 3]
  {
    forall m | j <= m < j + 3 ensures text[at + m] == line[m] {
      assert text[at..at + |line|][m] == line[m];
    }
  }

  lemma LineIsOrdinary(text: string, at: nat, line: string, k: nat)
    requires PlainLine(line) && at + |line| < |text| && text[at..at + |line|] == line && text[at + |line|] == '\n'
    requires at <= k < at + |line|
    ensures Ordinary(text, k)
  {
    var j := k - at;
    assert text[k] == line[j];
    QuotesAt(text, k);
    if k + 3 <= at + |line| {
      SliceOfSlice(text, at, line, j);
    }
  }

  /** One line at the front of what is left. */
  lemma SplitLine(text: string, at: nat, line: string, rest: string)
    requires at <= |text| && text[at..] == line + "\n" + rest
    ensures at + |line| < |text| && text[at..at + |line|] == line && text[at + |line|] == '\n'
    ensures text[at + |line| + 1..] == rest
  {
    var s := text[at..];
    assert s[|line|] == '\n' && s[..|line|] == line && s[|line| + 1..] == rest;
    assert |s| == |line| + 1 + |rest|;
    assert text[at..at + |line|] == s[..|line|];
    assert text[at + |line| + 1..] == s[|line| + 1..];
  }

  lemma LineIsHeld(i: Input, st: State, known: string, starts: seq<nat>, line: string, rest: string) returns (next: State)
    requires st.pos <= |i.text| && InBody(st, known, starts) && PlainLine(line)
    requires i.text[st.pos..] == line + "\n" + rest
    ensures next.pos == st.pos + |line| + 1 <= |i.text| && i.text[next.pos..] == rest
    ensures InBody(next, known + line + "\n", starts + [next.pos]) && Scan(i, st) == Scan(i, next)
  {
    hide InBody, PlainLine, Scan, Ordinary;
    var end := st.pos + |line|;
    SplitLine(i.text, st.pos, line, rest);
    forall k | st.pos <= k < end ensures Ordinary(i.text, k) {
      LineIsOrdinary(i.text, st.pos, line, k);
    }
    var read := RunIsHeld(i, st, known, starts, end);
    next := NewlineIsHeld(i, read, known + line, starts);
  }

  lemma JoinedFirst(lines: seq<string>, known: string, tail: string, done: seq<nat>, at: nat)
    requires lines != []
    ensures Joined(lines) + tail == lines[0] + "\n" + (Joined(lines[1..]) + tail)
    ensures known + lines[0] + "\n" + Joined(lines[1..]) == known + Joined(lines)
    ensures |Joined(lines)| == |lines[0]| + 1 + |Joined(lines[1..])|
    ensures done + [at] + LineStarts(lines[1..], at + |lines[0]| + 1) == done + LineStarts(lines, at)
  {
    var rest := Joined(lines[1..]);
    assert Joined(lines) == lines[0] + "\n" + rest;
    Regroup(lines[0], "\n", rest, tail);
    Regroup(known, lines[0], "\n", rest);
    StartsFirst(lines, done, at);
  }

  lemma Regroup(a: string, b: string, c: string, d: string)
    ensures ((a + b) + c) + d == (a + b) + (c + d)
    ensures ((a + b) + c) + d == a + ((b + c) + d)
  {
  }

  lemma StartsFirst(lines: seq<string>, done: seq<nat>, at: nat)
    requires lines != []
    ensures done + [at] + LineStarts(lines[1..], at + |lines[0]| + 1) == done + LineStarts(lines, at)
  {
    var rest := LineStarts(lines[1..], at + |lines[0]| + 1);
    assert LineStarts(lines, at) == [at] + rest;
    assert (done + [at]) + rest == done + ([at] + rest);
  }

  lemma {:induction false} LinesAreHeld(i: Input, st: State, known: string, done: seq<nat>, lines: seq<string>, tail: string)
      returns (last: State)
    requires st.pos <= |i.text| && InBody(st, known, done + [st.pos]) && PlainLines(lines)
    requires i.text[st.pos..] == Joined(lines) + tail
    ensures last.pos == st.pos + |Joined(lines)|
    ensures InBody(last, known + Joined(lines), done + LineStarts(lines, st.pos)) && Scan(i, st) == Scan(i, last)
    decreases |lines|
  {
    hide InBody, PlainLine, Scan;
    if lines == [] {
      last := st;
      assert known + "" == known && done + LineStarts(lines, st.pos) == done + [st.pos];
    } else {
      hide Joined, LineStarts;
      JoinedFirst(lines, known, tail, done, st.pos);
      var line := lines[0];
      var next := LineIsHeld(i, st, known, done + [st.pos], line, Joined(lines[1..]) + tail);
      last := LinesAreHeld(i, next, known + line + "\n", done + [st.pos], lines[1..], tail);
    }
  }

  lemma MultilineOpens(i: Input, st: State, rest: string)
    requires st.pos == 0 && i.text == QUOTES + "\n" + rest
    ensures QuoteStep(i, st) == AtLineStart(OpenString(st, Multiline, 0, 4), 4)
  {
    hide OpenString, AtLineStart;
    assert i.text[0..3] == QUOTES && i.text[3] == '\n';
    assert RunEnd(i.text, 3, NotNewline) == 3;
  }

  lemma OpensMultiline(i: Input, rest: string)
    requires i.text == QUOTES + "\n" + rest
    ensures Step(i, Begin(i)).pos == 4 && InBody(Step(i, Begin(i)), "", [4])
    ensures Scan(i, Begin(i)) == Scan(i, Step(i, Begin(i)))
  {
    hide Step, QuoteStep, Toks, OpenString;
    var begin := Begin(i);
    assert i.text[0] == '"';
    QuoteIsOpener(i, begin);
    MultilineOpens(i, begin, rest);
    OpensFirst(begin, Multiline, 0, 4);
    assert Scan(i, begin) == Scan(i, Step(i, begin));
  }

  // -- closing it ---------------------------------------------------------------------------------

  lemma {:induction false} TrimsMargin(s: string, margin: string)
    requires AllBlank(margin)
    ensures TrimBlanks(s + margin, |margin|) == s
    decreases |margin|
  {
    if margin == "" {
      assert s + margin == s;
    } else {
      var n := |margin| - 1;
      assert (s + margin)[..|s + margin| - 1] == s + margin[..n];
      assert IsBlank(margin[n]);
      TrimsMargin(s, margin[..n]);
    }
  }

  lemma {:induction false} LinesOfJoined(lines: seq<string>)
    requires forall k :: 0 <= k < |lines| ==> '\n' !in lines[k]
    ensures Lines(Joined(lines)) == lines + [""]
    decreases |lines|
  {
    if lines != [] {
      LinesOfJoined(lines[1..]);
      LineThenRest(lines[0], Joined(lines[1..]));
      assert lines[0] + "\n" + Joined(lines[1..]) == Joined(lines);
      assert [lines[0]] + (lines[1..] + [""]) == lines + [""];
    }
  }

  lemma {:induction false} LineThenRest(line: string, rest: string)
    requires '\n' !in line
    ensures Lines(line + "\n" + rest) == [line] + Lines(rest)
    decreases |line|
  {
    var s := line + "\n" + rest;
    if line == "" {
      assert s[1..] == rest;
    } else {
      assert s[1..] == line[1..] + "\n" + rest;
      LineThenRest(line[1..], rest);
      assert [line[0]] + line[1..] == line;
    }
  }

  lemma {:induction false} UnindentsLines(lines: seq<string>, column: nat)
    ensures Unindented(lines + [""], column, true) == StrippedText(lines, column)
    decreases |lines|
  {
    var all := lines + [""];
    if lines == [] {
      assert all == [""];
    } else {
      assert all[1..] == lines[1..] + [""];
      UnindentsLines(lines[1..], column);
    }
  }

  lemma JoinedIsStripped(lines: seq<string>, column: nat)
    requires PlainLines(lines)
    ensures DedentChunk(Joined(lines), column, true).0 == StrippedText(lines, column)
  {
    forall k | 0 <= k < |lines| ensures '\n' !in lines[k] {
      assert PlainLine(lines[k]);
    }
    LinesOfJoined(lines);
    DedentIsLineByLine(Joined(lines), column, true);
    UnindentsLines(lines, column);
  }

  lemma {:induction false} RunShifts(text: string, at: nat, line: string, k: nat)
    requires at + |line| < |text| && text[at..at + |line|] == line && !IsBlank(text[at + |line|]) && k <= |line|
    ensures RunEnd(text, at + k, IsBlank) == at + RunEnd(line, k, IsBlank)
    decreases |line| - k
  {
    if k < |line| {
      assert text[at + k] == line[k];
      RunShifts(text, at, line, k + 1);
    }
  }

  lemma {:induction false} RunCovers(line: string, margin: string, k: nat)
    requires AllBlank(margin) && margin <= line && k <= |margin|
    ensures RunEnd(line, k, IsBlank) >= |margin|
    decreases |margin| - k
  {
    if k < |margin| {
      assert line[k] == margin[k] && IsBlank(margin[k]);
      RunCovers(line, margin, k + 1);
    }
  }

  /** What the first judged line decides. */
  lemma LineIsJudged(text: string, at: nat, line: string, margin: string)
    requires at + |line| < |text| && text[at..at + |line|] == line && text[at + |line|] == '\n'
    requires AllBlank(margin) && '\n' !in line
    ensures var run := RunEnd(text, at, IsBlank);
            && run <= at + |line|
            && (BlankLine(line) <==> (text[run] == '\n' || text[run] == '\r'))
            && (margin <= line <==> (run - at >= |margin| && text[at..at + |margin|] == margin))
  {
    RunShifts(text, at, line, 0);
    var run := RunEnd(line, 0, IsBlank);
    assert text[at + run] == if run < |line| then line[run] else '\n';
    if run >= |margin| {
      assert text[at..at + |margin|] == line[..|margin|];
    }
    if margin <= line {
      RunCovers(line, margin, 0);
    }
  }

  lemma {:induction false} FaultMeansUnmargined(text: string, at: nat, lines: seq<string>, margin: string, tail: string)
    requires at <= |text| && text[at..] == Joined(lines) + tail && PlainLines(lines) && AllBlank(margin)
    ensures MarginFault(text, LineStarts(lines, at), margin, at + |Joined(lines)|).None? <==> Margined(lines, margin)
    decreases |lines|
  {
    hide BlankLine, PlainLine, Margined, MarginFault;
    var closing := at + |Joined(lines)|;
    if lines == [] {
      NoLinesNoFault(text, at, margin);
      assert LineStarts(lines, at) == [at] && closing == at && lines == [];
    } else {
      var line := lines[0];
      var next := at + |line| + 1;
      var rest := Joined(lines[1..]) + tail;
      assert text[at..] == line + "\n" + rest;
      SplitLine(text, at, line, rest);
      FaultMeansUnmargined(text, next, lines[1..], margin, tail);
      FirstLineDecides(text, at, line, LineStarts(lines, at), margin, closing);
      assert LineStarts(lines, at)[1..] == LineStarts(lines[1..], next);
      assert closing == next + |Joined(lines[1..])|;
      MarginedFirst(lines, margin);
    }
  }

  lemma NoLinesNoFault(text: string, at: nat, margin: string)
    ensures MarginFault(text, [at], margin, at).None? && Margined([], margin)
  {
  }

  lemma FirstLineDecides(text: string, at: nat, line: string, starts: seq<nat>, margin: string, closing: nat)
    requires at + |line| < |text| && text[at..at + |line|] == line && text[at + |line|] == '\n'
    requires AllBlank(margin) && PlainLine(line) && starts != [] && starts[0] == at && at < closing
    ensures MarginFault(text, starts, margin, closing).None?
       <==> (BlankLine(line) || margin <= line) && MarginFault(text, starts[1..], margin, closing).None?
  {
    hide BlankLine, AllBlank, PlainLine;
    PlainHasNoNewline(line);
    LineIsJudged(text, at, line, margin);
  }

  lemma PlainHasNoNewline(line: string)
    requires PlainLine(line)
    ensures '\n' !in line
  {
  }

  lemma MarginedFirst(lines: seq<string>, margin: string)
    requires lines != []
    ensures Margined(lines, margin) <==> (BlankLine(lines[0]) || margin <= lines[0]) && Margined(lines[1..], margin)
  {
    hide BlankLine;
    assert lines == [lines[0]] + lines[1..];
    if Margined(lines, margin) {
      forall k | 0 <= k < |lines| - 1 ensures BlankLine(lines[1..][k]) || margin <= lines[1..][k] {
        var next := k + 1;
        assert lines[1..][k] == lines[next];
      }
    }
  }

  lemma ClosingLine(text: string, at: nat, end: nat)
    requires 0 < at <= end <= |text| && text[at - 1] == '\n' && AllBlank(text[at..end])
    ensures LineStart(text, end) == at
  {
    forall k | at <= k < end ensures text[k] != '\n' {
      assert text[k] == text[at..end][k - at] && IsBlank(text[at..end][k - at]);
    }
  }

  /** `Dedented` spelt out for a body without interpolations that began at a line start. */
  lemma DedentedPlainly(i: Input, st: State, body: Body, margin: string)
    requires st.pos < |i.text| && margin == i.text[LineStart(i.text, st.pos)..st.pos] && AllBlank(margin)
    requires body.pieces == [] && body.lineStarts != [] && body.lineStarts[0] == body.start
    ensures var d := Dedented(i, st, body);
            var fault := MarginFault(i.text, body.lineStarts, margin, LineStart(i.text, st.pos));
            && d.0 == (if margin != "" && fault.Some? then st.(errors := st.errors + [fault.value]) else st)
            && d.1 == body.(pending := if margin == "" then body.pending
                                       else DedentChunk(TrimBlanks(body.pending, |margin|), |margin|, true).0)
  {
    hide DedentChunk, MarginFault, TrimBlanks, LineStart, AllBlank;
  }

  lemma DedentsBody(i: Input, st: State, lines: seq<string>, margin: string)
    requires PlainLines(lines) && AllBlank(margin)
    requires i.text == QUOTES + "\n" + Joined(lines) + margin + QUOTES
    requires st.pos == |i.text| - 3 && InBody(st, Joined(lines) + margin, LineStarts(lines, 4))
    ensures var d := Dedented(i, st, st.ctx[0].body);
            && d.1.pending == StrippedText(lines, |margin|) && d.1.kind.Multiline?
            && d.0.tokens == st.tokens && d.0.ctx == st.ctx && d.0.pos == st.pos
            && d.0.deferred == [] && d.0.attrClose == None
            && (d.0.errors == [] <==> Margined(lines, margin))
  {
    hide DedentChunk, MarginFault, TrimBlanks, LineStart, Margined, PlainLines, Toks, Dedented, Joined, StrippedText, AllBlank;
    var closing := 4 + |Joined(lines)|;
    assert i.text[4..] == Joined(lines) + (margin + QUOTES);
    assert i.text[closing..st.pos] == margin;
    JoinedEnds(lines);
    assert i.text[closing - 1] == '\n';
    ClosingLine(i.text, closing, st.pos);
    FaultMeansUnmargined(i.text, 4, lines, margin, margin + QUOTES);
    DedentedPlainly(i, st, st.ctx[0].body, margin);
    TrimsMargin(Joined(lines), margin);
    JoinedIsStripped(lines, |margin|);
    NothingStripped(lines);
    NoMargin(lines);
    assert margin == "" ==> Joined(lines) + margin == Joined(lines);
  }

  lemma NoMargin(lines: seq<string>)
    ensures Margined(lines, "")
  {
  }

  lemma JoinedEnds(lines: seq<string>)
    ensures Joined(lines) == "" || Joined(lines)[|Joined(lines)| - 1] == '\n'
  {
    if lines != [] {
      JoinedEnds(lines[1..]);
    }
  }

  lemma {:induction false} NothingStripped(lines: seq<string>)
    ensures StrippedText(lines, 0) == Joined(lines)
  {
    if lines != [] {
      NothingStripped(lines[1..]);
    }
  }

  lemma ClosesMultiline(i: Input, st: State, lines: seq<string>, margin: string)
    requires PlainLines(lines) && AllBlank(margin)
    requires i.text == QUOTES + "\n" + Joined(lines) + margin + QUOTES
    requires st.pos == |i.text| - 3 && InBody(st, Joined(lines) + margin, LineStarts(lines, 4))
    ensures var end := Scan(i, st);
            var text := StrippedText(lines, |margin|);
            && end.pos == |i.text| && end.ctx == [] && end.attrClose == None && end.deferred == []
            && Toks(end.tokens) == [StrStart(Multiline)] + (if text == "" then [] else [StrText(text)]) + [StrEnd]
            && (end.errors == [] <==> Margined(lines, margin))
  {
    hide Dedented, StrippedText, Margined, PlainLine;
    var body := st.ctx[0].body;
    DedentsBody(i, st, lines, margin);
    assert i.text[st.pos..] == QUOTES;
    assert StartsAt(i.text, st.pos, QUOTES);
    var next := CloseString(i, st, body);
    assert Step(i, st) == BodyStep(i, st, body) == next;
    assert Scan(i, st) == next;
  }

  lemma FinishesMultiline(i: Input, st: State, text: string)
    requires st.pos == |i.text| && st.ctx == [] && st.attrClose == None && st.deferred == []
    requires Toks(st.tokens) == [StrStart(Multiline)] + (if text == "" then [] else [StrText(text)]) + [StrEnd]
    ensures Toks(Closed(i, st).tokens) == Alone(Multiline, text) && Closed(i, st).errors == st.errors
  {
    var n := |st.tokens|;
    assert st.tokens[n - 1].tok == Toks(st.tokens)[n - 1] == StrEnd;
    assert Toks(Closed(i, st).tokens) == Toks(st.tokens) + [IMPLICIT];
  }

  /** A multiline literal whose lines spell themselves: the text is its lines, each without the
    blanks under the closing delimiter's indentation, and nothing is reported exactly when
    every line that is not blank begins with that indentation, character for character. */
  lemma MultilineLosesItsMargin(lines: seq<string>, margin: string, u: Unicode)
    requires PlainLines(lines) && AllBlank(margin)
    ensures var lexed := Lex(Input(QUOTES + "\n" + Joined(lines) + margin + QUOTES, u));
            && Toks(lexed.tokens) == Alone(Multiline, StrippedText(lines, |margin|))
            && (lexed.errors == [] <==> Margined(lines, margin))
  {
    hide Step, Closed, InBody, Joined, StrippedText, Margined, PlainLines, AllBlank, Ordinary;
    var rest := Joined(lines) + margin + QUOTES;
    var i := Input(QUOTES + "\n" + Joined(lines) + margin + QUOTES, u);
    assert i.text == QUOTES + "\n" + rest;
    OpensMultiline(i, rest);
    var open := Step(i, Begin(i));
    assert i.text[4..] == Joined(lines) + (margin + QUOTES);
    assert [] + [open.pos] == [4];
    var read := LinesAreHeld(i, open, "", [], lines, margin + QUOTES);
    assert "" + Joined(lines) == Joined(lines) && [] + LineStarts(lines, 4) == LineStarts(lines, 4);
    var end := |i.text| - 3;
    MarginIsOrdinary(i.text, read.pos, margin);
    var last := RunIsHeld(i, read, Joined(lines), LineStarts(lines, 4), end);
    assert i.text[read.pos..end] == margin;
    ClosesMultiline(i, last, lines, margin);
    FinishesMultiline(i, Scan(i, last), StrippedText(lines, |margin|));
  }

  lemma MarginIsOrdinary(text: string, at: nat, margin: string)
    requires AllBlank(margin) && at + |margin| <= |text| && text[at..at + |margin|] == margin
    ensures forall k :: at <= k < at + |margin| ==> Ordinary(text, k)
  {
    forall k | at <= k < at + |margin| ensures Ordinary(text, k) {
      assert text[k] == margin[k - at] && IsBlank(margin[k - at]);
      QuotesAt(text, k);
    }
  }

  /** When nothing is reported, a line that is not blank loses exactly the margin. */
  lemma {:induction false} MarginIsWhatGoes(line: string, margin: string)
    requires AllBlank(margin) && margin <= line
    ensures Blanks(line, |margin|) == |margin|
    decreases |margin|
  {
    if margin != "" {
      assert line[0] == margin[0] && IsBlank(margin[0]);
      assert margin[1..] <= line[1..];
      MarginIsWhatGoes(line[1..], margin[1..]);
    }
  }
}
