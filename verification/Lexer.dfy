/** The lexer itself: one object whose mutually nested loops share a cursor, a token list and
  one stack of contexts.  Its methods are proved to take the steps of `LexModel`, so `Run`
  ends in the very state the theorems of the `Lex*` modules speak about. */
module LexerClass {
  import opened Wrappers
  import opened LexModel
  import opened LexLiterals

  // -- loops over text ----------------------------------------------------------------------

  method FindEnd(text: string, from: nat, p: char -> bool) returns (end: nat)
    requires from <= |text|
    ensures end == RunEnd(text, from, p)
  {
    end := from;
    while end < |text| && p(text[end])
      invariant from <= end <= |text| && RunEnd(text, end, p) == RunEnd(text, from, p)
    {
      end := end + 1;
    }
  }

  method LookForElse(i: Input, from: nat) returns (found: bool)
    requires from <= |i.text|
    ensures found == ElseFollows(i, from)
  {
    var at := from;
    while at < |i.text|
      invariant at <= |i.text| && SkipTrivia(i.text, at) == SkipTrivia(i.text, from)
      decreases |i.text| - at
    {
      if IsInline(i.text[at]) || i.text[at] == '\n' {
        at := at + 1;
      } else if StartsAt(i.text, at, "//") {
        at := FindEnd(i.text, at + 2, NotNewline);
      } else {
        break;
      }
    }
    found := ElseAt(i, at);
  }

  lemma DropDrop(s: string, a: nat, b: nat)
    requires a + b <= |s|
    ensures s[a..][b..] == s[a + b..]
  {
  }

  lemma AdvancesMeans(i: Input, st: State, next: State)
    ensures Advances(i, st, next) ==> next.pos <= |i.text|
  {
  }

  /** How many blanks, at most `column`, stand at `from`. */
  method CountBlanks(s: string, from: nat, column: nat) returns (taken: nat)
    requires from <= |s|
    ensures taken == Blanks(s[from..], column) && from + taken <= |s|
  {
    taken := 0;
    while taken < column && from + taken < |s| && IsBlank(s[from + taken])
      invariant taken <= column && from + taken <= |s|
      invariant Blanks(s[from..], column) == taken + Blanks(s[from + taken..], column - taken)
    {
      DropDrop(s, from + taken, 1);
      taken := taken + 1;
    }
  }

  /** One turn of the dedent's loop: `taken` blanks go and what is left is copied. */
  lemma OneTurn(out: string, s: string, at: nat, column: nat, ends: bool, taken: nat)
    requires at < |s| && at + taken <= |s|
    requires taken == if ends && s[at] != '\n' then Blanks(s[at..], column) else 0
    ensures at + taken == |s| ==> DedentChunk(s[at..], column, ends) == ("", false)
    ensures at + taken < |s| ==>
              var c := s[at + taken];
              var rest := DedentChunk(s[at + taken + 1..], column, c == '\n');
              out + DedentChunk(s[at..], column, ends).0 == out + [c] + rest.0
              && DedentChunk(s[at..], column, ends).1 == rest.1
  {
    hide DedentChunk, Blanks;
    var chunk := s[at..];
    ChunkUnfolds(chunk, column, ends);
    var kept := chunk[taken..];
    DropDrop(s, at, taken);
    assert chunk[0] == s[at] && chunk[0..] == chunk;
    if at + taken < |s| {
      DropDrop(s, at + taken, 1);
      assert kept[0] == s[at + taken];
    }
  }

  /** The loop has written `out` and has `s[at..]` to go. */
  ghost predicate Midway(s: string, column: nat, start: bool, at: nat, out: string, ends: bool)
    requires at <= |s|
  {
    var whole, rest := DedentChunk(s, column, start), DedentChunk(s[at..], column, ends);
    whole.0 == out + rest.0 && whole.1 == rest.1
  }

  lemma MidwayBegins(s: string, column: nat, start: bool)
    ensures Midway(s, column, start, 0, "", start)
  {
    hide DedentChunk;
    assert s[0..] == s;
  }

  lemma MidwayTurns(s: string, column: nat, start: bool, at: nat, out: string, ends: bool, taken: nat)
    requires at < |s| && Midway(s, column, start, at, out, ends) && at + taken <= |s|
    requires taken == if ends && s[at] != '\n' then Blanks(s[at..], column) else 0
    ensures at + taken == |s| ==> Midway(s, column, start, at + taken, out, false)
    ensures at + taken < |s| ==>
              Midway(s, column, start, at + taken + 1, out + [s[at + taken]], s[at + taken] == '\n')
  {
    hide DedentChunk, Blanks;
    OneTurn(out, s, at, column, ends, taken);
    if at + taken == |s| {
      assert s[at + taken..] == "";
      NothingToStrip(column, false);
    }
  }

  lemma MidwayEnds(s: string, column: nat, start: bool, out: string, ends: bool)
    requires Midway(s, column, start, |s|, out, ends)
    ensures DedentChunk(s, column, start) == (out, ends)
  {
    hide DedentChunk;
    assert s[|s|..] == "" && out + "" == out;
    NothingToStrip(column, ends);
  }

  method DedentText(s: string, column: nat, atLineStart: bool) returns (out: string, ends: bool)
    ensures (out, ends) == DedentChunk(s, column, atLineStart)
  {
    hide DedentChunk, Blanks, Midway;
    var at := 0;
    out, ends := "", atLineStart;
    MidwayBegins(s, column, atLineStart);
    while at < |s|
      invariant at <= |s| && Midway(s, column, atLineStart, at, out, ends)
    {
      var taken := 0;
      if ends && s[at] != '\n' {
        taken := CountBlanks(s, at, column);
      }
      MidwayTurns(s, column, atLineStart, at, out, ends, taken);
      at := at + taken;
      if at < |s| {
        out, ends, at := out + [s[at]], s[at] == '\n', at + 1;
      } else {
        ends := false;
      }
    }
    MidwayEnds(s, column, atLineStart, out, ends);
  }

  // -- one escape -----------------------------------------------------------------------------

  method ReadHex(digits: string) returns (value: nat)
    requires forall k :: 0 <= k < |digits| ==> IsHex(digits[k])
    ensures value == HexValue(digits)
  {
    value := 0;
    var k := 0;
    while k < |digits|
      invariant k <= |digits| && value == HexValue(digits[..k])
    {
      assert digits[..k + 1][..k] == digits[..k];
      assert IsHex(digits[k]);
      value := value * 16 + HexDigit(digits[k]).value;
      k := k + 1;
    }
    assert digits[..k] == digits;
  }

  method ReadUnicodeEscape(text: string, at: nat) returns (e: Escape)
    requires at <= |text|
    ensures e == UnicodeEscape(text, at)
  {
    if !Sees(text, at, '{') {
      return Escape(at, Err(Malformed));
    }
    var end := FindEnd(text, at + 1, IsHex);
    var digits := text[at + 1..end];
    if !Sees(text, end, '}') {
      return Escape(end, Err(Malformed));
    }
    if |digits| == 0 || |digits| > 6 {
      return Escape(end + 1, Err(DigitCount));
    }
    var value := ReadHex(digits);
    e := Escape(end + 1, if IsScalar(value) then Ok(value as char) else Err(Malformed));
  }

  method ReadEscape(text: string, at: nat, literal: bool) returns (e: Escape)
    requires at < |text|
    ensures e == EscapeAt(text, at, literal)
  {
    if text[at] == 'u' {
      e := ReadUnicodeEscape(text, at + 1);
    } else {
      e := EscapeAt(text, at, literal);
    }
  }

  class Lexer {
    const input: Input

    var pos: nat
    var tokens: seq<Token>
    var ctx: seq<Frame>
    var errors: seq<Diag>
    var deferred: seq<Diag>
    var deepest: nat
    var depthReported: bool
    var attrClose: Option<nat>
    var openAtEof: bool

    ghost function View(): State
      reads this
    {
      State(pos, tokens, ctx, errors, deferred, deepest, depthReported, attrClose, openAtEof)
    }

    ghost predicate Valid()
      reads this
    {
      pos <= |input.text|
    }

    constructor (input: Input)
      ensures this.input == input && Valid() && View() == Begin(input).(pos := 0)
    {
      this.input := input;
      pos, tokens, ctx, errors, deferred := 0, [], [], [], [];
      deepest, depthReported, attrClose, openAtEof := 0, false, None, false;
    }

    /** Lexes the whole input. */
    method Run()
      requires Valid() && View() == Begin(input).(pos := 0)
      modifies this
      ensures View() == Lex(input)
    {
      SkipPreamble();
      var more := true;
      while more
        invariant Valid() && Scan(input, View()) == Scan(input, Begin(input)) && (more || pos == |input.text|)
        decreases more, |input.text| - pos, |ctx|
      {
        match Top(ctx) {
          case Some(Str(_)) => more := ScanStringBody();
          case Some(Fmt) => more := ScanFormatSpec();
          case _ => more := ScanNormal();
        }
      }
      CloseUnterminated();
      InsertTerminatorAtEof();
    }

    method SkipPreamble()
      requires pos == 0
      modifies this
      ensures Valid() && View() == old(View()).(pos := FirstOffset(input))
    {
      if Sees(input.text, 0, BYTE_ORDER_MARK) {
        pos := 1;
      } else if StartsAt(input.text, 0, "#!") && !StartsAt(input.text, 0, "#![") {
        pos := FindEnd(input.text, 0, NotNewline);
      }
    }

    method PushToken(tok: Tok, start: nat, end: nat)
      modifies this
      ensures View() == Push(old(View()), tok, start, end)
    {
      tokens := tokens + [Token(tok, Span(start, end))];
    }

    method Report(code: string, start: nat, end: nat)
      modifies this
      ensures View() == Fault(old(View()), code, start, end)
    {
      errors := errors + [Diag(code, Span(start, end))];
    }

    // -- terminators ---------------------------------------------------------------------------

    method AddTerminator(at: nat)
      requires at < |input.text|
      modifies this
      ensures View() == InsertTerminator(input, old(View()), at)
    {
      if !Permits(Innermost(ctx)) || tokens == [] || !EndsStatement(tokens[|tokens| - 1].tok) {
        return;
      }
      if attrClose == Some(|tokens| - 1) {
        return;
      }
      var continued := LookForElse(input, at + 1);
      if !continued {
        PushToken(Term(false), at, at);
      }
    }

    method InsertTerminatorAtEof()
      modifies this
      ensures View() == Terminated(input, old(View()))
    {
      if !Permits(Innermost(ctx)) || attrClose == Some(Less(|tokens|, 1)) {
        return;
      }
      if tokens != [] && EndsStatement(tokens[|tokens| - 1].tok) {
        PushToken(Term(false), |input.text|, |input.text|);
      }
    }

    method UnwindPlainString()
      modifies this
      ensures View() == Unwind(old(View()))
    {
      while ctx != []
        invariant Unwind(View()) == Unwind(old(View()))
        decreases |ctx|
      {
        var top := Top(ctx).value;
        ctx := Pop(ctx);
        match top {
          case Str(_) =>
            PushToken(StrEnd, pos, pos);
            return;
          case Interp => PushToken(InterpEnd, pos, pos);
          case Fmt => PushToken(InterpEnd, pos, pos);
          case _ =>
        }
      }
    }

    // -- token mode ------------------------------------------------------------------------------

    /** Scans trivia and one token; false at the end of the input. */
    method ScanNormal() returns (more: bool)
      requires Valid() && InCode(ctx)
      modifies this
      ensures Valid() && Scan(input, View()) == Scan(input, old(View()))
      ensures if more then Advances(input, old(View()), View()) else pos == |input.text|
    {
      hide NormalStep, InCode;
      while pos < |input.text|
        invariant Valid() && Scan(input, View()) == Scan(input, old(View()))
        invariant View() == old(View()) || Advances(input, old(View()), View())
        invariant InCode(ctx) || Advances(input, old(View()), View())
        decreases |input.text| - pos, |ctx|
      {
        if !InCode(ctx) {
          return true;
        }
        CodeSteps(input, View());
        StepAdvances(input, View());
        var token := ScanOne();
        if token {
          return true;
        }
      }
      more := false;
    }

    static predicate InCode(ctx: seq<Frame>) {
      Top(ctx).None? || !(Top(ctx).value.Str? || Top(ctx).value.Fmt?)
    }

    static lemma CodeSteps(i: Input, st: State)
      requires InCode(st.ctx) && st.pos < |i.text|
      ensures Step(i, st) == NormalStep(i, st)
    {
    }

    /** One piece of trivia, or one token. */
    method ScanOne() returns (token: bool)
      requires Valid() && pos < |input.text|
      modifies this
      ensures View() == NormalStep(input, old(View()))
    {
      hide TokenStep, Unwind, InsertTerminator, OpenPlain, IsInline;
      var c := input.text[pos];
      token := false;
      if c == '\n' {
        match OpenPlain(ctx, pos) {
          case Some(span) =>
            Report("E0102", span.start, span.end);
            UnwindPlainString();
          case None =>
            pos := pos + 1;
            AddTerminator(pos - 1);
        }
      } else if IsInline(c) {
        pos := pos + 1;
      } else if StartsAt(input.text, pos, "//") {
        pos := FindEnd(input.text, pos + 2, NotNewline);
      } else {
        ScanToken();
        token := true;
      }
    }

    method ScanToken()
      requires Valid() && pos < |input.text|
      modifies this
      ensures View() == TokenStep(input, old(View()))
    {
      hide WordStep, NumberStep, QuoteStep, CharStep, SingleStep, IsXidStart, LongestOperator, StartsAt, Emit, Enter;
      var c := input.text[pos];
      if IsXidStart(input, c) || c == '_' {
        ScanWord();
      } else if IsDigit(c) {
        ScanNumber();
      } else if c == '"' {
        OpenQuote();
      } else if c == '\'' {
        ScanCharLiteral();
      } else if StartsAt(input.text, pos, "#![") {
        OpenAttribute(HashBangBracket, 3);
      } else if StartsAt(input.text, pos, "#[") {
        OpenAttribute(HashBracket, 2);
      } else {
        match LongestOperator(input.text, pos, OPERATORS) {
          case Some(op) => Advance(Op(op), |op|);
          case None => ScanSingle();
        }
      }
    }

    method Advance(tok: Tok, length: nat)
      modifies this
      ensures View() == Emit(old(View()), tok, old(pos), old(pos) + length)
    {
      pos := pos + length;
      PushToken(tok, pos - length, pos);
    }

    /** Enters a frame that tells attributes from other brackets. */
    method OpenAttribute(tok: Tok, length: nat)
      modifies this
      ensures View() == Emit(Enter(old(View()), AttrBracket), tok, old(pos), old(pos) + length)
    {
      ctx := ctx + [AttrBracket];
      Advance(tok, length);
    }

    method ScanSingle()
      requires Valid() && pos < |input.text|
      modifies this
      ensures View() == SingleStep(input, old(View()))
    {
      hide CloseBracket, CloseBrace, IsSingle, StrayEnd;
      var c := input.text[pos];
      var start := pos;
      if c == ']' {
        LeaveBracket();
        return;
      }
      if c == '}' {
        LeaveBrace();
        return;
      }
      pos := pos + 1;
      var tok := Error;
      if c == '(' {
        ctx, tok := ctx + [Paren], LParen;
      } else if c == '[' {
        ctx, tok := ctx + [Bracket], LBracket;
      } else if c == '{' {
        ctx, tok := ctx + [Brace], LBrace;
      } else if c == ')' {
        LeaveDelimiter(Paren);
        tok := RParen;
      } else if c == ':' {
        if Top(ctx) == Some(Interp) {
          ctx, tok := Pop(ctx) + [Fmt], FmtStart;
        } else {
          tok := Op(":");
        }
      } else if c == ';' {
        tok := Term(true);
      } else if IsSingle(c) {
        tok := Op([c]);
      } else if c == BYTE_ORDER_MARK {
        Report("E0107", start, pos);
      } else {
        ScanStray();
        Report("E0107", start, pos);
      }
      PushToken(tok, start, pos);
    }

    /** Takes in the rest of a run of characters that begin no token. */
    method ScanStray()
      requires Valid()
      modifies this
      ensures Valid() && View() == old(View()).(pos := StrayEnd(input, old(pos)))
    {
      while pos < |input.text| && BeginsNoToken(input, pos)
        invariant Valid() && StrayEnd(input, pos) == StrayEnd(input, old(pos)) && View() == old(View()).(pos := pos)
      {
        pos := pos + 1;
      }
    }

    method LeaveDelimiter(expected: Frame)
      modifies this
      ensures View() == PopDelimiter(old(View()), expected).(pos := pos) && pos == old(pos)
    {
      if Closes(Top(ctx), expected) {
        ctx := Pop(ctx);
      }
    }

    method LeaveBracket()
      modifies this
      ensures View() == CloseBracket(old(View()))
    {
      var wasAttribute := Top(ctx) == Some(AttrBracket);
      LeaveDelimiter(Bracket);
      pos := pos + 1;
      PushToken(RBracket, pos - 1, pos);
      if wasAttribute {
        attrClose := Some(|tokens| - 1);
      }
    }

    method LeaveBrace()
      modifies this
      ensures View() == CloseBrace(old(View()))
    {
      if Top(ctx) == Some(Interp) || Top(ctx) == Some(Fmt) {
        ctx, pos := Pop(ctx), pos + 1;
        PushToken(InterpEnd, pos - 1, pos);
      } else {
        LeaveDelimiter(Brace);
        pos := pos + 1;
        PushToken(RBrace, pos - 1, pos);
      }
    }

    method ScanWord()
      requires Valid() && pos < |input.text| && (IsXidStart(input, input.text[pos]) || input.text[pos] == '_')
      modifies this
      ensures View() == WordStep(input, old(View()))
    {
      hide IsKeyword, OpenString, IsXidStart, IsXidContinue;
      var start := pos;
      pos := FindEnd(input.text, pos, Continues(input));
      var word := input.text[start..pos];
      if word == "r" && (Sees(input.text, pos, '"') || Sees(input.text, pos, '#')) {
        OpenRaw(start);
      } else if Sees(input.text, pos, '"') && !IsKeyword(word) && word != "_" {
        pos := pos + 1;
        OpenIgnoresPos(old(View()), pos, Generalized(word), start, pos);
        Open(Generalized(word), start);
      } else {
        PushToken(WordTok(word), start, pos);
      }
    }

    method ScanNumber()
      requires Valid() && DigitAt(input.text, pos)
      modifies this
      ensures View() == NumberStep(input, old(View()))
    {
      hide WellBased, RunEnd, FractionEnd, ExponentEnd;
      var start := pos;
      if HasPrefix(input.text, pos) {
        pos := FindEnd(input.text, pos + 2, IsBased);
        var spelling := input.text[start..pos];
        if !WellBased(input.text[start + 2..pos], Radix(input.text[start + 1]).value) {
          Report("E0106", start, pos);
        }
        PushToken(Int(spelling), start, pos);
        return;
      }
      pos := FindEnd(input.text, pos, IsDecimal);
      var fraction := EatFraction();
      var exponent := EatExponent();
      var spelling := input.text[start..pos];
      PushToken(if fraction || exponent then Float(spelling) else Int(spelling), start, pos);
    }

    /** A point joins the number only when a digit follows it. */
    method EatFraction() returns (found: bool)
      requires Valid()
      modifies this
      ensures View() == old(View()).(pos := FractionEnd(input.text, old(pos))) && found == (pos > old(pos))
    {
      found := Sees(input.text, pos, '.') && DigitAt(input.text, pos + 1);
      if found {
        assert IsDecimal(input.text[pos + 1]);
        pos := FindEnd(input.text, pos + 1, IsDecimal);
      }
    }

    method EatExponent() returns (found: bool)
      requires Valid()
      modifies this
      ensures View() == old(View()).(pos := ExponentEnd(input.text, old(pos))) && found == (pos > old(pos))
    {
      found := false;
      if Sees(input.text, pos, 'e') || Sees(input.text, pos, 'E') {
        var digits := if Sees(input.text, pos + 1, '+') || Sees(input.text, pos + 1, '-') then pos + 2 else pos + 1;
        if DigitAt(input.text, digits) {
          pos := FindEnd(input.text, digits, IsDecimal);
          found := true;
        }
      }
    }

    method ScanCharLiteral()
      requires Valid() && Sees(input.text, pos, '\'')
      modifies this
      ensures View() == CharStep(input, old(View()))
    {
      hide EscapeAt, AfterEscape, Seen, Spoiled, CharVerdict;
      var start := pos;
      var at := pos + 1;
      var g := Glyphs(0, None, None);
      ghost var whole := CharBody(input.text, at, g);
      while at < |input.text| && input.text[at] != '\n' && input.text[at] != '\''
        invariant start < at <= |input.text| && CharBody(input.text, at, g) == whole && View() == old(View())
        decreases |input.text| - at
      {
        var c := input.text[at];
        if c != '\\' {
          g, at := Seen(g, c), at + 1;
        } else if at + 1 == |input.text| {
          g, at := Spoiled(g, Malformed, Span(at, at + 1)), at + 1;
        } else {
          var e := ReadEscape(input.text, at + 1, true);
          g, at := AfterEscape(g, at, e), e.end;
        }
      }
      if at == |input.text| || input.text[at] == '\n' {
        assert whole == (at, None);
        Report("E0110", start, at);
        pos := at;
        PushToken(Error, start, at);
      } else {
        assert whole == (at + 1, Some(g));
        JudgeChar(g, at + 1);
      }
    }

    method JudgeChar(g: Glyphs, end: nat)
      modifies this
      ensures View() == CharVerdict(old(View()), g, end)
    {
      var start := pos;
      pos := end;
      match g.bad {
        case Some((DigitCount, span)) => Report("E0101", span.start, span.end);
        case Some((Malformed, _)) => Report("E0110", start, end);
        case None =>
          if g.count == 1 && g.first.Some? {
            PushToken(Char(g.first.value), start, end);
            return;
          }
          Report("E0110", start, end);
      }
      PushToken(Error, start, end);
    }

    // -- opening strings ----------------------------------------------------------------------------

    /** The cursor stands at the start of the body. */
    method Open(kind: StrKind, start: nat)
      modifies this
      ensures View() == OpenString(old(View()), kind, start, pos) && pos == old(pos)
    {
      hide StringDepth;
      PushToken(StrStart(kind), start, pos);
      ctx := ctx + [Str(Body(kind, pos, "", pos, [], []))];
      var depth := StringDepth(ctx);
      if deepest < depth {
        deepest := depth;
      }
      var span := tokens[|tokens| - 1].span;
      if depth > NESTING_FRIENDLY_LIMIT && depth <= NESTING_HARD_RAIL && !depthReported {
        depthReported := true;
        deferred := deferred + [Diag("E0007", span)];
      }
      if depth > NESTING_HARD_RAIL {
        Report("E0108", span.start, span.end);
      }
    }

    method OpenQuote()
      requires Valid() && Sees(input.text, pos, '"')
      modifies this
      ensures View() == QuoteStep(input, old(View()))
    {
      hide OpenString, MultilineStep;
      if StartsAt(input.text, pos, "\"\"\"") {
        OpenMultiline();
      } else {
        var start := pos;
        pos := pos + 1;
        OpenIgnoresPos(old(View()), pos, StrKind.Plain, start, pos);
        Open(StrKind.Plain, start);
      }
    }

    method OpenMultiline()
      requires Valid() && StartsAt(input.text, pos, "\"\"\"")
      modifies this
      ensures View() == MultilineStep(input, old(View()))
    {
      hide OpenString, AllWhite, RunEnd, AtLineStart, StartsAt;
      var start := pos;
      MarksFit(input.text, start, "\"\"\"");
      pos := pos + 3;
      var eol := FindEnd(input.text, pos, NotNewline);
      if !AllWhite(input, pos, eol) {
        Report("E0103", pos, eol);
      }
      ghost var judged := View().(pos := start);
      var newline := if Sees(input.text, pos, '\r') then pos + 1 else pos;
      if Sees(input.text, newline, '\n') {
        pos := newline + 1;
        OpenIgnoresPos(judged, pos, Multiline, start, pos);
        Open(Multiline, start);
        NoteLineStart();
      } else {
        OpenIgnoresPos(judged, pos, Multiline, start, pos);
        Open(Multiline, start);
      }
    }

    static lemma MarksFit(text: string, at: nat, word: string)
      requires StartsAt(text, at, word)
      ensures at + |word| <= |text|
    {
    }

    method NoteLineStart()
      modifies this
      ensures View() == AtLineStart(old(View()), old(pos))
      ensures old(ctx) != [] && old(Top(ctx).value.Str?) ==> ctx != [] && Top(ctx).value.Str?
    {
      if ctx != [] && Top(ctx).value.Str? {
        var body := Top(ctx).value.body;
        ctx := Pop(ctx) + [Str(body.(lineStarts := body.lineStarts + [pos]))];
      }
    }

    /** After the word `r` that began at `start`. */
    method OpenRaw(start: nat)
      requires Valid() && start < pos
      modifies this
      ensures View() == RawStep(input, old(View()).(pos := start), old(pos))
    {
      hide OpenString;
      var fence := pos;
      pos := FindEnd(input.text, pos, IsHash);
      if !Sees(input.text, pos, '"') {
        pos := start + 1;
        PushToken(Ident("r"), start, pos);
        return;
      }
      var hashes := pos - fence;
      pos := pos + 1;
      OpenIgnoresPos(old(View()).(pos := start), pos, Raw(hashes), start, pos);
      Open(Raw(hashes), start);
    }

    // -- string bodies --------------------------------------------------------------------------------

    method SetBody(body: Body)
      requires ctx != []
      modifies this
      ensures View() == WithTop(old(View()), Str(body))
    {
      ctx := Pop(ctx) + [Str(body)];
    }

    method FlushText(body: Body)
      requires ctx != []
      modifies this
      ensures View() == Flush(old(View()), body)
    {
      if body.pending == "" {
        SetBody(body);
        return;
      }
      var pieces := if body.kind.Multiline? then body.pieces + [Text(|tokens|)] else body.pieces;
      SetBody(body.(pending := "", pieces := pieces));
      PushToken(StrText(body.pending), body.pendingStart, pos);
    }

    method HoldText(body: Body, c: char, end: nat)
      requires ctx != []
      modifies this
      ensures View() == Hold(old(View()), body, c, end)
      ensures pos == end && ctx != [] && Top(ctx).value.Str?
    {
      SetBody(Held(body, c, pos));
      pos := end;
    }

    /** Scans a string body; false at the end of the input. */
    method ScanStringBody() returns (more: bool)
      requires Valid() && Top(ctx).Some? && Top(ctx).value.Str?
      modifies this
      ensures Valid() && Scan(input, View()) == Scan(input, old(View()))
      ensures if more then Advances(input, old(View()), View()) else pos == |input.text|
    {
      hide BodyStep;
      while pos < |input.text|
        invariant Valid() && Scan(input, View()) == Scan(input, old(View()))
        invariant View() == old(View()) || Advances(input, old(View()), View())
        invariant ctx != [] && Top(ctx).value.Str?
        decreases |input.text| - pos, |ctx|
      {
        ghost var before := View();
        StepAdvances(input, before);
        var left := ScanBodyChar(Top(ctx).value.body);
        assert View() == Step(input, before);
        if left {
          return true;
        }
      }
      more := false;
    }

    /** One turn of the body's loop; true when it leaves the loop. */
    method ScanBodyChar(body: Body) returns (left: bool)
      requires Valid() && pos < |input.text| && Top(ctx) == Some(Str(body))
      modifies this
      ensures View() == BodyStep(input, old(View()), body)
      ensures !left ==> ctx != [] && Top(ctx).value.Str?
    {
      left := false;
      hide ClosesString, CloseString, Flush, StartsAt, Hold, AtLineStart, Interpolate, Abandon, EscapeStep;
      var c := input.text[pos];
      if ClosesString(input.text, pos, body.kind) {
        CloseBody(body);
        left := true;
      } else if body.kind.Generalized? && c == '\n' {
        Report("E0109", pos, pos + 1);
        AbandonString(body);
        left := true;
      } else if body.kind.Raw? || body.kind.Generalized? {
        HoldText(body, c, pos + 1);
      } else if StartsAt(input.text, pos, "{{") {
        HoldText(body, '{', pos + 2);
      } else if StartsAt(input.text, pos, "}}") {
        HoldText(body, '}', pos + 2);
      } else if c == '{' {
        OpenInterpolation(body);
        left := true;
      } else if c == '}' {
        Report("E0111", pos, pos + 1);
        SetBody(body);
        pos := pos + 1;
      } else if c == '\\' {
        ScanEscape(body);
      } else if c == '\n' && body.kind.Plain? {
        Report("E0102", Less(body.start, 1), pos);
        AbandonString(body);
        left := true;
      } else {
        HoldText(body, c, pos + 1);
        if c == '\n' {
          NoteLineStart();
        }
      }
    }

    method OpenInterpolation(body: Body)
      requires Valid() && pos < |input.text| && ctx != []
      modifies this
      ensures View() == Interpolate(old(View()), body)
    {
      FlushText(body);
      pos := pos + 1;
      PushToken(InterpStart, pos - 1, pos);
      if body.kind.Multiline? && Top(ctx).value.Str? {
        var now := Top(ctx).value.body;
        SetBody(now.(pieces := now.pieces + [Hole]));
      }
      ctx := ctx + [Interp];
    }

    method ScanEscape(body: Body)
      requires Valid() && pos < |input.text| && ctx != []
      modifies this
      ensures View() == EscapeStep(input, old(View()), body)
      ensures ctx != [] && Top(ctx).value.Str?
    {
      hide EscapeAt;
      if pos + 1 == |input.text| {
        Report("E0102", pos, pos + 1);
        SetBody(body);
        pos := pos + 1;
        return;
      }
      var e := ReadEscape(input.text, pos + 1, false);
      match e.value {
        case Ok(c) => HoldText(body, c, e.end);
        case Err(_) =>
          Report("E0101", pos, e.end);
          SetBody(body);
          pos := e.end;
      }
    }

    method AbandonString(body: Body)
      requires ctx != []
      modifies this
      ensures View() == Abandon(old(View()), body)
    {
      FlushText(body);
      PushToken(StrEnd, pos, pos);
      ctx := Pop(ctx);
    }

    method CloseBody(body: Body)
      requires Valid() && pos < |input.text| && ctx != []
      modifies this
      ensures View() == CloseString(input, old(View()), body)
    {
      hide Dedented, Flush;
      var last := body;
      if body.kind.Multiline? {
        last := ApplyDedent(body);
      }
      var start := pos;
      FlushText(last);
      pos := start + CloserLength(body.kind);
      PushToken(StrEnd, start, pos);
      ctx := Pop(ctx);
    }

    method ApplyDedent(body: Body) returns (last: Body)
      requires Valid() && pos < |input.text|
      modifies this
      ensures (View(), last) == Dedented(input, old(View()), body) && ctx == old(ctx) && pos == old(pos)
    {
      hide MarginFault, DedentPieces, DedentChunk, TrimBlanks;
      var line := LineStart(input.text, pos);
      var margin := input.text[line..pos];
      var column := |margin|;
      last := body;
      if !AllBlank(margin) {
        Report("E0103", pos, pos + 3);
        return;
      }
      var pending := TrimClosingLine(body.pending, column);
      if column == 0 {
        return;
      }
      var atLineStart := body.lineStarts != [] && body.lineStarts[0] == body.start;
      var fault := JudgeMargins(body.lineStarts, margin, line);
      if fault.Some? {
        errors := errors + [fault.value];
      }
      var ends := DedentTokens(body.pieces, column, atLineStart);
      var text, _ := DedentText(pending, column, ends);
      last := body.(pending := text);
    }

    /** Cuts the blanks before the closing quotes off the last text. */
    static method TrimClosingLine(pending: string, column: nat) returns (r: string)
      ensures r == TrimBlanks(pending, column)
    {
      r := pending;
      var left := column;
      while left > 0 && r != "" && IsBlank(r[|r| - 1])
        invariant TrimBlanks(r, left) == TrimBlanks(pending, column)
      {
        r := r[..|r| - 1];
        left := left - 1;
      }
    }

    /** The first content line whose margin is short or differs. */
    method JudgeMargins(starts: seq<nat>, margin: string, closing: nat) returns (r: Option<Diag>)
      ensures r == MarginFault(input.text, starts, margin, closing)
    {
      var k := 0;
      while k < |starts|
        invariant k <= |starts|
        invariant MarginFault(input.text, starts[k..], margin, closing) == MarginFault(input.text, starts, margin, closing)
      {
        var start := starts[k];
        assert starts[k..][1..] == starts[k + 1..];
        if start >= closing || start > |input.text| {
          return None;
        }
        var run := FindEnd(input.text, start, IsBlank);
        if run < |input.text| && input.text[run] != '\n' && input.text[run] != '\r' {
          if run - start < |margin| {
            return Some(Diag("E0104", Span(start, if run == start then start + 1 else run)));
          }
          if input.text[start..start + |margin|] != margin {
            return Some(Diag("E0105", Span(start, start + |margin|)));
          }
        }
        k := k + 1;
      }
      r := None;
    }

    /** Rewrites the literal's own text tokens in place. */
    method DedentTokens(pieces: seq<Piece>, column: nat, atLineStart: bool) returns (ends: bool)
      modifies this
      ensures var r := DedentPieces(old(tokens), pieces, column, atLineStart);
              View() == old(View()).(tokens := r.0) && ends == r.1
    {
      hide DedentChunk;
      var k := 0;
      ends := atLineStart;
      while k < |pieces|
        invariant k <= |pieces| && View() == old(View()).(tokens := tokens)
        invariant DedentPieces(tokens, pieces[k..], column, ends) == DedentPieces(old(tokens), pieces, column, atLineStart)
      {
        assert pieces[k..][1..] == pieces[k + 1..];
        match pieces[k] {
          case Hole => ends := false;
          case Text(index) =>
            if index < |tokens| && tokens[index].tok.StrText? {
              var text, at := DedentText(tokens[index].tok.text, column, ends);
              tokens := tokens[index := Token(StrText(text), tokens[index].span)];
              ends := at;
            }
        }
        k := k + 1;
      }
    }

    // -- format specs and the end of input ------------------------------------------------------------

    /** Scans a format spec up to its end or to an interpolation; false at the end of the input. */
    method ScanFormatSpec() returns (more: bool)
      requires Valid() && Top(ctx) == Some(Fmt)
      modifies this
      ensures Valid() && Scan(input, View()) == Scan(input, old(View()))
      ensures if more then Advances(input, old(View()), View()) else pos == |input.text|
    {
      hide FormatStep, Advances;
      if pos == |input.text| {
        return false;
      }
      ghost var before := View();
      StepAdvances(input, before);
      assert Step(input, before) == FormatStep(input, before);
      more := ScanFormatRun();
      AdvancesMeans(input, before, View());
    }

    method ScanFormatRun() returns (more: bool)
      requires Valid() && pos < |input.text|
      modifies this
      ensures View() == FormatStep(input, old(View())) && (!more ==> pos == |input.text|)
    {
      var start := pos;
      var end := FindEnd(input.text, pos, IsFormatText);
      if end > start {
        pos := end;
        PushToken(FmtText(input.text[start..end]), start, end);
      }
      if end == |input.text| {
        return false;
      }
      pos := end + 1;
      if input.text[end] == '}' {
        ctx := Pop(ctx);
        PushToken(InterpEnd, end, pos);
      } else {
        PushToken(InterpStart, end, pos);
        ctx := ctx + [Interp];
      }
      more := true;
    }

    method CloseUnterminated()
      modifies this
      ensures View() == Drain(input, old(View()).(openAtEof := old(ctx) != []))
    {
      openAtEof := ctx != [];
      ghost var start := View();
      var end := |input.text|;
      while ctx != []
        invariant Drain(input, View()) == Drain(input, start)
        decreases |ctx|
      {
        var top := Top(ctx).value;
        ctx := Pop(ctx);
        match top {
          case Str(body) =>
            Report("E0102", Less(body.start, 1), end);
            PushToken(StrEnd, end, end);
          case Interp =>
            Report("E0112", end, end);
            PushToken(InterpEnd, end, end);
          case Fmt =>
            Report("E0112", end, end);
            PushToken(InterpEnd, end, end);
          case _ =>
        }
      }
    }
  }
}
