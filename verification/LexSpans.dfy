/** Where tokens sit: inside the source, in order, never overlapping. */
module LexSpans {
  import opened Wrappers
  import opened LexModel
  import opened LexNesting

  /** The spans follow one another and end by `limit`. */
  predicate Laid(tokens: seq<Token>, limit: nat)
    decreases |tokens|
  {
    tokens == []
    || (var last := tokens[|tokens| - 1].span;
        last.start <= last.end <= limit && Laid(tokens[..|tokens| - 1], last.start))
  }

  predicate Silent(f: Frame) {
    f.Str? ==> f.body.pending == ""
  }

  /** No frame holds text back. */
  predicate Hushed(ctx: seq<Frame>) {
    forall k :: 0 <= k < |ctx| ==> Silent(ctx[k])
  }

  /** Text not yet a token begins here. */
  function Held(st: State): nat {
    match Top(st.ctx)
    case Some(Str(body)) => if body.pending != "" then body.pendingStart else st.pos
    case _ => st.pos
  }

  ghost predicate Placed(st: State) {
    Laid(st.tokens, Held(st)) && Held(st) <= st.pos && Hushed(Pop(st.ctx))
  }

  lemma LaidLater(tokens: seq<Token>, limit: nat, later: nat)
    requires Laid(tokens, limit) && limit <= later
    ensures Laid(tokens, later)
  {
  }

  lemma LaidMore(tokens: seq<Token>, limit: nat, t: Token, later: nat)
    requires Laid(tokens, limit) && limit <= t.span.start <= t.span.end <= later
    ensures Laid(tokens + [t], later)
  {
    assert (tokens + [t])[..|tokens|] == tokens;
    LaidLater(tokens, limit, t.span.start);
  }

  lemma {:induction false} LaidBySpans(a: seq<Token>, b: seq<Token>, limit: nat)
    requires Laid(a, limit) && |a| == |b| && forall k :: 0 <= k < |a| ==> a[k].span == b[k].span
    ensures Laid(b, limit)
    decreases |a|
  {
    if a != [] {
      LaidBySpans(a[..|a| - 1], b[..|b| - 1], a[|a| - 1].span.start);
    }
  }


  // -- token mode -------------------------------------------------------------------------

  /** In token mode nothing is held back. */
  predicate InTokens(st: State) {
    Top(st.ctx).None? || !Top(st.ctx).value.Str?
  }

  lemma TokensAreHushed(st: State)
    requires Placed(st) && InTokens(st)
    ensures Hushed(st.ctx) && Laid(st.tokens, st.pos)
  {
    forall k | 0 <= k < |st.ctx| ensures Silent(st.ctx[k]) {
      if k < |st.ctx| - 1 {
        assert Silent(Pop(st.ctx)[k]);
      }
    }
  }

  lemma HushedPop(ctx: seq<Frame>)
    requires Hushed(ctx)
    ensures Hushed(Pop(ctx))
  {
  }

  lemma HushedPlaced(st: State)
    requires Laid(st.tokens, st.pos) && Hushed(st.ctx)
    ensures Placed(st)
  {
    HushedPop(st.ctx);
    if st.ctx != [] {
      assert Silent(st.ctx[|st.ctx| - 1]);
    }
  }

  /** One token from the cursor on. */
  lemma EmitPlaced(st: State, next: State, t: Token)
    requires Placed(st) && InTokens(st) && Hushed(next.ctx)
    requires next.tokens == st.tokens + [t] && st.pos <= t.span.start <= t.span.end <= next.pos
    ensures Placed(next)
  {
    hide Hushed, Laid, Placed, InTokens;
    TokensAreHushed(st);
    LaidMore(st.tokens, st.pos, t, next.pos);
    HushedPlaced(next);
  }

  lemma OpenPlaced(st: State, kind: StrKind, start: nat, body: nat)
    requires Placed(st) && InTokens(st) && st.pos <= start <= body
    ensures Placed(OpenString(st, kind, start, body)) && Hushed(OpenString(st, kind, start, body).ctx)
  {
    hide Laid, StringDepth;
    var next := OpenString(st, kind, start, body);
    TokensAreHushed(st);
    assert next.ctx == st.ctx + [Str(Body(kind, body, "", body, [], []))];
    EmitPlaced(st, next, Token(StrStart(kind), Span(start, body)));
  }

  lemma WordPlaced(i: Input, st: State)
    requires Placed(st) && InTokens(st) && st.pos < |i.text|
    requires IsXidStart(i, i.text[st.pos]) || i.text[st.pos] == '_'
    ensures Placed(WordStep(i, st))
  {
    hide Placed, InTokens, OpenString, IsKeyword, WordTok, Hushed, Laid;
    var end := RunEnd(i.text, st.pos, Continues(i));
    var word := i.text[st.pos..end];
    var quote := RunEnd(i.text, end, IsHash);
    var next := WordStep(i, st);
    TokensAreHushed(st);
    if word == "r" && (Sees(i.text, end, '"') || Sees(i.text, end, '#')) {
      if Sees(i.text, quote, '"') {
        OpenPlaced(st, Raw(quote - end), st.pos, quote + 1);
      } else {
        EmitPlaced(st, next, Token(Ident("r"), Span(st.pos, st.pos + 1)));
      }
    } else if Sees(i.text, end, '"') && !IsKeyword(word) && word != "_" {
      OpenPlaced(st, Generalized(word), st.pos, end + 1);
    } else {
      EmitPlaced(st, next, Token(WordTok(word), Span(st.pos, end)));
    }
  }

  /** A step that leaves one token behind and the frames alone. */
  lemma PlainPlaced(st: State, next: State)
    requires Placed(st) && InTokens(st) && next.ctx == st.ctx && |next.tokens| == |st.tokens| + 1
    requires next.tokens[..|st.tokens|] == st.tokens
    requires next.tokens[|st.tokens|].span == Span(st.pos, next.pos) && st.pos <= next.pos
    ensures Placed(next)
  {
    hide Placed, InTokens, Hushed, Laid;
    TokensAreHushed(st);
    assert next.tokens == st.tokens + [next.tokens[|st.tokens|]];
    EmitPlaced(st, next, next.tokens[|st.tokens|]);
  }

  lemma NumberPlaced(i: Input, st: State)
    requires Placed(st) && InTokens(st) && DigitAt(i.text, st.pos)
    ensures Placed(NumberStep(i, st))
  {
    hide Placed, InTokens, WellBased;
    NumberAdvances(i, st);
    PlainPlaced(st, NumberStep(i, st));
  }

  lemma CharPlaced(i: Input, st: State)
    requires Placed(st) && InTokens(st) && Sees(i.text, st.pos, '\'')
    ensures Placed(CharStep(i, st))
  {
    hide Placed, InTokens, CharBody;
    PlainPlaced(st, CharStep(i, st));
  }

  lemma LineStartPlaced(st: State, at: nat)
    requires Placed(st)
    ensures Placed(AtLineStart(st, at))
  {
    var next := AtLineStart(st, at);
    assert Pop(next.ctx) == Pop(st.ctx);
  }

  lemma QuotePlaced(i: Input, st: State)
    requires Placed(st) && InTokens(st) && Sees(i.text, st.pos, '"')
    ensures Placed(QuoteStep(i, st))
  {
    hide Placed, InTokens, OpenString, AtLineStart, AllWhite, RunEnd;
    if StartsAt(i.text, st.pos, "\"\"\"") {
      var after := st.pos + 3;
      var eol := RunEnd(i.text, after, NotNewline);
      var judged := if AllWhite(i, after, eol) then st else Fault(st, "E0103", after, eol);
      FaultPlaced(st, "E0103", after, eol);
      var newline := if Sees(i.text, after, '\r') then after + 1 else after;
      OpenPlaced(judged, Multiline, st.pos, newline + 1);
      OpenPlaced(judged, Multiline, st.pos, after);
      LineStartPlaced(OpenString(judged, Multiline, st.pos, newline + 1), newline + 1);
    } else {
      OpenPlaced(st, StrKind.Plain, st.pos, st.pos + 1);
    }
  }

  lemma FaultPlaced(st: State, code: string, start: nat, end: nat)
    ensures Placed(Fault(st, code, start, end)) == Placed(st)
    ensures InTokens(Fault(st, code, start, end)) == InTokens(st)
  {
  }

  lemma HushedEnter(ctx: seq<Frame>, f: Frame)
    requires Hushed(ctx) && Silent(f)
    ensures Hushed(ctx + [f])
  {
  }

  /** One token from the cursor on that opens or closes a frame, or turns one into another. */
  lemma FramePlaced(st: State, next: State, tok: Tok, f: Frame)
    requires Placed(st) && InTokens(st) && Silent(f)
    requires next.ctx == st.ctx + [f] || next.ctx == Pop(st.ctx) + [f] || next.ctx == Pop(st.ctx) || next.ctx == st.ctx
    requires next.tokens == st.tokens + [Token(tok, Span(st.pos, next.pos))] && st.pos <= next.pos
    ensures Placed(next)
  {
    hide Placed, InTokens, Hushed, Laid;
    TokensAreHushed(st);
    HushedPop(st.ctx);
    HushedEnter(st.ctx, f);
    HushedEnter(Pop(st.ctx), f);
    EmitPlaced(st, next, Token(tok, Span(st.pos, next.pos)));
  }

  lemma BracketPlaced(st: State)
    requires Placed(st) && InTokens(st)
    ensures Placed(CloseBracket(st))
  {
    hide Placed, InTokens, PopDelimiter;
    FramePlaced(st, CloseBracket(st), RBracket, Paren);
  }

  lemma BracePlaced(st: State)
    requires Placed(st) && InTokens(st)
    ensures Placed(CloseBrace(st))
  {
    hide Placed, InTokens, PopDelimiter;
    var t := if Top(st.ctx) == Some(Interp) || Top(st.ctx) == Some(Fmt) then InterpEnd else RBrace;
    FramePlaced(st, CloseBrace(st), t, Paren);
  }

  /** One token of one character, from a state that differs from `st` in at most a frame. */
  lemma MarkPlaced(st: State, base: State, t: Tok, f: Frame)
    requires Placed(st) && InTokens(st) && Silent(f) && base.tokens == st.tokens
    requires base.ctx == st.ctx + [f] || base.ctx == Pop(st.ctx) + [f] || base.ctx == Pop(st.ctx) || base.ctx == st.ctx
    ensures Placed(Emit(base, t, st.pos, st.pos + 1))
  {
    hide Placed, InTokens, Silent;
    FramePlaced(st, Emit(base, t, st.pos, st.pos + 1), t, f);
  }

  lemma StrayPlaced(st: State, end: nat)
    requires Placed(st) && InTokens(st) && st.pos < end
    ensures Placed(Emit(Fault(st, "E0107", st.pos, end), Error, st.pos, end))
  {
    hide Placed, InTokens;
    FramePlaced(st, Emit(Fault(st, "E0107", st.pos, end), Error, st.pos, end), Error, Paren);
  }

  lemma SinglePlaced(i: Input, st: State)
    requires Placed(st) && InTokens(st) && st.pos < |i.text|
    ensures Placed(SingleStep(i, st))
  {
    hide Placed, InTokens, StrayEnd, IsSingle, PopDelimiter, CloseBrace, CloseBracket, Emit;
    var c := i.text[st.pos];
    if c == '(' {
      MarkPlaced(st, Enter(st, Paren), LParen, Paren);
    } else if c == '[' {
      MarkPlaced(st, Enter(st, Bracket), LBracket, Bracket);
    } else if c == '{' {
      MarkPlaced(st, Enter(st, Brace), LBrace, Brace);
    } else if c == ')' {
      MarkPlaced(st, PopDelimiter(st, Paren), RParen, Paren);
    } else if c == ']' {
      BracketPlaced(st);
    } else if c == '}' {
      BracePlaced(st);
    } else if c == ':' {
      MarkPlaced(st, st, Op(":"), Paren);
      if st.ctx != [] {
        MarkPlaced(st, WithTop(st, Fmt), FmtStart, Fmt);
      }
    } else if c == ';' {
      MarkPlaced(st, st, Term(true), Paren);
    } else if IsSingle(c) {
      MarkPlaced(st, st, Op([c]), Paren);
    } else if c == BYTE_ORDER_MARK {
      StrayPlaced(st, st.pos + 1);
    } else {
      StrayPlaced(st, StrayEnd(i, st.pos + 1));
    }
  }

  lemma TokenPlaced(i: Input, st: State)
    requires Placed(st) && InTokens(st) && st.pos < |i.text|
    ensures Placed(TokenStep(i, st))
  {
    hide Placed, InTokens, WordStep, NumberStep, CharStep, QuoteStep, SingleStep, IsXidStart, LongestOperator, StartsAt,
         Hushed, Laid;
    var c := i.text[st.pos];
    if IsXidStart(i, c) || c == '_' {
      WordPlaced(i, st);
    } else if IsDigit(c) {
      NumberPlaced(i, st);
    } else if c == '"' {
      QuotePlaced(i, st);
    } else if c == '\'' {
      CharPlaced(i, st);
    } else if StartsAt(i.text, st.pos, "#![") || StartsAt(i.text, st.pos, "#[") {
      TokensAreHushed(st);
      HushedEnter(st.ctx, AttrBracket);
      var next := TokenStep(i, st);
      EmitPlaced(st, next, next.tokens[|st.tokens|]);
    } else if LongestOperator(i.text, st.pos, OPERATORS).Some? {
      PlainPlaced(st, TokenStep(i, st));
    } else {
      SinglePlaced(i, st);
    }
  }

  lemma {:induction false} UnwindPlaced(st: State)
    requires Laid(st.tokens, st.pos) && Hushed(st.ctx)
    ensures Placed(Unwind(st))
    decreases |st.ctx|
  {
    hide Laid, Placed, Hushed;
    if st.ctx == [] {
      HushedPlaced(st);
    } else {
      HushedPop(st.ctx);
      LaidMore(st.tokens, st.pos, Token(StrEnd, Span(st.pos, st.pos)), st.pos);
      LaidMore(st.tokens, st.pos, Token(InterpEnd, Span(st.pos, st.pos)), st.pos);
      match Top(st.ctx).value
      case Str(_) => HushedPlaced(Unwind(st));
      case Interp => UnwindPlaced(Push(Leave(st), InterpEnd, st.pos, st.pos));
      case Fmt => UnwindPlaced(Push(Leave(st), InterpEnd, st.pos, st.pos));
      case _ => UnwindPlaced(Leave(st));
    }
  }

  lemma NormalPlaced(i: Input, st: State)
    requires Placed(st) && InTokens(st) && st.pos < |i.text|
    ensures Placed(NormalStep(i, st))
  {
    hide Laid, Placed, Hushed, InTokens, TokenStep, OpenPlain, LastEnds, Permits, ElseFollows, RunEnd;
    var c := i.text[st.pos];
    TokensAreHushed(st);
    var next := NormalStep(i, st);
    if c == '\n' {
      match OpenPlain(st.ctx, st.pos)
      case Some(span) =>
        UnwindPlaced(Fault(st, "E0102", span.start, span.end));
      case None =>
        LaidLater(st.tokens, st.pos, next.pos);
        LaidMore(st.tokens, st.pos, Token(Term(false), Span(st.pos, st.pos)), next.pos);
        HushedPlaced(next);
    } else if IsInline(c) || StartsAt(i.text, st.pos, "//") {
      LaidLater(st.tokens, st.pos, next.pos);
      HushedPlaced(next);
    } else {
      TokenPlaced(i, st);
    }
  }

  // -- string bodies ---------------------------------------------------------------------------

  lemma HoldPlaced(st: State, body: Body, c: char, end: nat)
    requires Placed(st) && Top(st.ctx) == Some(Str(body)) && st.pos <= end
    ensures Placed(Hold(st, body, c, end))
  {
    var next := Hold(st, body, c, end);
    assert Pop(next.ctx) == Pop(st.ctx);
  }

  lemma SkipPlaced(st: State, body: Body, code: string, start: nat, end: nat)
    requires Placed(st) && Top(st.ctx) == Some(Str(body)) && st.pos <= end
    ensures Placed(WithTop(Fault(st, code, start, end), Str(body)).(pos := end))
  {
    var next := WithTop(Fault(st, code, start, end), Str(body)).(pos := end);
    assert Pop(next.ctx) == Pop(st.ctx);
    LaidLater(st.tokens, Held(st), Held(next));
  }

  /** After a flush nothing is held back; `body` is `st`'s own, or what the dedent left of it. */
  lemma FlushPlaced(st: State, body: Body)
    requires Placed(st) && st.ctx != [] && (body.pending != "" ==> body.pendingStart == Held(st))
    ensures Laid(Flush(st, body).tokens, st.pos) && Hushed(Flush(st, body).ctx)
    ensures Flush(st, body).ctx != [] && Flush(st, body).pos == st.pos
  {
    hide Laid;
    var next := Flush(st, body);
    if body.pending == "" {
      LaidLater(st.tokens, Held(st), st.pos);
      HushedEnter(Pop(st.ctx), Str(body));
    } else {
      LaidMore(st.tokens, Held(st), Token(StrText(body.pending), Span(body.pendingStart, st.pos)), st.pos);
      HushedEnter(Pop(st.ctx), Top(next.ctx).value);
    }
  }

  lemma AbandonPlaced(st: State, body: Body)
    requires Placed(st) && Top(st.ctx) == Some(Str(body))
    ensures Placed(Abandon(st, body))
  {
    hide Flush, Laid, Hushed;
    FlushPlaced(st, body);
    var flushed := Flush(st, body);
    var next := Abandon(st, body);
    LaidMore(flushed.tokens, st.pos, Token(StrEnd, Span(st.pos, st.pos)), st.pos);
    HushedPop(flushed.ctx);
    HushedPlaced(next);
  }

  lemma DedentedHolds(i: Input, st: State, body: Body)
    requires st.pos < |i.text|
    ensures var d := Dedented(i, st, body).1;
            d.pendingStart == body.pendingStart && (body.pending == "" ==> d.pending == "")
  {
    hide DedentPieces, MarginFault, LineStart, AllBlank;
  }

  lemma ClosePlaced(i: Input, st: State, body: Body)
    requires Placed(st) && Top(st.ctx) == Some(Str(body)) && st.pos < |i.text|
    ensures Placed(CloseString(i, st, body))
  {
    hide Laid, Hushed, Flush, Dedented;
    var ready := if body.kind.Multiline? then Dedented(i, st, body) else (st, body);
    DedentedIsAlike(i, st, body);
    DedentedHolds(i, st, body);
    assert |ready.0.tokens| == |st.tokens| by {
      assert |Shapes(ready.0.tokens)| == |Shapes(st.tokens)|;
    }
    LaidBySpans(st.tokens, ready.0.tokens, Held(st));
    FlushPlaced(ready.0, ready.1);
    var flushed := Flush(ready.0, ready.1);
    var next := CloseString(i, st, body);
    LaidMore(flushed.tokens, st.pos, Token(StrEnd, Span(st.pos, next.pos)), next.pos);
    HushedPop(flushed.ctx);
    HushedPlaced(next);
  }

  lemma HolePlaced(st: State)
    requires Hushed(st.ctx)
    ensures Hushed(AtHole(st).ctx) && AtHole(st).tokens == st.tokens && AtHole(st).pos == st.pos
  {
    if st.ctx != [] && Top(st.ctx).value.Str? {
      assert Silent(st.ctx[|st.ctx| - 1]);
    }
  }

  lemma InterpolatePlaced(st: State, body: Body)
    requires Placed(st) && Top(st.ctx) == Some(Str(body))
    ensures Placed(Interpolate(st, body))
  {
    hide Flush, Laid, Hushed, AtHole;
    FlushPlaced(st, body);
    var flushed := Flush(st, body);
    var emitted := Emit(flushed, InterpStart, st.pos, st.pos + 1);
    HolePlaced(emitted);
    var held := if body.kind.Multiline? then AtHole(emitted) else emitted;
    HushedEnter(held.ctx, Interp);
    LaidMore(flushed.tokens, st.pos, Token(InterpStart, Span(st.pos, st.pos + 1)), st.pos + 1);
    HushedPlaced(Interpolate(st, body));
  }

  lemma TextPlaced(i: Input, st: State, body: Body)
    requires Placed(st) && Top(st.ctx) == Some(Str(body)) && st.pos < |i.text|
    ensures Placed(TextStep(i, st, body))
  {
    hide Placed, Interpolate, Abandon, Hold, AtLineStart, StartsAt, EscapeAt;
    var c := i.text[st.pos];
    if StartsAt(i.text, st.pos, "{{") || StartsAt(i.text, st.pos, "}}") {
      HoldPlaced(st, body, '{', st.pos + 2);
      HoldPlaced(st, body, '}', st.pos + 2);
    } else if c == '{' {
      InterpolatePlaced(st, body);
    } else if c == '\n' && body.kind.Plain? {
      FaultPlaced(st, "E0102", Less(body.start, 1), st.pos);
      AbandonPlaced(Fault(st, "E0102", Less(body.start, 1), st.pos), body);
    } else if c == '\\' && st.pos + 1 < |i.text| {
      var e := EscapeAt(i.text, st.pos + 1, false);
      SkipPlaced(st, body, "E0101", st.pos, e.end);
      match e.value {
        case Ok(v) => HoldPlaced(st, body, v, e.end);
        case Err(_) =>
      }
    } else {
      HoldPlaced(st, body, c, st.pos + 1);
      LineStartPlaced(Hold(st, body, c, st.pos + 1), st.pos + 1);
      SkipPlaced(st, body, "E0111", st.pos, st.pos + 1);
      SkipPlaced(st, body, "E0102", st.pos, st.pos + 1);
    }
  }

  lemma BodyPlaced(i: Input, st: State, body: Body)
    requires Placed(st) && Top(st.ctx) == Some(Str(body)) && st.pos < |i.text|
    ensures Placed(BodyStep(i, st, body))
  {
    hide Placed, CloseString, Abandon, Hold, TextStep, ClosesString;
    ClosePlaced(i, st, body);
    FaultPlaced(st, "E0109", st.pos, st.pos + 1);
    AbandonPlaced(Fault(st, "E0109", st.pos, st.pos + 1), body);
    HoldPlaced(st, body, i.text[st.pos], st.pos + 1);
    TextPlaced(i, st, body);
  }

  lemma FormatPlaced(i: Input, st: State)
    requires Placed(st) && Top(st.ctx) == Some(Fmt) && st.pos < |i.text|
    ensures Placed(FormatStep(i, st))
  {
    hide Placed, RunEnd, Laid, Hushed;
    var end := RunEnd(i.text, st.pos, IsFormatText);
    var told := if end == st.pos then st else Emit(st, FmtText(i.text[st.pos..end]), st.pos, end);
    TokensAreHushed(st);
    if end != st.pos {
      EmitPlaced(st, told, Token(FmtText(i.text[st.pos..end]), Span(st.pos, end)));
    }
    if end < |i.text| {
      var next := FormatStep(i, st);
      HushedPop(told.ctx);
      HushedEnter(told.ctx, Interp);
      EmitPlaced(told, next, next.tokens[|told.tokens|]);
    }
  }

  lemma StepPlaced(i: Input, st: State)
    requires Placed(st) && st.pos < |i.text|
    ensures Placed(Step(i, st))
  {
    hide Placed, NormalStep, FormatStep, BodyStep;
    match Top(st.ctx)
    case Some(Str(body)) => BodyPlaced(i, st, body);
    case Some(Fmt) => FormatPlaced(i, st);
    case _ => NormalPlaced(i, st);
  }

  lemma {:induction false} ScanPlaced(i: Input, st: State)
    requires Placed(st) && st.pos <= |i.text|
    ensures Placed(Scan(i, st))
    decreases |i.text| - st.pos, |st.ctx|
  {
    hide Placed, Step;
    if st.pos < |i.text| {
      StepPlaced(i, st);
      StepAdvances(i, st);
      ScanPlaced(i, Step(i, st));
    }
  }

  lemma {:induction false} DrainLaid(i: Input, st: State)
    requires Laid(st.tokens, |i.text|)
    ensures Laid(Drain(i, st).tokens, |i.text|) && Drain(i, st).pos == st.pos
    decreases |st.ctx|
  {
    hide Laid;
    var end := |i.text|;
    if st.ctx != [] {
      LaidMore(st.tokens, end, Token(StrEnd, Span(end, end)), end);
      LaidMore(st.tokens, end, Token(InterpEnd, Span(end, end)), end);
      match Top(st.ctx).value
      case Str(body) => DrainLaid(i, Push(Fault(Leave(st), "E0102", Less(body.start, 1), end), StrEnd, end, end));
      case Interp => DrainLaid(i, Push(Fault(Leave(st), "E0112", end, end), InterpEnd, end, end));
      case Fmt => DrainLaid(i, Push(Fault(Leave(st), "E0112", end, end), InterpEnd, end, end));
      case _ => DrainLaid(i, Leave(st));
    }
  }

  /** The lexer reads every input to its end, and its token spans lie inside the source, in
    source order, without overlapping. */
  lemma SpansAreInOrder(i: Input)
    ensures Lex(i).pos == |i.text|
    ensures forall k :: 0 <= k < |Lex(i).tokens| ==>
              Lex(i).tokens[k].span.start <= Lex(i).tokens[k].span.end <= |i.text|
    ensures forall j, k :: 0 <= j < k < |Lex(i).tokens| ==>
              Lex(i).tokens[j].span.end <= Lex(i).tokens[k].span.start
  {
    hide Laid, Scan, Hushed, EndsStatement, Permits;
    var begin := Begin(i);
    assert Laid([], begin.pos) by { EmptyIsLaid(begin.pos); }
    assert Hushed([]) by { NothingHeld(); }
    ScanPlaced(i, begin);
    var scanned := Scan(i, begin);
    LaidLater(scanned.tokens, Held(scanned), |i.text|);
    var open := scanned.(openAtEof := scanned.ctx != []);
    DrainLaid(i, open);
    var drained := Drain(i, open);
    LaidMore(drained.tokens, |i.text|, Token(Term(false), Span(|i.text|, |i.text|)), |i.text|);
    LaidInOrder(Lex(i).tokens, |i.text|);
  }

  lemma EmptyIsLaid(limit: nat)
    ensures Laid([], limit)
  {
  }

  lemma NothingHeld()
    ensures Hushed([])
  {
  }

  lemma {:induction false} LaidInOrder(tokens: seq<Token>, limit: nat)
    requires Laid(tokens, limit)
    ensures forall k :: 0 <= k < |tokens| ==> tokens[k].span.start <= tokens[k].span.end <= limit
    ensures forall j, k :: 0 <= j < k < |tokens| ==> tokens[j].span.end <= tokens[k].span.start
    decreases |tokens|
  {
    if tokens != [] {
      var last := tokens[|tokens| - 1].span;
      LaidInOrder(tokens[..|tokens| - 1], last.start);
      forall k | 0 <= k < |tokens| ensures tokens[k].span.start <= tokens[k].span.end <= limit {
        if k < |tokens| - 1 {
          assert tokens[..|tokens| - 1][k] == tokens[k];
        }
      }
    }
  }
}
