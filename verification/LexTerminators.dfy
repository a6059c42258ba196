/** Where statement terminators are inserted.

  The law is stated over the finished stream, read by `LexNesting.StackOf`: nothing here
  refers to the lexer's own bookkeeping except to prove that the bookkeeping obeys it. */
module LexTerminators {
  import opened Wrappers
  import opened LexModel
  import opened LexNesting

  // -- the law ----------------------------------------------------------------------------


  /** The innermost delimiter a stream has open, looking through strings and format specs. */
  function InnermostLayer(stack: seq<Layer>): Option<Layer> {
    if stack == [] then None
    else if TopIs(stack, Literal) || TopIs(stack, Spec) then InnermostLayer(Outer(stack))
    else Some(stack[|stack| - 1])
  }

  /** A newline may end a statement at top level and directly inside braces. */
  predicate EndsLines(stack: seq<Layer>) {
    InnermostLayer(stack).None? || InnermostLayer(stack) == Some(Curly)
  }

  predicate Permitted(toks: seq<Tok>, k: nat)
    requires k <= |toks|
  {
    StackOf(toks[..k]).Some? && EndsLines(StackOf(toks[..k]).value)
  }

  /** Token `k` is the bracket that closes an attribute. */
  predicate ClosesAttribute(toks: seq<Tok>, k: nat)
    requires k < |toks|
  {
    toks[k] == RBracket && StackOf(toks[..k]).Some? && TopIs(StackOf(toks[..k]).value, Attribute)
  }

  /** Position `k` follows a token that ends a statement and closes no attribute. */
  predicate AfterStatement(toks: seq<Tok>, k: nat)
    requires k <= |toks|
  {
    k > 0 && EndsStatement(toks[k - 1]) && !ClosesAttribute(toks, k - 1)
  }

  predicate Rightful(toks: seq<Tok>, k: nat)
    requires k < |toks|
  {
    toks[k] == IMPLICIT ==> AfterStatement(toks, k) && Permitted(toks, k)
  }

  predicate BeforeElse(toks: seq<Tok>, k: nat)
    requires k < |toks|
  {
    toks[k] == IMPLICIT && k + 1 < |toks| && toks[k + 1] == Kw("else")
  }

  ghost predicate Lawful(toks: seq<Tok>) {
    forall k :: 0 <= k < |toks| ==> Rightful(toks, k) && !BeforeElse(toks, k)
  }

  // -- what the scan keeps --------------------------------------------------------------------

  predicate LastIsImplicit(toks: seq<Tok>) {
    toks != [] && toks[|toks| - 1] == IMPLICIT
  }

  /** `attrClose` is the latest bracket that closed an attribute. */
  ghost predicate Tracked(toks: seq<Tok>, attrClose: Option<nat>) {
    && (attrClose.Some? ==> attrClose.value < |toks| && ClosesAttribute(toks, attrClose.value))
    && forall k :: 0 <= k < |toks| && ClosesAttribute(toks, k) ==> attrClose.Some? && k <= attrClose.value
  }

  ghost predicate Termed(i: Input, st: State)
    requires st.pos <= |i.text|
  {
    var toks := Shapes(st.tokens);
    Lawful(toks) && Tracked(toks, st.attrClose) && (LastIsImplicit(toks) ==> !ElseFollows(i, st.pos))
  }

  /** Tokens that neither are terminators nor bear on them. */
  predicate Quiet(t: Tok) {
    t != IMPLICIT && t != Kw("else") && t != RBracket
  }

  predicate GrowsQuietly(st: State, next: State) {
    var n := |st.tokens|;
    && next.attrClose == st.attrClose
    && n <= |next.tokens| && Shapes(next.tokens)[..n] == Shapes(st.tokens)
    && forall k :: n <= k < |next.tokens| ==> Quiet(next.tokens[k].tok)
  }

  lemma PrefixLaw(toks: seq<Tok>, more: seq<Tok>, k: nat)
    requires k < |toks| <= |more| && more[..|toks|] == toks
    ensures ClosesAttribute(more, k) == ClosesAttribute(toks, k)
    ensures Rightful(more, k) == Rightful(toks, k)
    ensures AfterStatement(more, k + 1) == AfterStatement(toks, k + 1)
    ensures k + 1 < |toks| ==> BeforeElse(more, k) == BeforeElse(toks, k)
  {
    assert more[..k] == toks[..k];
    if k > 0 {
      assert more[..k - 1] == toks[..k - 1];
    }
  }

  lemma QuietIsLawful(toks: seq<Tok>, more: seq<Tok>)
    requires Lawful(toks) && |toks| <= |more| && more[..|toks|] == toks
    requires forall k :: |toks| <= k < |more| ==> more[k] != IMPLICIT && more[k] != Kw("else")
    ensures Lawful(more)
  {
    hide ClosesAttribute, AfterStatement, Permitted;
    forall k | 0 <= k < |more| ensures Rightful(more, k) && !BeforeElse(more, k) {
      if k < |toks| {
        PrefixLaw(toks, more, k);
      }
    }
  }

  lemma QuietIsTracked(toks: seq<Tok>, more: seq<Tok>, attrClose: Option<nat>)
    requires Tracked(toks, attrClose) && |toks| <= |more| && more[..|toks|] == toks
    requires forall k :: |toks| <= k < |more| ==> more[k] != RBracket
    ensures Tracked(more, attrClose)
  {
    forall k | 0 <= k < |more| ensures k < |toks| ==> ClosesAttribute(more, k) == ClosesAttribute(toks, k) {
      if k < |toks| {
        PrefixLaw(toks, more, k);
      }
    }
  }

  lemma ShapesAreQuiet(tokens: seq<Token>, from: nat)
    requires forall k :: from <= k < |tokens| ==> Quiet(tokens[k].tok)
    ensures forall k :: from <= k < |tokens| ==> Quiet(Shapes(tokens)[k])
  {
  }

  lemma QuietKeeps(i: Input, st: State, next: State)
    requires st.pos <= |i.text| && next.pos <= |i.text| && Termed(i, st) && GrowsQuietly(st, next)
    requires |st.tokens| < |next.tokens| || !LastIsImplicit(Shapes(st.tokens))
    ensures Termed(i, next)
  {
    hide Lawful, Tracked, ElseFollows;
    var toks, more := Shapes(st.tokens), Shapes(next.tokens);
    ShapesAreQuiet(next.tokens, |st.tokens|);
    QuietIsLawful(toks, more);
    QuietIsTracked(toks, more, st.attrClose);
    if |st.tokens| == |next.tokens| {
      assert more == toks;
    }
  }

  /** A terminator leaves the lexer in code, so a literal's text never follows one. */
  lemma LiteralsFollowNoTerminator(st: State)
    requires Nested(st) && !InCode(Layers(st.ctx))
    ensures !LastIsImplicit(Shapes(st.tokens))
  {
    var toks := Shapes(st.tokens);
    if toks != [] {
      assert StackOf(toks) == After(StackOf(toks[..|toks| - 1]).value, toks[|toks| - 1]);
    }
  }

  // -- the steps that emit nothing special -----------------------------------------------------

  lemma PushIsQuiet(st: State, next: State, t: Token)
    requires next.tokens == st.tokens + [t] && next.attrClose == st.attrClose && Quiet(t.tok)
    ensures GrowsQuietly(st, next)
  {
    ShapesAppend(st.tokens, t);
  }

  lemma QuietThenQuiet(a: State, b: State, c: State)
    requires GrowsQuietly(a, b) && GrowsQuietly(b, c)
    ensures GrowsQuietly(a, c)
  {
    var n := |a.tokens|;
    assert Shapes(c.tokens)[..n] == Shapes(c.tokens)[..|b.tokens|][..n];
    forall k | n <= k < |c.tokens| ensures Quiet(c.tokens[k].tok) {
      if k < |b.tokens| {
        assert Shapes(c.tokens)[..|b.tokens|][k] == Shapes(b.tokens)[k];
        assert Shape(c.tokens[k].tok) == Shape(b.tokens[k].tok);
      }
    }
  }

  lemma SameIsQuiet(st: State, next: State)
    requires next.tokens == st.tokens && next.attrClose == st.attrClose
    ensures GrowsQuietly(st, next)
  {
  }

  lemma OpenIsQuiet(st: State, kind: StrKind, start: nat, body: nat)
    ensures GrowsQuietly(st, OpenString(st, kind, start, body))
    ensures |OpenString(st, kind, start, body).tokens| == |st.tokens| + 1
  {
    hide StringDepth;
    PushIsQuiet(st, OpenString(st, kind, start, body), Token(StrStart(kind), Span(start, body)));
  }

  lemma FlushIsQuiet(st: State, body: Body)
    requires st.ctx != []
    ensures GrowsQuietly(st, Flush(st, body))
  {
    if body.pending == "" {
      SameIsQuiet(st, Flush(st, body));
    } else {
      PushIsQuiet(st, Flush(st, body), Token(StrText(body.pending), Span(body.pendingStart, st.pos)));
    }
  }

  lemma DedentedIsQuiet(i: Input, st: State, body: Body)
    requires st.pos < |i.text|
    ensures GrowsQuietly(st, Dedented(i, st, body).0)
  {
    DedentedIsAlike(i, st, body);
    var d := Dedented(i, st, body).0;
    assert |Shapes(d.tokens)| == |Shapes(st.tokens)|;
    DedentKeepsTrack(i, st, body);
  }

  lemma DedentKeepsTrack(i: Input, st: State, body: Body)
    requires st.pos < |i.text|
    ensures Dedented(i, st, body).0.attrClose == st.attrClose
  {
    hide DedentPieces, DedentChunk, MarginFault, LineStart, AllBlank, TrimBlanks;
  }

  lemma EndIsQuiet(st: State, body: Body, from: State, next: State, end: nat)
    requires st.ctx != [] && GrowsQuietly(from, st)
    requires next.tokens == Flush(st, body).tokens + [Token(StrEnd, Span(st.pos, end))]
    requires next.attrClose == Flush(st, body).attrClose
    ensures GrowsQuietly(from, next)
  {
    hide Flush, GrowsQuietly;
    FlushIsQuiet(st, body);
    QuietThenQuiet(from, st, Flush(st, body));
    PushIsQuiet(Flush(st, body), next, Token(StrEnd, Span(st.pos, end)));
    QuietThenQuiet(from, Flush(st, body), next);
  }

  lemma BodyIsQuiet(i: Input, st: State, body: Body)
    requires st.pos < |i.text| && Top(st.ctx) == Some(Str(body))
    ensures GrowsQuietly(st, BodyStep(i, st, body))
  {
    hide GrowsQuietly, Flush, Dedented, EscapeAt, StartsAt, ClosesString, CloserLength;
    var next := BodyStep(i, st, body);
    var c := i.text[st.pos];
    SameIsQuiet(st, st);
    if ClosesString(i.text, st.pos, body.kind) {
      var ready := if body.kind.Multiline? then Dedented(i, st, body) else (st, body);
      DedentedIsQuiet(i, st, body);
      DedentedIsAlike(i, st, body);
      EndIsQuiet(ready.0, ready.1, st, next, st.pos + CloserLength(body.kind));
    } else if body.kind.Generalized? && c == '\n' {
      AbandonIsQuiet(st, body, "E0109", st.pos, st.pos + 1);
    } else if body.kind.Raw? || body.kind.Generalized? {
      SameIsQuiet(st, next);
    } else {
      TextIsQuiet(i, st, body);
    }
  }

  lemma AbandonIsQuiet(st: State, body: Body, code: string, start: nat, end: nat)
    requires st.ctx != []
    ensures GrowsQuietly(st, Abandon(Fault(st, code, start, end), body))
  {
    hide GrowsQuietly, Flush;
    var faulty := Fault(st, code, start, end);
    SameIsQuiet(st, faulty);
    EndIsQuiet(faulty, body, st, Abandon(faulty, body), st.pos);
  }

  lemma TextIsQuiet(i: Input, st: State, body: Body)
    requires st.pos < |i.text| && Top(st.ctx) == Some(Str(body))
    ensures GrowsQuietly(st, TextStep(i, st, body))
  {
    hide GrowsQuietly, Flush, EscapeAt, StartsAt, Abandon;
    var next := TextStep(i, st, body);
    var c := i.text[st.pos];
    if StartsAt(i.text, st.pos, "{{") || StartsAt(i.text, st.pos, "}}") {
      SameIsQuiet(st, next);
    } else if c == '{' {
      FlushIsQuiet(st, body);
      PushIsQuiet(Flush(st, body), next, Token(InterpStart, Span(st.pos, st.pos + 1)));
      QuietThenQuiet(st, Flush(st, body), next);
    } else if c == '\n' && body.kind.Plain? {
      AbandonIsQuiet(st, body, "E0102", Less(body.start, 1), st.pos);
    } else {
      SameIsQuiet(st, next);
    }
  }

  lemma FormatIsQuiet(i: Input, st: State)
    requires st.pos < |i.text|
    ensures GrowsQuietly(st, FormatStep(i, st))
  {
    hide GrowsQuietly;
    var end := RunEnd(i.text, st.pos, IsFormatText);
    var told := if end == st.pos then st else Emit(st, FmtText(i.text[st.pos..end]), st.pos, end);
    if end == st.pos {
      SameIsQuiet(st, told);
    } else {
      PushIsQuiet(st, told, Token(FmtText(i.text[st.pos..end]), Span(st.pos, end)));
    }
    if end < |i.text| {
      var next := FormatStep(i, st);
      PushIsQuiet(told, next, next.tokens[|told.tokens|]);
      QuietThenQuiet(st, told, next);
    }
  }

  lemma {:induction false} UnwindIsQuiet(st: State)
    requires InnermostString(st.ctx).Some?
    ensures GrowsQuietly(st, Unwind(st)) && |Unwind(st).tokens| > |st.tokens|
    decreases |st.ctx|
  {
    hide GrowsQuietly;
    var closed := Push(Leave(st), InterpEnd, st.pos, st.pos);
    match Top(st.ctx).value
    case Str(_) => PushIsQuiet(st, Unwind(st), Token(StrEnd, Span(st.pos, st.pos)));
    case Interp =>
      PushIsQuiet(st, closed, Token(InterpEnd, Span(st.pos, st.pos)));
      UnwindIsQuiet(closed);
      QuietThenQuiet(st, closed, Unwind(closed));
    case Fmt =>
      PushIsQuiet(st, closed, Token(InterpEnd, Span(st.pos, st.pos)));
      UnwindIsQuiet(closed);
      QuietThenQuiet(st, closed, Unwind(closed));
    case _ =>
      SameIsQuiet(st, Leave(st));
      UnwindIsQuiet(Leave(st));
      QuietThenQuiet(st, Leave(st), Unwind(Leave(st)));
  }

  lemma {:induction false} DrainIsQuiet(i: Input, st: State)
    ensures GrowsQuietly(st, Drain(i, st))
    decreases |st.ctx|
  {
    hide GrowsQuietly;
    var end := |i.text|;
    if st.ctx == [] {
      SameIsQuiet(st, st);
    } else {
      match Top(st.ctx).value
      case Str(body) =>
        var next := Push(Fault(Leave(st), "E0102", Less(body.start, 1), end), StrEnd, end, end);
        PushIsQuiet(st, next, Token(StrEnd, Span(end, end)));
        DrainIsQuiet(i, next);
        QuietThenQuiet(st, next, Drain(i, next));
      case Interp =>
        var next := Push(Fault(Leave(st), "E0112", end, end), InterpEnd, end, end);
        PushIsQuiet(st, next, Token(InterpEnd, Span(end, end)));
        DrainIsQuiet(i, next);
        QuietThenQuiet(st, next, Drain(i, next));
      case Fmt =>
        var next := Push(Fault(Leave(st), "E0112", end, end), InterpEnd, end, end);
        PushIsQuiet(st, next, Token(InterpEnd, Span(end, end)));
        DrainIsQuiet(i, next);
        QuietThenQuiet(st, next, Drain(i, next));
      case _ =>
        SameIsQuiet(st, Leave(st));
        DrainIsQuiet(i, Leave(st));
        QuietThenQuiet(st, Leave(st), Drain(i, Leave(st)));
    }
  }

  // -- tokens ------------------------------------------------------------------------------------

  lemma ElseLetters(text: string, at: nat)
    requires StartsAt(text, at, "else")
    ensures at + 4 <= |text| && text[at..at + 4] == "else"
    ensures forall k :: at <= k < at + 4 ==> IsAsciiLetter(text[k])
  {
    var word := text[at..at + 4];
    forall k | at <= k < at + 4 ensures IsAsciiLetter(text[k]) {
      assert text[k] == word[k - at];
    }
  }

  /** The scanner of words reads the keyword `else` exactly where the lookahead would see one. */
  lemma ElseIsForeseen(i: Input, at: nat, end: nat)
    requires at < |i.text| && end == RunEnd(i.text, at, Continues(i))
    requires IsXidStart(i, i.text[at]) || i.text[at] == '_'
    ensures i.text[at..end] == "else" <==> ElseFollows(i, at)
  {
    assert SkipTrivia(i.text, at) == at;
    if i.text[at..end] == "else" {
      assert end == at + 4;
    }
    if ElseAt(i, at) {
      ElseLetters(i.text, at);
      assert forall k :: at <= k < at + 4 ==> IsXidContinue(i, i.text[k]);
      assert end == at + 4;
    }
  }

  /** A word is `else` only where no terminator was just inserted. */
  lemma PlainWordKeeps(i: Input, st: State, next: State, t: Token)
    requires st.pos <= |i.text| && next.pos <= |i.text| && Termed(i, st)
    requires next.tokens == st.tokens + [t] && next.attrClose == st.attrClose
    requires t.tok != IMPLICIT && t.tok != RBracket
    requires t.tok == Kw("else") ==> ElseFollows(i, st.pos)
    ensures Termed(i, next)
  {
    hide ElseFollows, Rightful, ClosesAttribute;
    var toks, more := Shapes(st.tokens), Shapes(next.tokens);
    ShapesAppend(st.tokens, t);
    QuietIsTracked(toks, more, st.attrClose);
    forall k | 0 <= k < |more| ensures Rightful(more, k) && !BeforeElse(more, k) {
      if k < |toks| {
        PrefixLaw(toks, more, k);
        assert Rightful(toks, k) && !BeforeElse(toks, k);
      } else {
        OtherIsRightful(more, k);
      }
    }
  }

  lemma OtherIsRightful(toks: seq<Tok>, k: nat)
    requires k < |toks| && toks[k] != IMPLICIT
    ensures Rightful(toks, k)
  {
  }

  lemma WordTermed(i: Input, st: State)
    requires st.pos < |i.text| && Termed(i, st)
    requires IsXidStart(i, i.text[st.pos]) || i.text[st.pos] == '_'
    ensures WordStep(i, st).pos <= |i.text| && Termed(i, WordStep(i, st))
  {
    hide Termed, OpenString, IsKeyword, ElseFollows;
    WordAdvances(i, st);
    var end := RunEnd(i.text, st.pos, Continues(i));
    var word := i.text[st.pos..end];
    var quote := RunEnd(i.text, end, IsHash);
    var next := WordStep(i, st);
    if word == "r" && (Sees(i.text, end, '"') || Sees(i.text, end, '#')) {
      if Sees(i.text, quote, '"') {
        OpenIsQuiet(st, Raw(quote - end), st.pos, quote + 1);
        QuietKeeps(i, st, next);
      } else {
        PushIsQuiet(st, next, Token(Ident("r"), Span(st.pos, st.pos + 1)));
        QuietKeeps(i, st, next);
      }
    } else if Sees(i.text, end, '"') && !IsKeyword(word) && word != "_" {
      OpenIsQuiet(st, Generalized(word), st.pos, end + 1);
      QuietKeeps(i, st, next);
    } else {
      ElseIsForeseen(i, st.pos, end);
      PlainWordKeeps(i, st, next, Token(WordTok(word), Span(st.pos, end)));
    }
  }

  lemma QuietTokenTermed(i: Input, st: State, next: State)
    requires st.pos <= |i.text| && next.pos <= |i.text| && Termed(i, st)
    requires |next.tokens| == |st.tokens| + 1 && next.tokens[..|st.tokens|] == st.tokens
    requires next.attrClose == st.attrClose && Quiet(next.tokens[|st.tokens|].tok)
    ensures Termed(i, next)
  {
    hide Termed;
    var t := next.tokens[|st.tokens|];
    assert next.tokens == st.tokens + [t];
    PushIsQuiet(st, next, t);
    QuietKeeps(i, st, next);
  }

  lemma QuoteTermed(i: Input, st: State)
    requires Sees(i.text, st.pos, '"') && Termed(i, st)
    ensures QuoteStep(i, st).pos <= |i.text| && Termed(i, QuoteStep(i, st))
  {
    hide Termed, OpenString, AllWhite, RunEnd, GrowsQuietly;
    QuoteAdvances(i, st);
    var next := QuoteStep(i, st);
    if StartsAt(i.text, st.pos, "\"\"\"") {
      var after := st.pos + 3;
      var eol := RunEnd(i.text, after, NotNewline);
      var judged := if AllWhite(i, after, eol) then st else Fault(st, "E0103", after, eol);
      var newline := if Sees(i.text, after, '\r') then after + 1 else after;
      SameIsQuiet(st, judged);
      var body := if Sees(i.text, newline, '\n') then newline + 1 else after;
      OpenIsQuiet(judged, Multiline, st.pos, body);
      var begun := OpenString(judged, Multiline, st.pos, body);
      QuietThenQuiet(st, judged, begun);
      SameIsQuiet(begun, next);
      QuietThenQuiet(st, begun, next);
    } else {
      OpenIsQuiet(st, StrKind.Plain, st.pos, st.pos + 1);
    }
    QuietKeeps(i, st, next);
  }

  lemma BracketTermed(i: Input, st: State)
    requires st.pos < |i.text| && Termed(i, st) && Nested(st)
    ensures Termed(i, CloseBracket(st))
  {
    hide ElseFollows, Rightful, ClosesAttribute, StackOf, Deepest;
    var next := CloseBracket(st);
    var t := Token(RBracket, Span(st.pos, st.pos + 1));
    var toks, more := Shapes(st.tokens), Shapes(next.tokens);
    assert next.tokens == st.tokens + [t];
    ShapesAppend(st.tokens, t);
    QuietIsLawful(toks, more);
    LastBracket(st, more);
    forall k | 0 <= k < |toks| ensures ClosesAttribute(more, k) == ClosesAttribute(toks, k) {
      PrefixLaw(toks, more, k);
    }
  }

  lemma LastBracket(st: State, more: seq<Tok>)
    requires Nested(st) && more == Shapes(st.tokens) + [RBracket]
    ensures ClosesAttribute(more, |st.tokens|) <==> Top(st.ctx) == Some(AttrBracket)
  {
    hide StackOf, Deepest;
    assert more[..|st.tokens|] == Shapes(st.tokens);
    if st.ctx != [] {
      assert Layers(st.ctx)[|st.ctx| - 1] == LayerOf(Top(st.ctx).value);
    }
  }

  lemma EmittedTermed(i: Input, st: State, next: State, t: Tok, end: nat)
    requires st.pos < end <= |i.text| && Termed(i, st) && Quiet(t)
    requires next.tokens == st.tokens + [Token(t, Span(st.pos, end))]
    requires next.attrClose == st.attrClose && next.pos == end
    ensures Termed(i, next)
  {
    hide Termed;
    PushIsQuiet(st, next, Token(t, Span(st.pos, end)));
    QuietKeeps(i, st, next);
  }

  lemma BraceTermed(i: Input, st: State)
    requires st.pos < |i.text| && Termed(i, st)
    ensures Termed(i, CloseBrace(st))
  {
    hide Termed, Quiet, PopDelimiter;
    var t := if Top(st.ctx) == Some(Interp) || Top(st.ctx) == Some(Fmt) then InterpEnd else RBrace;
    assert Quiet(InterpEnd) && Quiet(RBrace) by { BracesAreQuiet(); }
    EmittedTermed(i, st, CloseBrace(st), t, st.pos + 1);
  }

  lemma BracesAreQuiet()
    ensures Quiet(InterpEnd) && Quiet(RBrace)
  {
  }

  lemma StrayTermed(i: Input, st: State, end: nat)
    requires st.pos < end <= |i.text| && Termed(i, st)
    ensures Termed(i, Emit(Fault(st, "E0107", st.pos, end), Error, st.pos, end))
  {
    hide Termed;
    EmittedTermed(i, st, Emit(Fault(st, "E0107", st.pos, end), Error, st.pos, end), Error, end);
  }

  lemma MarkTermed(i: Input, st: State, base: State, t: Tok)
    requires st.pos < |i.text| && Termed(i, st) && Quiet(t)
    requires base.tokens == st.tokens && base.attrClose == st.attrClose
    ensures Termed(i, Emit(base, t, st.pos, st.pos + 1))
  {
    hide Termed, Quiet;
    EmittedTermed(i, st, Emit(base, t, st.pos, st.pos + 1), t, st.pos + 1);
  }

  lemma SingleTermed(i: Input, st: State)
    requires st.pos < |i.text| && Termed(i, st) && Nested(st)
    ensures SingleStep(i, st).pos <= |i.text| && Termed(i, SingleStep(i, st))
  {
    hide Termed, Nested, StrayEnd, IsSingle, PopDelimiter, CloseBrace, CloseBracket, Emit;
    var c := i.text[st.pos];
    if c == '(' {
      MarkTermed(i, st, Enter(st, Paren), LParen);
    } else if c == '[' {
      MarkTermed(i, st, Enter(st, Bracket), LBracket);
    } else if c == '{' {
      MarkTermed(i, st, Enter(st, Brace), LBrace);
    } else if c == ')' {
      MarkTermed(i, st, PopDelimiter(st, Paren), RParen);
    } else if c == ']' {
      BracketTermed(i, st);
    } else if c == '}' {
      BraceTermed(i, st);
    } else if c == ':' {
      MarkTermed(i, st, st, Op(":"));
      if st.ctx != [] {
        MarkTermed(i, st, WithTop(st, Fmt), FmtStart);
      }
    } else if c == ';' {
      MarkTermed(i, st, st, Term(true));
    } else if IsSingle(c) {
      MarkTermed(i, st, st, Op([c]));
    } else if c == BYTE_ORDER_MARK {
      StrayTermed(i, st, st.pos + 1);
    } else {
      StrayTermed(i, st, StrayEnd(i, st.pos + 1));
    }
    SingleAdvances(i, st);
  }

  lemma SingleAdvances(i: Input, st: State)
    requires st.pos < |i.text|
    ensures st.pos < SingleStep(i, st).pos <= |i.text|
  {
    hide IsSingle, Closes, BeginsNoToken;
  }

  lemma TokenTermed(i: Input, st: State)
    requires st.pos < |i.text| && Termed(i, st) && Nested(st)
    ensures TokenStep(i, st).pos <= |i.text| && Termed(i, TokenStep(i, st))
  {
    hide Termed, Nested, WordStep, QuoteStep, SingleStep, IsXidStart, LongestOperator, StartsAt, CharBody, WellBased,
         RunEnd, FractionEnd, ExponentEnd;
    TokenAdvances(i, st);
    var c := i.text[st.pos];
    var next := TokenStep(i, st);
    if IsXidStart(i, c) || c == '_' {
      WordTermed(i, st);
    } else if IsDigit(c) {
      QuietTokenTermed(i, st, next);
    } else if c == '"' {
      QuoteTermed(i, st);
    } else if c == '\'' {
      CharTermed(i, st);
    } else if StartsAt(i.text, st.pos, "#![") || StartsAt(i.text, st.pos, "#[") {
      QuietTokenTermed(i, st, next);
    } else if LongestOperator(i.text, st.pos, OPERATORS).Some? {
      QuietTokenTermed(i, st, next);
    } else {
      SingleTermed(i, st);
    }
  }

  lemma CharTermed(i: Input, st: State)
    requires Sees(i.text, st.pos, '\'') && Termed(i, st)
    ensures CharStep(i, st).pos <= |i.text| && Termed(i, CharStep(i, st))
  {
    hide Termed, CharBody;
    CharAdvances(i, st);
    QuietTokenTermed(i, st, CharStep(i, st));
  }

  // -- newlines ------------------------------------------------------------------------------------

  lemma {:induction false} InnermostAgrees(ctx: seq<Frame>)
    ensures Permits(Innermost(ctx)) == EndsLines(Layers(ctx))
    decreases |ctx|
  {
    if ctx != [] {
      assert Layers(ctx)[|ctx| - 1] == LayerOf(Top(ctx).value);
      InnermostAgrees(Pop(ctx));
      LayersAppend(ctx, Paren);
    }
  }

  lemma LastEndsAgrees(st: State)
    requires Tracked(Shapes(st.tokens), st.attrClose)
    ensures LastEnds(st) <==> AfterStatement(Shapes(st.tokens), |st.tokens|)
  {
    hide ClosesAttribute;
    if st.tokens != [] {
      var last := st.tokens[|st.tokens| - 1].tok;
      assert EndsStatement(Shape(last)) == EndsStatement(last);
    }
  }

  /** An inserted terminator obeys the law, whatever the innermost delimiter. */
  lemma InsertedIsLawful(st: State, at: nat)
    requires Lawful(Shapes(st.tokens)) && Tracked(Shapes(st.tokens), st.attrClose) && LastEnds(st)
    requires StackOf(Shapes(st.tokens)).Some?
    ensures var toks := Shapes(Push(st, IMPLICIT, at, at).tokens);
            && Tracked(toks, st.attrClose)
            && |toks| == |st.tokens| + 1 && toks[..|st.tokens|] == Shapes(st.tokens)
            && toks[|st.tokens|] == IMPLICIT && AfterStatement(toks, |st.tokens|)
            && (forall k :: 0 <= k < |st.tokens| ==> Rightful(toks, k) && !BeforeElse(toks, k))
            && (EndsLines(StackOf(Shapes(st.tokens)).value) ==> Lawful(toks))
  {
    hide StackOf, ClosesAttribute, EndsLines;
    var toks := Shapes(st.tokens);
    var more := Shapes(Push(st, IMPLICIT, at, at).tokens);
    ShapesAppend(st.tokens, Token(IMPLICIT, Span(at, at)));
    QuietIsTracked(toks, more, st.attrClose);
    LastEndsAgrees(st);
    var n := |toks|;
    PrefixLaw(toks, more, n - 1);
    assert more[..n] == toks;
    forall k | 0 <= k < n ensures Rightful(more, k) && !BeforeElse(more, k) {
      PrefixLaw(toks, more, k);
      assert Rightful(toks, k) && !BeforeElse(toks, k);
    }
  }

  lemma NewlineTermed(i: Input, st: State)
    requires st.pos < |i.text| && i.text[st.pos] == '\n' && Termed(i, st) && Nested(st)
    ensures Termed(i, InsertTerminator(i, st.(pos := st.pos + 1), st.pos))
  {
    hide Lawful, Tracked, StackOf, Deepest, ElseAt, EndsLines;
    var moved := st.(pos := st.pos + 1);
    assert ElseFollows(i, st.pos) == ElseFollows(i, st.pos + 1);
    InnermostAgrees(st.ctx);
    if LastEnds(moved) {
      InsertedIsLawful(moved, st.pos);
    }
  }

  lemma NormalTermed(i: Input, st: State)
    requires st.pos < |i.text| && Termed(i, st) && Nested(st)
    ensures NormalStep(i, st).pos <= |i.text| && Termed(i, NormalStep(i, st))
  {
    hide Lawful, Tracked, TokenStep, OpenPlain, InsertTerminator, ElseAt, Nested, GrowsQuietly;
    var c := i.text[st.pos];
    if c == '\n' {
      OpenPlainIsString(st.ctx, st.pos);
      match OpenPlain(st.ctx, st.pos)
      case Some(span) =>
        var faulty := Fault(st, "E0102", span.start, span.end);
        UnwindAdvances(faulty);
        UnwindIsQuiet(faulty);
        QuietKeeps(i, faulty, Unwind(faulty));
      case None =>
        InsertKeepsPos(i, st.(pos := st.pos + 1), st.pos);
        NewlineTermed(i, st);
    } else if IsInline(c) {
      assert ElseFollows(i, st.pos) == ElseFollows(i, st.pos + 1);
    } else if StartsAt(i.text, st.pos, "//") {
      assert i.text[st.pos] != 11 as char;
      assert ElseFollows(i, st.pos) == ElseFollows(i, RunEnd(i.text, st.pos + 2, NotNewline));
    } else {
      TokenTermed(i, st);
    }
  }

  lemma InsertKeepsPos(i: Input, st: State, at: nat)
    requires at < |i.text|
    ensures InsertTerminator(i, st, at).pos == st.pos
  {
  }

  lemma StepTermed(i: Input, st: State)
    requires st.pos < |i.text| && Termed(i, st) && Nested(st)
    ensures Step(i, st).pos <= |i.text| && Termed(i, Step(i, st))
  {
    hide Termed, Nested, NormalStep, FormatStep, BodyStep, GrowsQuietly;
    StepAdvances(i, st);
    match Top(st.ctx)
    case Some(Str(body)) =>
      assert TopIs(Layers(st.ctx), Literal);
      LiteralsFollowNoTerminator(st);
      BodyIsQuiet(i, st, body);
      QuietKeeps(i, st, Step(i, st));
    case Some(Fmt) =>
      assert TopIs(Layers(st.ctx), Spec);
      LiteralsFollowNoTerminator(st);
      FormatIsQuiet(i, st);
      QuietKeeps(i, st, Step(i, st));
    case _ => NormalTermed(i, st);
  }

  lemma {:induction false} ScanTermed(i: Input, st: State)
    requires st.pos <= |i.text| && Termed(i, st) && Nested(st)
    ensures Termed(i, Scan(i, st)) && Nested(Scan(i, st))
    decreases |i.text| - st.pos, |st.ctx|
  {
    hide Termed, Nested, Step;
    if st.pos < |i.text| {
      StepTermed(i, st);
      StepNests(i, st);
      StepAdvances(i, st);
      ScanTermed(i, Step(i, st));
    }
  }

  // -- the whole stream --------------------------------------------------------------------------------

  /** The scanned input with its open frames closed, before the last terminator. */
  function Drained(i: Input): State {
    var scanned := Scan(i, Begin(i));
    Drain(i, scanned.(openAtEof := scanned.ctx != []))
  }

  lemma DrainedIsLawful(i: Input)
    ensures var d := Drained(i);
            && Lawful(Shapes(d.tokens)) && Tracked(Shapes(d.tokens), d.attrClose)
            && Looser(d) && d.ctx == []
  {
    hide Lawful, Tracked, Scan, StackOf, Deepest, ElseFollows;
    var begin := Begin(i);
    BeginNests(i);
    assert Shapes([]) == [];
    NothingIsLawful();
    ScanTermed(i, begin);
    var scanned := Scan(i, begin);
    var open := scanned.(openAtEof := scanned.ctx != []);
    NestedIsLooser(open);
    DrainLoosens(i, open);
    DrainIsQuiet(i, open);
    var d := Drain(i, open);
    ShapesAreQuiet(d.tokens, |open.tokens|);
    QuietIsLawful(Shapes(open.tokens), Shapes(d.tokens));
    QuietIsTracked(Shapes(open.tokens), Shapes(d.tokens), open.attrClose);
  }

  lemma NothingIsLawful()
    ensures Lawful([]) && Tracked([], None) && !LastIsImplicit([])
  {
  }

  lemma {:induction false} DrainKeepsFlag(i: Input, st: State)
    ensures Drain(i, st).openAtEof == st.openAtEof
    ensures st.ctx == [] ==> Drain(i, st) == st
    decreases |st.ctx|
  {
    var end := |i.text|;
    if st.ctx != [] {
      match Top(st.ctx).value
      case Str(body) => DrainKeepsFlag(i, Push(Fault(Leave(st), "E0102", Less(body.start, 1), end), StrEnd, end, end));
      case Interp => DrainKeepsFlag(i, Push(Fault(Leave(st), "E0112", end, end), InterpEnd, end, end));
      case Fmt => DrainKeepsFlag(i, Push(Fault(Leave(st), "E0112", end, end), InterpEnd, end, end));
      case _ => DrainKeepsFlag(i, Leave(st));
    }
  }

  // -- what the drain leaves ----------------------------------------------------------------------------

  /** Interpolations and format specs stand inside literals. */
  ghost predicate Housed(stack: seq<Layer>) {
    forall k :: 0 <= k < |stack| && (stack[k] == Interpolation || stack[k] == Spec) ==>
      exists j :: 0 <= j < k && stack[j] == Literal
  }

  lemma HousedPush(stack: seq<Layer>, layer: Layer)
    requires Housed(stack)
    requires layer == Interpolation || layer == Spec ==> exists j :: 0 <= j < |stack| && stack[j] == Literal
    ensures Housed(stack + [layer])
  {
    var more := stack + [layer];
    forall k | 0 <= k < |more| && (more[k] == Interpolation || more[k] == Spec)
      ensures exists j :: 0 <= j < k && more[j] == Literal
    {
      var j :| 0 <= j < |stack| && j < k && stack[j] == Literal;
      assert more[j] == Literal;
    }
  }

  lemma HousedPrefix(stack: seq<Layer>, n: nat)
    requires Housed(stack) && n <= |stack|
    ensures Housed(stack[..n])
  {
    forall k | 0 <= k < n && (stack[k] == Interpolation || stack[k] == Spec)
      ensures exists j :: 0 <= j < k && stack[..n][j] == Literal
    {
      var j :| 0 <= j < k && stack[j] == Literal;
      assert stack[..n][j] == Literal;
    }
  }

  lemma {:induction false} SettledIsPrefix(stack: seq<Layer>) returns (n: nat)
    ensures n <= |stack| && Settled(stack) == stack[..n]
  {
    if stack != [] && IsDelimiter(stack[|stack| - 1]) {
      n := SettledIsPrefix(Outer(stack));
      assert Outer(stack)[..n] == stack[..n];
    } else {
      n := |stack|;
    }
  }

  lemma AfterIsHoused(stack: seq<Layer>, t: Tok)
    requires Housed(stack) && After(stack, t).Some?
    ensures Housed(After(stack, t).value)
  {
    hide Housed, Settled;
    HousedOuter(stack);
    match t
    case StrStart(_) => HousedPush(stack, Literal);
    case StrEnd => SettledIsHoused(stack);
    case InterpEnd => SettledIsHoused(stack);
    case InterpStart => InnerIsHoused(stack);
    case FmtStart => SpecIsHoused(stack);
    case LParen => HousedPush(stack, Round);
    case LBracket => HousedPush(stack, Square);
    case LBrace => HousedPush(stack, Curly);
    case HashBracket => HousedPush(stack, Attribute);
    case HashBangBracket => HousedPush(stack, Attribute);
    case _ =>
  }

  lemma HousedOuter(stack: seq<Layer>)
    requires Housed(stack)
    ensures Housed(Outer(stack))
  {
    if stack != [] {
      HousedPrefix(stack, |stack| - 1);
    }
  }

  lemma SettledIsHoused(stack: seq<Layer>)
    requires Housed(stack)
    ensures Housed(Settled(stack)) && Housed(Outer(Settled(stack)))
  {
    hide Housed;
    var n := SettledIsPrefix(stack);
    HousedPrefix(stack, n);
    HousedOuter(Settled(stack));
  }

  lemma InnerIsHoused(stack: seq<Layer>)
    requires Housed(stack) && (TopIs(stack, Literal) || TopIs(stack, Spec))
    ensures Housed(stack + [Interpolation])
  {
    var top := |stack| - 1;
    if stack[top] == Literal {
      assert stack[top] == Literal;
    } else {
      var j :| 0 <= j < top && stack[j] == Literal;
    }
    HousedPush(stack, Interpolation);
  }

  lemma SpecIsHoused(stack: seq<Layer>)
    requires Housed(stack) && TopIs(stack, Interpolation)
    ensures Housed(Outer(stack) + [Spec])
  {
    var top := |stack| - 1;
    var j :| 0 <= j < top && stack[j] == Literal;
    assert Outer(stack)[j] == Literal;
    HousedOuter(stack);
    HousedPush(Outer(stack), Spec);
  }

  lemma {:induction false} StackIsHoused(toks: seq<Tok>)
    requires StackOf(toks).Some?
    ensures Housed(StackOf(toks).value)
    decreases |toks|
  {
    hide Housed, After;
    if toks == [] {
      assert Housed([]) by { NothingIsHoused(); }
    } else {
      StackIsHoused(toks[..|toks| - 1]);
      AfterIsHoused(StackOf(toks[..|toks| - 1]).value, toks[|toks| - 1]);
    }
  }

  lemma NothingIsHoused()
    ensures Housed([])
  {
  }

  /** The delimiters outside every literal. */
  function LoosePart(stack: seq<Layer>): seq<Layer> {
    if stack == [] || !IsDelimiter(stack[0]) then [] else [stack[0]] + LoosePart(stack[1..])
  }

  lemma {:induction false} LoosePartStops(outer: seq<Layer>, layer: Layer, inner: seq<Layer>)
    requires !IsDelimiter(layer)
    ensures LoosePart(outer + [layer] + inner) == LoosePart(outer)
    decreases |outer|
  {
    var all := outer + [layer] + inner;
    if outer == [] {
      assert all[0] == layer;
    } else {
      assert all[1..] == outer[1..] + [layer] + inner;
      LoosePartStops(outer[1..], layer, inner);
    }
  }

  lemma {:induction false} LooseIsWhole(stack: seq<Layer>)
    requires Loose(stack)
    ensures LoosePart(stack) == stack
  {
    if stack != [] {
      assert IsDelimiter(stack[0]);
      LooseIsWhole(stack[1..]);
      assert [stack[0]] + stack[1..] == stack;
    }
  }

  /** Closing the innermost frame. */
  function TopClosed(i: Input, st: State): State
    requires st.ctx != []
  {
    var end := |i.text|;
    match Top(st.ctx).value
    case Str(body) => Push(Fault(Leave(st), "E0102", Less(body.start, 1), end), StrEnd, end, end)
    case Interp => Push(Fault(Leave(st), "E0112", end, end), InterpEnd, end, end)
    case Fmt => Push(Fault(Leave(st), "E0112", end, end), InterpEnd, end, end)
    case _ => Leave(st)
  }

  lemma DrainUnfolds(i: Input, st: State)
    ensures st.ctx == [] ==> Drain(i, st) == st
    ensures st.ctx != [] ==> Drain(i, st) == Drain(i, TopClosed(i, st)) && TopClosed(i, st).ctx == Pop(st.ctx)
  {
  }

  lemma TopClosedLoosens(i: Input, st: State)
    requires Looser(st) && st.ctx != []
    ensures Looser(TopClosed(i, st))
    ensures LoosePart(StackOf(Shapes(TopClosed(i, st).tokens)).value) == LoosePart(StackOf(Shapes(st.tokens)).value)
  {
    hide StackOf, Looser, LoosePart;
    var top, next := Top(st.ctx).value, TopClosed(i, st);
    if IsDelimiter(LayerOf(top)) {
      DropLoosens(st);
    } else {
      LiteralLoosens(st, next, Token(if top.Str? then StrEnd else InterpEnd, Span(|i.text|, |i.text|)));
    }
  }

  lemma LiteralLoosens(st: State, next: State, t: Token)
    requires Looser(st) && st.ctx != [] && !IsDelimiter(LayerOf(Top(st.ctx).value))
    requires t.tok == if Top(st.ctx).value.Str? then StrEnd else InterpEnd
    requires next.tokens == st.tokens + [t] && next.deepest == st.deepest && next.ctx == Pop(st.ctx)
    ensures Looser(next) && LoosePart(StackOf(Shapes(next.tokens)).value) == LoosePart(StackOf(Shapes(st.tokens)).value)
  {
    EndNests(st, next, t);
    NestedIsLooser(next);
    hide StackOf, Deepest, LoosePart;
    var inner := InnerOf(st);
    var top := Top(st.ctx).value;
    LayersAppend(Pop(st.ctx), top);
    assert Pop(st.ctx) + [top] == st.ctx;
    LoosePartStops(Layers(Pop(st.ctx)), LayerOf(top), inner);
  }

  lemma InnerOf(st: State) returns (inner: seq<Layer>)
    requires Looser(st)
    ensures StackOf(Shapes(st.tokens)).value == Layers(st.ctx) + inner && Loose(inner)
  {
    hide StackOf, Deepest;
    var x: seq<Layer> :| StackOf(Shapes(st.tokens)).value == Layers(st.ctx) + x && Loose(x);
    inner := x;
  }

  /** Closing the literals leaves open what was open outside them. */
  lemma {:induction false} DrainLeavesLoosePart(i: Input, st: State)
    requires Looser(st)
    ensures StackOf(Shapes(Drain(i, st).tokens)) == Some(LoosePart(StackOf(Shapes(st.tokens)).value))
    decreases |st.ctx|
  {
    DrainUnfolds(i, st);
    if st.ctx == [] {
      OnlyLoose(st);
    } else {
      hide Drain, TopClosed, Looser, StackOf, LoosePart;
      TopClosedLoosens(i, st);
      DrainLeavesLoosePart(i, TopClosed(i, st));
    }
  }

  lemma OnlyLoose(st: State)
    requires Looser(st) && st.ctx == []
    ensures StackOf(Shapes(st.tokens)) == Some(LoosePart(StackOf(Shapes(st.tokens)).value))
  {
    hide StackOf, Deepest, LoosePart;
    var stack := StackOf(Shapes(st.tokens)).value;
    var inner: seq<Layer> :| stack == Layers(st.ctx) + inner && Loose(inner);
    assert stack == inner;
    LooseIsWhole(stack);
  }

  /** The frames outside the outermost open string. */
  function Outside(ctx: seq<Frame>): (r: seq<Frame>)
    ensures r <= ctx
  {
    if ctx == [] || ctx[0].Str? then [] else [ctx[0]] + Outside(ctx[1..])
  }

  lemma {:induction false} OutsideMeans(ctx: seq<Frame>)
    ensures |Outside(ctx)| < |ctx| <==> exists k :: 0 <= k < |ctx| && ctx[k].Str?
  {
    if ctx != [] && !ctx[0].Str? {
      OutsideMeans(ctx[1..]);
      if k :| 0 <= k < |ctx| && ctx[k].Str? {
        assert ctx[1..][k - 1].Str?;
      }
      if k :| 0 <= k < |ctx| - 1 && ctx[1..][k].Str? {
        assert ctx[k + 1].Str?;
      }
    }
  }

  lemma {:induction false} OutsideIsLoosePart(ctx: seq<Frame>)
    requires forall k :: 0 <= k < |Outside(ctx)| ==> IsDelimiter(LayerOf(ctx[k]))
    ensures LoosePart(Layers(ctx)) == Layers(Outside(ctx))
  {
    hide LoosePart, IsDelimiter, LayerOf;
    if ctx == [] {
      assert LoosePart([]) == [] by { LooseIsWhole([]); }
    } else {
      var f, rest := ctx[0], ctx[1..];
      LayersFirst(ctx);
      LooseFirst(LayerOf(f), Layers(rest));
      if f.Str? {
        StringIsLiteral(f);
      } else {
        var outside := Outside(rest);
        assert Outside(ctx) == [f] + outside;
        assert IsDelimiter(LayerOf(ctx[0]));
        forall k | 0 <= k < |outside| ensures IsDelimiter(LayerOf(rest[k])) {
          assert rest[k] == ctx[k + 1];
        }
        OutsideIsLoosePart(rest);
        LayersFirst([f] + outside);
        assert ([f] + outside)[1..] == outside;
      }
    }
  }

  lemma StringIsLiteral(f: Frame)
    requires f.Str?
    ensures !IsDelimiter(LayerOf(f)) && Layers([]) == []
  {
  }

  lemma LayersFirst(ctx: seq<Frame>)
    requires ctx != []
    ensures Layers(ctx) == [LayerOf(ctx[0])] + Layers(ctx[1..])
  {
  }

  lemma LooseFirst(layer: Layer, rest: seq<Layer>)
    ensures LoosePart([layer] + rest) == if IsDelimiter(layer) then [layer] + LoosePart(rest) else []
  {
    assert ([layer] + rest)[1..] == rest;
  }

  /** When the text runs out, the innermost delimiter outside every string is a parenthesis or a
    bracket, and either a string is still open or the last token ends a statement. */
  predicate EndsOpen(i: Input) {
    var st := Scan(i, Begin(i));
    var outside := Outside(st.ctx);
    && outside != [] && (var last := outside[|outside| - 1]; last.Paren? || last.Bracket? || last.AttrBracket?)
    && (|outside| < |st.ctx| || LastEnds(st))
  }

  lemma EndsOpenIsOpen(i: Input)
    requires EndsOpen(i)
    ensures Lex(i).openAtEof
  {
    hide LastEnds;
    var scanned := Scan(i, Begin(i));
    DrainKeepsFlag(i, scanned.(openAtEof := true));
  }

  /** Closing a string leaves a token that ends a statement; closing a delimiter leaves none. */
  lemma {:induction false} DrainEnds(i: Input, st: State)
    requires Housed(Layers(st.ctx)) && (st.attrClose.Some? ==> st.attrClose.value < |st.tokens|)
    ensures LastEnds(Drain(i, st)) <==> |Outside(st.ctx)| < |st.ctx| || LastEnds(st)
    decreases |st.ctx|
  {
    DrainUnfolds(i, st);
    if st.ctx != [] {
      hide Housed, Drain;
      HousedPop(st.ctx);
      TopClosedEnds(i, st);
      DrainEnds(i, TopClosed(i, st));
      OutsideOfPop(st.ctx);
    }
  }

  lemma TopClosedEnds(i: Input, st: State)
    requires st.ctx != [] && Housed(Layers(st.ctx)) && (st.attrClose.Some? ==> st.attrClose.value < |st.tokens|)
    ensures var next := TopClosed(i, st);
            && (next.attrClose.Some? ==> next.attrClose.value < |next.tokens|)
            && (Top(st.ctx).value.Str? ==> LastEnds(next))
            && (Top(st.ctx).value.Interp? || Top(st.ctx).value.Fmt? ==>
                  exists k :: 0 <= k < |Pop(st.ctx)| && Pop(st.ctx)[k].Str?)
            && (IsDelimiter(LayerOf(Top(st.ctx).value)) ==> LastEnds(next) == LastEnds(st))
  {
    hide Housed;
    if Top(st.ctx).value.Interp? || Top(st.ctx).value.Fmt? {
      HousedTop(st.ctx);
    }
  }

  lemma OutsideOfPop(ctx: seq<Frame>)
    requires ctx != []
    ensures |Outside(ctx)| < |ctx| <==> Top(ctx).value.Str? || |Outside(Pop(ctx))| < |Pop(ctx)|
    ensures (exists k :: 0 <= k < |Pop(ctx)| && Pop(ctx)[k].Str?) <==> |Outside(Pop(ctx))| < |Pop(ctx)|
  {
    hide Outside;
    OutsideMeans(ctx);
    OutsideMeans(Pop(ctx));
    var last := |ctx| - 1;
    assert forall k :: 0 <= k < last ==> Pop(ctx)[k] == ctx[k];
    if exists k :: 0 <= k < last && Pop(ctx)[k].Str? {
      var k :| 0 <= k < last && Pop(ctx)[k].Str?;
      assert ctx[k].Str?;
    }
    assert Top(ctx).value == ctx[last];
  }

  lemma HousedPop(ctx: seq<Frame>)
    requires Housed(Layers(ctx))
    ensures Housed(Layers(Pop(ctx)))
  {
    LayersAppend(ctx, Paren);
    HousedOuter(Layers(ctx));
  }

  /** An open interpolation has an open string outside it. */
  lemma HousedTop(ctx: seq<Frame>)
    requires Housed(Layers(ctx)) && ctx != [] && (Top(ctx).value.Interp? || Top(ctx).value.Fmt?)
    ensures exists k :: 0 <= k < |Pop(ctx)| && Pop(ctx)[k].Str?
  {
    var stack, top := Layers(ctx), |ctx| - 1;
    assert stack[top] == Interpolation || stack[top] == Spec;
    var j :| 0 <= j < top && stack[j] == Literal;
    assert Pop(ctx)[j].Str?;
  }

  lemma LastIsLine(stack: seq<Layer>)
    requires Loose(stack)
    ensures EndsLines(stack) <==> stack == [] || stack[|stack| - 1] == Curly
  {
  }

  /** What is open when the text runs out settles whether the last terminator breaks the law. */
  lemma OpenAtTheEnd(i: Input)
    ensures var d := Drained(i);
            && StackOf(Shapes(d.tokens)).Some?
            && (EndsOpen(i) <==> LastEnds(d) && !EndsLines(StackOf(Shapes(d.tokens)).value))
  {
    hide Scan, StackOf, LastEnds, EndsLines, Housed, LoosePart, Deepest, Lawful, Tracked, ElseFollows, Drain, Outside;
    BeginNests(i);
    NothingIsLawful();
    ScanTermed(i, Begin(i));
    var st := Scan(i, Begin(i));
    var open := st.(openAtEof := st.ctx != []);
    StackIsHoused(Shapes(st.tokens));
    CloseIsTracked(st);
    DrainEnds(i, open);
    SameLast(open, st);
    NestedIsLooser(open);
    DrainLeavesLoosePart(i, open);
    OutsideDecides(st.ctx);
  }

  /** Whether lines end statements outside the strings depends on the innermost frame there. */
  lemma OutsideDecides(ctx: seq<Frame>)
    requires Housed(Layers(ctx))
    ensures var outside := Outside(ctx);
            !EndsLines(LoosePart(Layers(ctx))) <==>
              outside != [] && var last := outside[|outside| - 1]; last.Paren? || last.Bracket? || last.AttrBracket?
  {
    hide Housed, LoosePart, Outside, EndsLines;
    OutsideIsLoose(ctx);
    OutsideIsLoosePart(ctx);
    var outside := Outside(ctx);
    assert forall k :: 0 <= k < |outside| ==> outside[k] == ctx[k];
    assert Loose(Layers(outside));
    LastIsLine(Layers(outside));
    if outside != [] {
      assert IsDelimiter(LayerOf(outside[|outside| - 1]));
    }
  }

  lemma SameLast(a: State, b: State)
    requires a.tokens == b.tokens && a.attrClose == b.attrClose
    ensures LastEnds(a) == LastEnds(b)
  {
  }

  lemma CloseIsTracked(st: State)
    requires Tracked(Shapes(st.tokens), st.attrClose)
    ensures st.attrClose.Some? ==> st.attrClose.value < |st.tokens|
  {
  }

  lemma OutsideIsLoose(ctx: seq<Frame>)
    requires Housed(Layers(ctx))
    ensures forall k :: 0 <= k < |Outside(ctx)| ==> IsDelimiter(LayerOf(ctx[k]))
  {
    hide Housed, Outside;
    OutsideHasNoString(ctx);
    forall k | 0 <= k < |Outside(ctx)| ensures IsDelimiter(LayerOf(ctx[k])) {
      NotInside(Layers(ctx), k);
      assert Layers(ctx)[k] == LayerOf(ctx[k]);
    }
  }

  lemma NotInside(stack: seq<Layer>, k: nat)
    requires Housed(stack) && k < |stack| && forall j :: 0 <= j < k ==> stack[j] != Literal
    ensures stack[k] != Interpolation && stack[k] != Spec
  {
  }

  lemma {:induction false} OutsideHasNoString(ctx: seq<Frame>)
    ensures forall k :: 0 <= k < |Outside(ctx)| ==> !ctx[k].Str?
  {
    if ctx != [] && !ctx[0].Str? {
      OutsideHasNoString(ctx[1..]);
      forall k | 0 <= k < |Outside(ctx)| ensures !ctx[k].Str? {
        if k > 0 {
          assert ctx[1..][k - 1] == ctx[k];
        }
      }
    }
  }

  lemma LexIsTerminated(i: Input)
    ensures var d := Drained(i);
            Lex(i) == if LastEnds(d) then Push(d, IMPLICIT, |i.text|, |i.text|) else d
  {
    hide Scan;
    DrainedIsLawful(i);
  }

  lemma TerminatorStands(i: Input, k: nat)
    requires k < |Lex(i).tokens| && Lex(i).tokens[k].tok == IMPLICIT
    ensures var toks := Shapes(Lex(i).tokens);
            AfterStatement(toks, k) && !BeforeElse(toks, k) && (Permitted(toks, k) <==> !(EndsOpen(i) && k == |toks| - 1))
  {
    hide StackOf, Scan, Drained, ClosesAttribute, EndsLines, EndsStatement, EndsOpen;
    DrainedIsLawful(i);
    LexIsTerminated(i);
    OpenAtTheEnd(i);
    var d := Drained(i);
    var toks := Shapes(Lex(i).tokens);
    if LastEnds(d) {
      InsertedIsLawful(d, |i.text|);
      assert k < |d.tokens| ==> Rightful(toks, k) && !BeforeElse(toks, k);
      assert k == |d.tokens| ==> toks[..k] == Shapes(d.tokens);
    } else {
      assert Rightful(toks, k) && !BeforeElse(toks, k);
    }
  }

  /** Every inserted terminator directly follows a token that ends a statement, other than an
    attribute's bracket; none precedes `else` or another one; and none stands where the
    innermost delimiter is a parenthesis, a bracket or an interpolation, save the one at
    the very end of an input that is left open there. */
  lemma TerminatorLaw(i: Input, k: nat)
    requires k < |Lex(i).tokens| && Lex(i).tokens[k].tok == IMPLICIT
    ensures var toks := Shapes(Lex(i).tokens);
            && AfterStatement(toks, k)
            && (k + 1 < |toks| ==> toks[k + 1] != Kw("else") && toks[k + 1] != IMPLICIT)
            && (Permitted(toks, k) <==> !(EndsOpen(i) && k == |toks| - 1))
  {
    hide Lex, EndsOpen, ClosesAttribute, Permitted;
    TerminatorStands(i, k);
    var toks := Shapes(Lex(i).tokens);
    if k + 1 < |toks| && toks[k + 1] == IMPLICIT {
      TerminatorStands(i, k + 1);
      assert false;
    }
  }

  /** The law holds without exception if and only if the text does not run out inside a
    parenthesis or bracket right after a statement or inside a string. */
  lemma LawfulUnlessOpen(i: Input)
    ensures Lawful(Shapes(Lex(i).tokens)) <==> !EndsOpen(i)
  {
    hide StackOf, Scan, Drained, ClosesAttribute, EndsLines, EndsStatement, EndsOpen;
    DrainedIsLawful(i);
    LexIsTerminated(i);
    OpenAtTheEnd(i);
    var d := Drained(i);
    if LastEnds(d) {
      InsertedIsLawful(d, |i.text|);
      var toks := Shapes(Lex(i).tokens);
      assert toks[..|d.tokens|] == Shapes(d.tokens);
      assert Rightful(toks, |d.tokens|) ==> Permitted(toks, |d.tokens|);
    }
  }

  /** When every delimiter is closed, no exception is needed. */
  lemma ClosedInputIsLawful(i: Input)
    requires !Lex(i).openAtEof
    ensures Lawful(Shapes(Lex(i).tokens))
  {
    hide Lex, EndsOpen, Lawful;
    LawfulUnlessOpen(i);
    if EndsOpen(i) {
      EndsOpenIsOpen(i);
    }
  }

  const UNCLOSED := "(1"

  lemma UnclosedScans(i: Input)
    requires i.text == UNCLOSED
    ensures var s := Scan(i, Begin(i));
            && s.tokens == [Token(LParen, Span(0, 1)), Token(Int("1"), Span(1, 2))]
            && s.ctx == [Paren] && s.attrClose == None && s.pos == 2
  {
    hide LongestOperator, NumberStep;
    var one := Emit(Enter(Begin(i), Paren), LParen, 0, 1);
    NothingOperates(i.text);
    assert Step(i, Begin(i)) == one;
    UnclosedNumber(i, one);
    assert Scan(i, Begin(i)) == Scan(i, one);
  }

  lemma UnclosedNumber(i: Input, one: State)
    requires i.text == UNCLOSED && one.pos == 1 && one.ctx == [Paren]
    ensures Step(i, one) == Emit(one, Int("1"), 1, 2)
    ensures Scan(i, one) == Emit(one, Int("1"), 1, 2)
  {
    assert RunEnd(i.text, 1, IsDecimal) == 2;
    assert i.text[1..2] == "1";
    assert Step(i, one) == NumberStep(i, one);
    assert Scan(i, one) == Scan(i, Step(i, one));
  }

  /** The exception is real: the number in an unclosed parenthesis gets a terminator. */
  lemma UnclosedParenIsTerminated(u: Unicode)
    ensures var i := Input(UNCLOSED, u);
            && Lex(i).openAtEof && |Lex(i).tokens| == 3 && Lex(i).tokens[2].tok == IMPLICIT
            && !Permitted(Shapes(Lex(i).tokens), 2)
  {
    hide Scan, StackOf;
    var i := Input(UNCLOSED, u);
    UnclosedScans(i);
    var scanned := Scan(i, Begin(i));
    var open := scanned.(openAtEof := true);
    assert Drain(i, Leave(open)) == Leave(open);
    assert Drain(i, open) == Leave(open);
    assert Closed(i, scanned) == Terminated(i, Leave(open));
    var toks := Shapes(Lex(i).tokens);
    assert toks[..2] == [LParen, Int("1")];
    UnclosedStack();
  }

  lemma UnclosedStack()
    ensures StackOf([LParen, Int("1")]) == Some([Round])
  {
    assert [LParen, Int("1")][..1] == [LParen] && [LParen][..0] == [];
    var none: seq<Layer> := [];
    assert StackOf([]) == Some(none) && none + [Round] == [Round];
    assert After(none, LParen) == Some([Round]);
    assert StackOf([LParen]) == Some([Round]);
  }

  lemma NothingOperates(text: string)
    requires text == UNCLOSED
    ensures LongestOperator(text, 0, OPERATORS) == None
  {
    forall op | op in OPERATORS ensures !StartsAt(text, 0, op) {
      assert op[0] != '(';
    }
    NoOperator(text, 0, OPERATORS);
  }

  lemma {:induction false} NoOperator(text: string, at: nat, ops: seq<string>)
    requires forall op :: op in ops ==> !StartsAt(text, at, op)
    ensures LongestOperator(text, at, ops) == None
  {
    if ops != [] {
      NoOperator(text, at, ops[1..]);
    }
  }
}
