/** Every token the lexer emits sits in a legal mode, and its literals nest.

  `After` reads a token stream knowing nothing of the lexer: it tracks which delimiters
  and literals a stream has open and refuses a token its mode has no room for.  The
  lexer's context stack is exactly what that reading leaves open. */
module LexNesting {
  import opened Wrappers
  import opened LexModel

  datatype Layer = Round | Square | Attribute | Curly | Interpolation | Spec | Literal

  // -- reading a stream ---------------------------------------------------------------

  /** What a token is, whatever text it carries. */
  function Shape(t: Tok): Tok {
    if t.StrText? then StrText("") else t
  }

  function Shapes(tokens: seq<Token>): (r: seq<Tok>)
    ensures |r| == |tokens|
    ensures forall k :: 0 <= k < |r| ==> r[k] == Shape(tokens[k].tok)
  {
    seq(|tokens|, k requires 0 <= k < |tokens| => Shape(tokens[k].tok))
  }

  function Outer(stack: seq<Layer>): (r: seq<Layer>)
    ensures stack != [] ==> |r| == |stack| - 1
  {
    if stack == [] then [] else stack[..|stack| - 1]
  }

  predicate TopIs(stack: seq<Layer>, layer: Layer) {
    stack != [] && stack[|stack| - 1] == layer
  }

  predicate IsDelimiter(layer: Layer) {
    layer == Round || layer == Square || layer == Attribute || layer == Curly
  }

  /** A literal's end abandons the delimiters left open inside it. */
  function Settled(stack: seq<Layer>): seq<Layer> {
    if stack != [] && IsDelimiter(stack[|stack| - 1]) then Settled(Outer(stack)) else stack
  }

  predicate InCode(stack: seq<Layer>) {
    !TopIs(stack, Literal) && !TopIs(stack, Spec)
  }

  function Pushed(stack: seq<Layer>, layer: Layer): Option<seq<Layer>> {
    if InCode(stack) then Some(stack + [layer]) else None
  }

  function Popped(stack: seq<Layer>, layer: Layer): Option<seq<Layer>> {
    if !InCode(stack) then None
    else if TopIs(stack, layer) || (layer == Square && TopIs(stack, Attribute)) then Some(Outer(stack))
    else Some(stack)
  }

  function Kept(stack: seq<Layer>, ok: bool): Option<seq<Layer>> {
    if ok then Some(stack) else None
  }

  /** What is open after one more token, or nothing if the token is out of place. */
  function After(stack: seq<Layer>, t: Tok): Option<seq<Layer>> {
    match t
    case StrStart(_) => Pushed(stack, Literal)
    case StrText(_) => Kept(stack, TopIs(stack, Literal))
    case StrEnd => if TopIs(Settled(stack), Literal) then Some(Outer(Settled(stack))) else None
    case InterpStart =>
      if TopIs(stack, Literal) || TopIs(stack, Spec) then Some(stack + [Interpolation]) else None
    case InterpEnd =>
      var s := Settled(stack);
      if TopIs(s, Interpolation) || TopIs(s, Spec) then Some(Outer(s)) else None
    case FmtStart => if TopIs(stack, Interpolation) then Some(Outer(stack) + [Spec]) else None
    case FmtText(_) => Kept(stack, TopIs(stack, Spec))
    case LParen => Pushed(stack, Round)
    case LBracket => Pushed(stack, Square)
    case LBrace => Pushed(stack, Curly)
    case HashBracket => Pushed(stack, Attribute)
    case HashBangBracket => Pushed(stack, Attribute)
    case RParen => Popped(stack, Round)
    case RBracket => Popped(stack, Square)
    case RBrace => Popped(stack, Curly)
    case _ => Kept(stack, InCode(stack))
  }

  function StackOf(toks: seq<Tok>): Option<seq<Layer>>
    decreases |toks|
  {
    if toks == [] then Some([])
    else
      match StackOf(toks[..|toks| - 1])
      case None => None
      case Some(stack) => After(stack, toks[|toks| - 1])
  }

  function Literals(stack: seq<Layer>): nat {
    if stack == [] then 0 else Literals(Outer(stack)) + if TopIs(stack, Literal) then 1 else 0
  }

  function Most(a: nat, b: nat): nat {
    if a < b then b else a
  }

  /** The greatest number of literals open at once. */
  function Deepest(toks: seq<Tok>): nat
    decreases |toks|
  {
    if toks == [] then 0
    else Most(Deepest(toks[..|toks| - 1]), Literals(StackOf(toks).GetOr([])))
  }

  // -- the lexer's own stack -------------------------------------------------------------

  function LayerOf(f: Frame): Layer {
    match f
    case Paren => Round
    case Bracket => Square
    case AttrBracket => Attribute
    case Brace => Curly
    case Interp => Interpolation
    case Fmt => Spec
    case Str(_) => Literal
  }

  function Layers(ctx: seq<Frame>): (r: seq<Layer>)
    ensures |r| == |ctx|
    ensures forall k :: 0 <= k < |r| ==> r[k] == LayerOf(ctx[k])
  {
    seq(|ctx|, k requires 0 <= k < |ctx| => LayerOf(ctx[k]))
  }

  ghost predicate Nested(st: State) {
    && StackOf(Shapes(st.tokens)) == Some(Layers(st.ctx))
    && st.deepest == Deepest(Shapes(st.tokens))
  }

  // -- one token ---------------------------------------------------------------------------

  lemma LayersAppend(ctx: seq<Frame>, f: Frame)
    ensures Layers(ctx + [f]) == Layers(ctx) + [LayerOf(f)]
    ensures ctx != [] ==> Layers(Pop(ctx)) == Outer(Layers(ctx))
  {
  }

  lemma {:induction false} DepthIsLiterals(ctx: seq<Frame>)
    ensures StringDepth(ctx) == Literals(Layers(ctx))
    decreases |ctx|
  {
    if ctx != [] {
      DepthIsLiterals(Pop(ctx));
      LayersAppend(ctx, Paren);
    }
  }

  lemma {:induction false} SettledHasAsMany(stack: seq<Layer>)
    ensures Literals(Settled(stack)) == Literals(stack)
  {
    if stack != [] && IsDelimiter(stack[|stack| - 1]) {
      SettledHasAsMany(Outer(stack));
    }
  }

  lemma AppendedLiterals(stack: seq<Layer>, layer: Layer)
    ensures Literals(stack + [layer]) == Literals(stack) + if layer == Literal then 1 else 0
  {
    assert Outer(stack + [layer]) == stack;
  }

  lemma OnlyStringsDeepen(stack: seq<Layer>, t: Tok)
    requires After(stack, t).Some? && !t.StrStart?
    ensures Literals(After(stack, t).value) <= Literals(stack)
  {
    hide Settled;
    match t
    case StrEnd => SettledHasAsMany(stack);
    case InterpEnd => SettledHasAsMany(stack);
    case InterpStart => AppendedLiterals(stack, Interpolation);
    case FmtStart => AppendedLiterals(Outer(stack), Spec);
    case LParen => AppendedLiterals(stack, Round);
    case LBracket => AppendedLiterals(stack, Square);
    case LBrace => AppendedLiterals(stack, Curly);
    case HashBracket => AppendedLiterals(stack, Attribute);
    case HashBangBracket => AppendedLiterals(stack, Attribute);
    case _ =>
  }

  lemma {:induction false} OpenIsCounted(toks: seq<Tok>)
    requires StackOf(toks).Some?
    ensures Literals(StackOf(toks).value) <= Deepest(toks)
  {
  }

  lemma ShapesAppend(tokens: seq<Token>, t: Token)
    ensures Shapes(tokens + [t]) == Shapes(tokens) + [Shape(t.tok)]
  {
  }

  lemma ReadOne(toks: seq<Tok>, t: Tok)
    ensures StackOf(toks + [t]) == match StackOf(toks) { case Some(s) => After(s, t) case None => None }
    ensures Deepest(toks + [t]) == Most(Deepest(toks), Literals(StackOf(toks + [t]).GetOr([])))
  {
    assert (toks + [t])[..|toks|] == toks;
  }

  /** Emitting a token that the context allows. */
  lemma PushNests(st: State, next: State, t: Token)
    requires Nested(st) && !t.tok.StrStart?
    requires next.tokens == st.tokens + [t] && next.deepest == st.deepest
    requires After(Layers(st.ctx), Shape(t.tok)) == Some(Layers(next.ctx))
    ensures Nested(next)
  {
    hide StackOf, Deepest, Literals, After;
    var toks := Shapes(st.tokens);
    ShapesAppend(st.tokens, t);
    ReadOne(toks, Shape(t.tok));
    OnlyStringsDeepen(Layers(st.ctx), Shape(t.tok));
    OpenIsCounted(toks);
  }

  lemma OpenNests(st: State, kind: StrKind, start: nat, body: nat)
    requires Nested(st) && InCode(Layers(st.ctx))
    ensures Nested(OpenString(st, kind, start, body))
  {
    hide StackOf, Deepest, Literals, StringDepth, InCode;
    var next := OpenString(st, kind, start, body);
    var toks := Shapes(st.tokens);
    var t := Token(StrStart(kind), Span(start, body));
    ShapesAppend(st.tokens, t);
    ReadOne(toks, StrStart(kind));
    var f := Str(Body(kind, body, "", body, [], []));
    LayersAppend(st.ctx, f);
    DepthIsLiterals(st.ctx + [f]);
    assert next.ctx == st.ctx + [f];
    assert next.tokens == st.tokens + [t];
  }

  // -- closing frames --------------------------------------------------------------------------

  /** The stream still has open what `ctx` has, and maybe delimiters inside it. */
  ghost predicate Looser(st: State) {
    && StackOf(Shapes(st.tokens)).Some?
    && st.deepest == Deepest(Shapes(st.tokens))
    && exists inner: seq<Layer> :: StackOf(Shapes(st.tokens)).value == Layers(st.ctx) + inner && Loose(inner)
  }

  predicate Loose(inner: seq<Layer>) {
    forall k :: 0 <= k < |inner| ==> IsDelimiter(inner[k])
  }

  lemma {:induction false} SettlesTo(stack: seq<Layer>, inner: seq<Layer>)
    requires Loose(inner) && (stack == [] || !IsDelimiter(stack[|stack| - 1]))
    ensures Settled(stack + inner) == stack
    decreases |inner|
  {
    if inner == [] {
      assert stack + inner == stack;
    } else {
      assert Outer(stack + inner) == stack + inner[..|inner| - 1];
      SettlesTo(stack, inner[..|inner| - 1]);
    }
  }

  /** Dropping a delimiter the stream never closed. */
  lemma DropLoosens(st: State)
    requires Looser(st) && st.ctx != [] && IsDelimiter(LayerOf(Top(st.ctx).value))
    ensures Looser(Leave(st))
  {
    hide StackOf, Deepest;
    var inner: seq<Layer> :| StackOf(Shapes(st.tokens)).value == Layers(st.ctx) + inner && Loose(inner);
    LayersAppend(st.ctx, Paren);
    var more := [LayerOf(Top(st.ctx).value)] + inner;
    assert Layers(Leave(st).ctx) + more == Layers(st.ctx) + inner;
    assert Loose(more);
  }

  /** Closing the literal frame on top. */
  lemma EndNests(st: State, next: State, t: Token)
    requires Looser(st) && st.ctx != []
    requires t.tok == if Top(st.ctx).value.Str? then StrEnd else InterpEnd
    requires Top(st.ctx).value.Str? || Top(st.ctx).value.Interp? || Top(st.ctx).value.Fmt?
    requires next.tokens == st.tokens + [t] && next.deepest == st.deepest && next.ctx == Pop(st.ctx)
    ensures Nested(next)
  {
    hide StackOf, Deepest, Literals;
    var toks := Shapes(st.tokens);
    var stack := StackOf(toks).value;
    var inner: seq<Layer> :| stack == Layers(st.ctx) + inner && Loose(inner);
    LayersAppend(st.ctx, Paren);
    SettlesTo(Layers(st.ctx), inner);
    ShapesAppend(st.tokens, t);
    ReadOne(toks, t.tok);
    OnlyStringsDeepen(stack, t.tok);
    OpenIsCounted(toks);
  }

  lemma NestedIsLooser(st: State)
    requires Nested(st)
    ensures Looser(st)
  {
    hide StackOf, Deepest;
    assert Layers(st.ctx) + [] == Layers(st.ctx) && Loose([]);
  }

  lemma {:induction false} UnwindNests(st: State)
    requires Looser(st) && InnermostString(st.ctx).Some?
    ensures Nested(Unwind(st))
    decreases |st.ctx|
  {
    hide StackOf, Deepest, Nested, Looser;
    match Top(st.ctx).value
    case Str(_) =>
      EndNests(st, Unwind(st), Token(StrEnd, Span(st.pos, st.pos)));
    case Interp =>
      var next := Push(Leave(st), InterpEnd, st.pos, st.pos);
      EndNests(st, next, Token(InterpEnd, Span(st.pos, st.pos)));
      NestedIsLooser(next);
      UnwindNests(next);
    case Fmt =>
      var next := Push(Leave(st), InterpEnd, st.pos, st.pos);
      EndNests(st, next, Token(InterpEnd, Span(st.pos, st.pos)));
      NestedIsLooser(next);
      UnwindNests(next);
    case _ =>
      DropLoosens(st);
      UnwindNests(Leave(st));
  }

  lemma {:induction false} DrainLoosens(i: Input, st: State)
    requires Looser(st)
    ensures Looser(Drain(i, st)) && Drain(i, st).ctx == []
    decreases |st.ctx|
  {
    hide StackOf, Deepest, Nested, Looser;
    var end := |i.text|;
    if st.ctx != [] {
      match Top(st.ctx).value
      case Str(body) =>
        var next := Push(Fault(Leave(st), "E0102", Less(body.start, 1), end), StrEnd, end, end);
        EndNests(st, next, Token(StrEnd, Span(end, end)));
        NestedIsLooser(next);
        DrainLoosens(i, next);
      case Interp =>
        var next := Push(Fault(Leave(st), "E0112", end, end), InterpEnd, end, end);
        EndNests(st, next, Token(InterpEnd, Span(end, end)));
        NestedIsLooser(next);
        DrainLoosens(i, next);
      case Fmt =>
        var next := Push(Fault(Leave(st), "E0112", end, end), InterpEnd, end, end);
        EndNests(st, next, Token(InterpEnd, Span(end, end)));
        NestedIsLooser(next);
        DrainLoosens(i, next);
      case _ =>
        DropLoosens(st);
        DrainLoosens(i, Leave(st));
    }
  }

  // -- one step of the scan ----------------------------------------------------------------------

  /** Same tokens up to text, same frames up to bodies. */
  predicate Alike(st: State, next: State) {
    && Shapes(next.tokens) == Shapes(st.tokens) && Layers(next.ctx) == Layers(st.ctx)
    && next.deepest == st.deepest
  }

  lemma AlikeNests(st: State, next: State)
    requires Nested(st) && Alike(st, next)
    ensures Nested(next)
  {
  }

  lemma WithTopIsAlike(st: State, f: Frame)
    requires st.ctx != [] && LayerOf(f) == LayerOf(Top(st.ctx).value)
    ensures Alike(st, WithTop(st, f))
  {
  }

  /** Tokens that leave the stack of a state in code as it is. */
  predicate IsPlain(t: Tok) {
    t.Ident? || t.Underscore? || t.Kw? || t.Int? || t.Float? || t.Char? || t.Term? || t.Op? || t.Error?
  }

  lemma PlainNests(st: State, next: State, t: Token)
    requires Nested(st) && InCode(Layers(st.ctx)) && IsPlain(t.tok)
    requires next.tokens == st.tokens + [t] && next.deepest == st.deepest && next.ctx == st.ctx
    ensures Nested(next)
  {
    hide Nested, InCode;
    PushNests(st, next, t);
  }

  lemma WordNests(i: Input, st: State)
    requires Nested(st) && InCode(Layers(st.ctx)) && st.pos < |i.text|
    requires IsXidStart(i, i.text[st.pos]) || i.text[st.pos] == '_'
    ensures Nested(WordStep(i, st))
  {
    hide Nested, OpenString, IsKeyword, InCode;
    var end := RunEnd(i.text, st.pos, Continues(i));
    var word := i.text[st.pos..end];
    var quote := RunEnd(i.text, end, IsHash);
    var next := WordStep(i, st);
    if word == "r" && (Sees(i.text, end, '"') || Sees(i.text, end, '#')) {
      if Sees(i.text, quote, '"') {
        OpenNests(st, Raw(quote - end), st.pos, quote + 1);
      } else {
        PushNests(st, next, Token(Ident("r"), Span(st.pos, st.pos + 1)));
      }
    } else if Sees(i.text, end, '"') && !IsKeyword(word) && word != "_" {
      OpenNests(st, Generalized(word), st.pos, end + 1);
    } else {
      PushNests(st, next, Token(WordTok(word), Span(st.pos, end)));
    }
  }

  lemma NumberNests(i: Input, st: State)
    requires Nested(st) && InCode(Layers(st.ctx)) && DigitAt(i.text, st.pos)
    ensures Nested(NumberStep(i, st))
  {
    hide Nested, WellBased, InCode;
    var next := NumberStep(i, st);
    PushNests(st, next, next.tokens[|st.tokens|]);
  }

  lemma CharNests(i: Input, st: State)
    requires Nested(st) && InCode(Layers(st.ctx)) && Sees(i.text, st.pos, '\'')
    ensures Nested(CharStep(i, st))
  {
    hide Nested, CharBody, InCode, CharVerdict;
    var (end, read) := CharBody(i.text, st.pos + 1, Glyphs(0, None, None));
    if read.Some? {
      VerdictNests(st, read.value, end);
    } else {
      PlainNests(st, CharStep(i, st), Token(Error, Span(st.pos, end)));
    }
  }

  lemma VerdictNests(st: State, g: Glyphs, end: nat)
    requires Nested(st) && InCode(Layers(st.ctx))
    ensures Nested(CharVerdict(st, g, end))
  {
    hide Nested, InCode;
    var next := CharVerdict(st, g, end);
    var good := g.bad.None? && g.count == 1 && g.first.Some?;
    PlainNests(st, next, Token(if good then Char(g.first.value) else Error, Span(st.pos, end)));
  }

  lemma LineStartIsAlike(st: State, at: nat)
    ensures Alike(st, AtLineStart(st, at))
  {
    if st.ctx != [] && Top(st.ctx).value.Str? {
      var body := Top(st.ctx).value.body;
      WithTopIsAlike(st, Str(body.(lineStarts := body.lineStarts + [at])));
    }
  }

  lemma QuoteNests(i: Input, st: State)
    requires Nested(st) && InCode(Layers(st.ctx)) && Sees(i.text, st.pos, '"')
    ensures Nested(QuoteStep(i, st))
  {
    hide OpenString, AtLineStart, AllWhite, RunEnd, StackOf, Deepest, InCode;
    if StartsAt(i.text, st.pos, "\"\"\"") {
      var after := st.pos + 3;
      var eol := RunEnd(i.text, after, NotNewline);
      var judged := if AllWhite(i, after, eol) then st else Fault(st, "E0103", after, eol);
      var newline := if Sees(i.text, after, '\r') then after + 1 else after;
      OpenNests(judged, Multiline, st.pos, newline + 1);
      OpenNests(judged, Multiline, st.pos, after);
      var begun := OpenString(judged, Multiline, st.pos, newline + 1);
      LineStartIsAlike(begun, newline + 1);
      AlikeNests(begun, AtLineStart(begun, newline + 1));
    } else {
      OpenNests(st, StrKind.Plain, st.pos, st.pos + 1);
    }
  }

  predicate Opens(t: Tok, f: Frame) {
    || (t.LParen? && f.Paren?) || (t.LBracket? && f.Bracket?) || (t.LBrace? && f.Brace?)
    || ((t.HashBracket? || t.HashBangBracket?) && f.AttrBracket?)
  }

  lemma OpenerNests(st: State, f: Frame, t: Tok, start: nat, end: nat)
    requires Nested(st) && InCode(Layers(st.ctx)) && Opens(t, f)
    ensures Nested(Emit(Enter(st, f), t, start, end))
  {
    hide Nested, InCode;
    LayersAppend(st.ctx, f);
    PushNests(st, Emit(Enter(st, f), t, start, end), Token(t, Span(start, end)));
  }

  lemma CloserNests(st: State, f: Frame, t: Tok, start: nat, end: nat)
    requires Nested(st) && InCode(Layers(st.ctx))
    requires (t.RParen? && f.Paren?) || (t.RBracket? && f.Bracket?) || (t.RBrace? && f.Brace?)
    ensures Nested(Emit(PopDelimiter(st, f), t, start, end))
  {
    hide Nested;
    LayersAppend(st.ctx, f);
    assert st.ctx != [] ==> Layers(st.ctx)[|st.ctx| - 1] == LayerOf(Top(st.ctx).value);
    PushNests(st, Emit(PopDelimiter(st, f), t, start, end), Token(t, Span(start, end)));
  }

  lemma BraceNests(st: State)
    requires Nested(st) && InCode(Layers(st.ctx))
    ensures Nested(CloseBrace(st))
  {
    hide Nested, InCode, PopDelimiter;
    var next := CloseBrace(st);
    if Top(st.ctx) == Some(Interp) || Top(st.ctx) == Some(Fmt) {
      NestedIsLooser(st);
      EndNests(st, next, Token(InterpEnd, Span(st.pos, st.pos + 1)));
    } else {
      CloserNests(st, Brace, RBrace, st.pos, st.pos + 1);
    }
  }

  lemma BracketNests(st: State)
    requires Nested(st) && InCode(Layers(st.ctx))
    ensures Nested(CloseBracket(st))
  {
    hide StackOf, Deepest, InCode, PopDelimiter;
    CloserNests(st, Bracket, RBracket, st.pos, st.pos + 1);
    AlikeNests(Emit(PopDelimiter(st, Bracket), RBracket, st.pos, st.pos + 1), CloseBracket(st));
  }

  lemma ColonNests(st: State, start: nat, end: nat)
    requires Nested(st) && Top(st.ctx) == Some(Interp)
    ensures Nested(Emit(WithTop(st, Fmt), FmtStart, start, end))
  {
    hide Nested;
    LayersAppend(st.ctx, Fmt);
    LayersAppend(Pop(st.ctx), Fmt);
    PushNests(st, Emit(WithTop(st, Fmt), FmtStart, start, end), Token(FmtStart, Span(start, end)));
  }

  lemma SingleNests(i: Input, st: State)
    requires Nested(st) && InCode(Layers(st.ctx)) && st.pos < |i.text|
    ensures Nested(SingleStep(i, st))
  {
    hide Nested, InCode, IsSingle, StrayEnd, CloseBrace, CloseBracket, PopDelimiter;
    var c := i.text[st.pos];
    var start, end := st.pos, st.pos + 1;
    if c == '(' {
      OpenerNests(st, Paren, LParen, start, end);
    } else if c == '[' {
      OpenerNests(st, Bracket, LBracket, start, end);
    } else if c == '{' {
      OpenerNests(st, Brace, LBrace, start, end);
    } else if c == ')' {
      CloserNests(st, Paren, RParen, start, end);
    } else if c == ']' {
      BracketNests(st);
    } else if c == '}' {
      BraceNests(st);
    } else if c == ':' && Top(st.ctx) == Some(Interp) {
      ColonNests(st, start, end);
    } else {
      var next := SingleStep(i, st);
      PlainNests(st, next, next.tokens[|st.tokens|]);
    }
  }

  lemma TokenNests(i: Input, st: State)
    requires Nested(st) && InCode(Layers(st.ctx)) && st.pos < |i.text|
    ensures Nested(TokenStep(i, st))
  {
    hide Nested, InCode, WordStep, NumberStep, CharStep, QuoteStep, SingleStep, IsXidStart, LongestOperator, StartsAt;
    var c := i.text[st.pos];
    if IsXidStart(i, c) || c == '_' {
      WordNests(i, st);
    } else if IsDigit(c) {
      NumberNests(i, st);
    } else if c == '"' {
      QuoteNests(i, st);
    } else if c == '\'' {
      CharNests(i, st);
    } else if StartsAt(i.text, st.pos, "#![") {
      OpenerNests(st, AttrBracket, HashBangBracket, st.pos, st.pos + 3);
    } else if StartsAt(i.text, st.pos, "#[") {
      OpenerNests(st, AttrBracket, HashBracket, st.pos, st.pos + 2);
    } else {
      match LongestOperator(i.text, st.pos, OPERATORS)
      case Some(op) => PlainNests(st, TokenStep(i, st), Token(Op(op), Span(st.pos, st.pos + |op|)));
      case None => SingleNests(i, st);
    }
  }

  lemma OpenPlainIsString(ctx: seq<Frame>, end: nat)
    ensures OpenPlain(ctx, end).Some? ==> InnermostString(ctx).Some?
  {
  }

  lemma NormalNests(i: Input, st: State)
    requires Nested(st) && InCode(Layers(st.ctx)) && st.pos < |i.text|
    ensures Nested(NormalStep(i, st))
  {
    hide StackOf, Deepest, TokenStep, OpenPlain, LastEnds, Permits, ElseFollows, InCode, RunEnd;
    var c := i.text[st.pos];
    if c == '\n' {
      OpenPlainIsString(st.ctx, st.pos);
      match OpenPlain(st.ctx, st.pos)
      case Some(span) =>
        var next := Fault(st, "E0102", span.start, span.end);
        NestedIsLooser(next);
        UnwindNests(next);
      case None =>
        var moved := st.(pos := st.pos + 1);
        var next := InsertTerminator(i, moved, st.pos);
        if next != moved {
          PushNests(moved, next, Token(Term(false), Span(st.pos, st.pos)));
        }
    } else {
      TokenNests(i, st);
    }
  }

  // -- string bodies -----------------------------------------------------------------------------

  lemma HoldIsAlike(st: State, body: Body, c: char, end: nat)
    requires Top(st.ctx).Some? && Top(st.ctx).value.Str?
    ensures Alike(st, Hold(st, body, c, end))
  {
    WithTopIsAlike(st, Str(Held(body, c, st.pos)));
  }

  lemma FlushNests(st: State, body: Body)
    requires Nested(st) && Top(st.ctx).Some? && Top(st.ctx).value.Str?
    ensures Nested(Flush(st, body)) && Layers(Flush(st, body).ctx) == Layers(st.ctx)
    ensures Top(Flush(st, body).ctx).Some? && Top(Flush(st, body).ctx).value.Str?
  {
    hide StackOf, Deepest;
    var next := Flush(st, body);
    assert TopIs(Layers(st.ctx), Literal);
    if body.pending == "" {
      WithTopIsAlike(st, Str(body));
    } else {
      assert Layers(next.ctx) == Layers(st.ctx);
      PushNests(st, next, Token(StrText(body.pending), Span(body.pendingStart, st.pos)));
    }
  }

  lemma AbandonNests(st: State, body: Body)
    requires Nested(st) && Top(st.ctx).Some? && Top(st.ctx).value.Str?
    ensures Nested(Abandon(st, body))
  {
    hide Nested, Flush;
    FlushNests(st, body);
    var flushed := Flush(st, body);
    NestedIsLooser(flushed);
    EndNests(flushed, Abandon(st, body), Token(StrEnd, Span(st.pos, st.pos)));
  }

  /** Rewriting text tokens changes no shape, no span and nothing else. */
  lemma {:induction false} DedentKeepsShapes(tokens: seq<Token>, pieces: seq<Piece>, column: nat, atLineStart: bool)
    ensures var r := DedentPieces(tokens, pieces, column, atLineStart).0;
            Shapes(r) == Shapes(tokens) && forall k :: 0 <= k < |r| ==> r[k].span == tokens[k].span
    decreases |pieces|
  {
    hide DedentChunk;
    if pieces != [] {
      match pieces[0]
      case Hole => DedentKeepsShapes(tokens, pieces[1..], column, false);
      case Text(index) =>
        if index < |tokens| && tokens[index].tok.StrText? {
          var stripped := DedentChunk(tokens[index].tok.text, column, atLineStart);
          var now := tokens[index := Token(StrText(stripped.0), tokens[index].span)];
          DedentKeepsShapes(now, pieces[1..], column, stripped.1);
          assert Shapes(now) == Shapes(tokens);
        } else {
          DedentKeepsShapes(tokens, pieces[1..], column, atLineStart);
        }
    }
  }

  lemma DedentedIsAlike(i: Input, st: State, body: Body)
    requires st.pos < |i.text|
    ensures var d := Dedented(i, st, body).0;
            && Alike(st, d) && d.ctx == st.ctx && d.pos == st.pos
            && forall k :: 0 <= k < |d.tokens| ==> d.tokens[k].span == st.tokens[k].span
  {
    hide DedentPieces, DedentChunk, MarginFault, LineStart, AllBlank, TrimBlanks;
    var margin := i.text[LineStart(i.text, st.pos)..st.pos];
    var atLineStart := body.lineStarts != [] && body.lineStarts[0] == body.start;
    DedentKeepsShapes(st.tokens, body.pieces, |margin|, atLineStart);
  }

  lemma CloseNests(i: Input, st: State, body: Body)
    requires Nested(st) && Top(st.ctx).Some? && Top(st.ctx).value.Str? && st.pos < |i.text|
    ensures Nested(CloseString(i, st, body))
  {
    hide StackOf, Deepest, Flush, Dedented;
    var ready := if body.kind.Multiline? then Dedented(i, st, body) else (st, body);
    DedentedIsAlike(i, st, body);
    AlikeNests(st, ready.0);
    FlushNests(ready.0, ready.1);
    var flushed := Flush(ready.0, ready.1);
    NestedIsLooser(flushed);
    EndNests(flushed, CloseString(i, st, body), Token(StrEnd, Span(st.pos, st.pos + CloserLength(body.kind))));
  }

  lemma InterpolateNests(st: State, body: Body)
    requires Nested(st) && Top(st.ctx).Some? && Top(st.ctx).value.Str?
    ensures Nested(Interpolate(st, body))
  {
    hide Nested, Flush;
    FlushNests(st, body);
    var flushed := Flush(st, body);
    assert TopIs(Layers(flushed.ctx), Literal);
    var next := Interpolate(st, body);
    var emitted := Emit(flushed, InterpStart, st.pos, st.pos + 1);
    var held := if body.kind.Multiline? then AtHole(emitted) else emitted;
    assert Layers(held.ctx) == Layers(flushed.ctx);
    LayersAppend(held.ctx, Interp);
    PushNests(flushed, next, Token(InterpStart, Span(st.pos, st.pos + 1)));
  }

  lemma SkipIsAlike(st: State, body: Body, code: string, start: nat, end: nat)
    requires Top(st.ctx).Some? && Top(st.ctx).value.Str?
    ensures Alike(st, WithTop(Fault(st, code, start, end), Str(body)).(pos := end))
  {
    WithTopIsAlike(st, Str(body));
  }

  lemma TextNests(i: Input, st: State, body: Body)
    requires Nested(st) && Top(st.ctx) == Some(Str(body)) && st.pos < |i.text|
    ensures Nested(TextStep(i, st, body))
  {
    hide StackOf, Deepest, Interpolate, Abandon, Hold, AtLineStart, StartsAt, EscapeAt;
    var c := i.text[st.pos];
    var next := TextStep(i, st, body);
    if StartsAt(i.text, st.pos, "{{") || StartsAt(i.text, st.pos, "}}") {
      HoldIsAlike(st, body, c, st.pos + 2);
      HoldIsAlike(st, body, '{', st.pos + 2);
      HoldIsAlike(st, body, '}', st.pos + 2);
    } else if c == '{' {
      InterpolateNests(st, body);
    } else if c == '\n' && body.kind.Plain? {
      AbandonNests(Fault(st, "E0102", Less(body.start, 1), st.pos), body);
    } else if c == '\\' && st.pos + 1 < |i.text| {
      var e := EscapeAt(i.text, st.pos + 1, false);
      SkipIsAlike(st, body, "E0101", st.pos, e.end);
      match e.value {
        case Ok(v) => HoldIsAlike(st, body, v, e.end);
        case Err(_) =>
      }
    } else {
      HoldIsAlike(st, body, c, st.pos + 1);
      LineStartIsAlike(Hold(st, body, c, st.pos + 1), st.pos + 1);
      SkipIsAlike(st, body, "E0111", st.pos, st.pos + 1);
      SkipIsAlike(st, body, "E0102", st.pos, st.pos + 1);
    }
  }

  lemma BodyNests(i: Input, st: State, body: Body)
    requires Nested(st) && Top(st.ctx) == Some(Str(body)) && st.pos < |i.text|
    ensures Nested(BodyStep(i, st, body))
  {
    hide StackOf, Deepest, CloseString, Abandon, Hold, TextStep, ClosesString;
    CloseNests(i, st, body);
    AbandonNests(Fault(st, "E0109", st.pos, st.pos + 1), body);
    HoldIsAlike(st, body, i.text[st.pos], st.pos + 1);
    TextNests(i, st, body);
  }

  lemma FormatNests(i: Input, st: State)
    requires Nested(st) && Top(st.ctx) == Some(Fmt) && st.pos < |i.text|
    ensures Nested(FormatStep(i, st))
  {
    hide Nested, RunEnd;
    var end := RunEnd(i.text, st.pos, IsFormatText);
    var told := if end == st.pos then st else Emit(st, FmtText(i.text[st.pos..end]), st.pos, end);
    assert TopIs(Layers(st.ctx), Spec);
    if end != st.pos {
      PushNests(st, told, Token(FmtText(i.text[st.pos..end]), Span(st.pos, end)));
    }
    if end < |i.text| {
      var next := FormatStep(i, st);
      if i.text[end] == '}' {
        NestedIsLooser(told);
        EndNests(told, next, Token(InterpEnd, Span(end, end + 1)));
      } else {
        LayersAppend(told.ctx, Interp);
        PushNests(told, next, Token(InterpStart, Span(end, end + 1)));
      }
    }
  }

  lemma StepNests(i: Input, st: State)
    requires Nested(st) && st.pos < |i.text|
    ensures Nested(Step(i, st))
  {
    hide Nested, NormalStep, FormatStep, BodyStep;
    match Top(st.ctx)
    case Some(Str(body)) => BodyNests(i, st, body);
    case Some(Fmt) => FormatNests(i, st);
    case _ => NormalNests(i, st);
  }

  lemma {:induction false} ScanNests(i: Input, st: State)
    requires Nested(st) && st.pos <= |i.text|
    ensures Nested(Scan(i, st))
    decreases |i.text| - st.pos, |st.ctx|
  {
    hide Nested, Step;
    if st.pos < |i.text| {
      StepNests(i, st);
      StepAdvances(i, st);
      ScanNests(i, Step(i, st));
    }
  }

  lemma BeginNests(i: Input)
    ensures Nested(Begin(i))
  {
    assert Shapes([]) == [] && Layers([]) == [];
  }

  /** On every input, every token sits where its mode allows it, no literal is left open, and
    `max_str_depth` is the greatest number of string literals open at once. */
  lemma EveryTokenIsInPlace(i: Input)
    ensures StackOf(Shapes(Lex(i).tokens)).Some?
    ensures Loose(StackOf(Shapes(Lex(i).tokens)).value)
    ensures Lex(i).deepest == Deepest(Shapes(Lex(i).tokens))
  {
    hide StackOf, Deepest, Scan, EndsStatement;
    BeginNests(i);
    ScanNests(i, Begin(i));
    var scanned := Scan(i, Begin(i));
    var open := scanned.(openAtEof := scanned.ctx != []);
    NestedIsLooser(open);
    DrainLoosens(i, open);
    EofNests(i, Drain(i, open));
  }

  lemma EofNests(i: Input, st: State)
    requires Looser(st) && st.ctx == []
    ensures StackOf(Shapes(Terminated(i, st).tokens)) == StackOf(Shapes(st.tokens))
    ensures Loose(StackOf(Shapes(st.tokens)).value)
    ensures Terminated(i, st).deepest == Deepest(Shapes(Terminated(i, st).tokens))
  {
    hide StackOf, Deepest, Literals, EndsStatement;
    var toks := Shapes(st.tokens);
    var stack := StackOf(toks).value;
    var inner: seq<Layer> :| stack == Layers(st.ctx) + inner && Loose(inner);
    assert stack == inner;
    assert After(stack, Term(false)) == Some(stack);
    ShapesAppend(st.tokens, Token(Term(false), Span(|i.text|, |i.text|)));
    ReadOne(toks, Term(false));
    OpenIsCounted(toks);
  }

  // -- the literal brackets as a word -------------------------------------------------------------

  datatype Mark = QuoteOpen | QuoteClose | HoleOpen | HoleClose

  function MarkOf(t: Tok): seq<Mark> {
    match t
    case StrStart(_) => [QuoteOpen]
    case StrEnd => [QuoteClose]
    case InterpStart => [HoleOpen]
    case InterpEnd => [HoleClose]
    case _ => []
  }

  function Marks(toks: seq<Tok>): seq<Mark> {
    if toks == [] then [] else Marks(toks[..|toks| - 1]) + MarkOf(toks[|toks| - 1])
  }

  /** The brackets a word leaves open, or nothing if one closes out of turn. */
  function OpenAfter(word: seq<Mark>): Option<seq<Mark>> {
    if word == [] then Some([])
    else
      match OpenAfter(word[..|word| - 1])
      case None => None
      case Some(open) =>
        var m := word[|word| - 1];
        if m == QuoteOpen || m == HoleOpen then Some(open + [m])
        else if open != [] && open[|open| - 1] == (if m == QuoteClose then QuoteOpen else HoleOpen)
        then Some(open[..|open| - 1])
        else None
  }

  function Openers(stack: seq<Layer>): seq<Mark> {
    if stack == [] then []
    else
      Openers(Outer(stack)) +
      if TopIs(stack, Literal) then [QuoteOpen]
      else if TopIs(stack, Interpolation) || TopIs(stack, Spec) then [HoleOpen]
      else []
  }

  lemma {:induction false} SettledOpens(stack: seq<Layer>)
    ensures Openers(Settled(stack)) == Openers(stack)
  {
    if stack != [] && IsDelimiter(stack[|stack| - 1]) {
      SettledOpens(Outer(stack));
    }
  }

  lemma OpenersAppend(stack: seq<Layer>, layer: Layer)
    ensures Openers(stack + [layer]) == Openers(stack) +
      (if layer == Literal then [QuoteOpen]
       else if layer == Interpolation || layer == Spec then [HoleOpen] else [])
  {
    assert Outer(stack + [layer]) == stack;
  }

  lemma WordSnoc(word: seq<Mark>, m: Mark)
    ensures OpenAfter(word + [m]) ==
      match OpenAfter(word) {
        case None => None
        case Some(open) =>
          if m == QuoteOpen || m == HoleOpen then Some(open + [m])
          else if open != [] && open[|open| - 1] == (if m == QuoteClose then QuoteOpen else HoleOpen)
          then Some(open[..|open| - 1])
          else None }
  {
    assert (word + [m])[..|word|] == word;
  }

  lemma CloserMatches(stack: seq<Layer>, m: Mark, word: seq<Mark>)
    requires OpenAfter(word) == Some(Openers(stack))
    requires (m == QuoteClose && TopIs(stack, Literal))
          || (m == HoleClose && (TopIs(stack, Interpolation) || TopIs(stack, Spec)))
    ensures OpenAfter(word + [m]) == Some(Openers(Outer(stack)))
  {
    hide OpenAfter;
    WordSnoc(word, m);
    var opener := if m == QuoteClose then QuoteOpen else HoleOpen;
    assert Openers(stack) == Openers(Outer(stack)) + [opener];
  }

  lemma OpenerIsAdded(stack: seq<Layer>, layer: Layer, word: seq<Mark>)
    requires OpenAfter(word) == Some(Openers(stack)) && (layer == Literal || layer == Interpolation)
    ensures OpenAfter(word + [if layer == Literal then QuoteOpen else HoleOpen]) == Some(Openers(stack + [layer]))
  {
    hide OpenAfter, Openers;
    OpenersAppend(stack, layer);
    WordSnoc(word, if layer == Literal then QuoteOpen else HoleOpen);
  }

  lemma PoppedOpensNothing(stack: seq<Layer>, layer: Layer)
    requires Popped(stack, layer).Some? && (layer == Round || layer == Square || layer == Curly)
    ensures Openers(Popped(stack, layer).value) == Openers(stack)
  {
    if stack != [] {
      assert Openers(Outer(stack)) + [] == Openers(Outer(stack));
    }
  }

  lemma PushedOpensNothing(stack: seq<Layer>, layer: Layer)
    requires Pushed(stack, layer).Some? && IsDelimiter(layer)
    ensures Openers(Pushed(stack, layer).value) == Openers(stack)
  {
    OpenersAppend(stack, layer);
    assert Openers(stack) + [] == Openers(stack);
  }

  lemma SpecOpensNothing(stack: seq<Layer>)
    requires TopIs(stack, Interpolation)
    ensures Openers(Outer(stack) + [Spec]) == Openers(stack)
  {
    OpenersAppend(Outer(stack), Spec);
  }

  lemma DelimitersOpenNothing(stack: seq<Layer>, t: Tok)
    requires After(stack, t).Some? && MarkOf(t) == []
    ensures Openers(After(stack, t).value) == Openers(stack)
  {
    hide Openers, Pushed, Popped;
    match t
    case FmtStart => SpecOpensNothing(stack);
    case LParen => PushedOpensNothing(stack, Round);
    case LBracket => PushedOpensNothing(stack, Square);
    case LBrace => PushedOpensNothing(stack, Curly);
    case HashBracket => PushedOpensNothing(stack, Attribute);
    case HashBangBracket => PushedOpensNothing(stack, Attribute);
    case RParen => PoppedOpensNothing(stack, Round);
    case RBracket => PoppedOpensNothing(stack, Square);
    case RBrace => PoppedOpensNothing(stack, Curly);
    case _ =>
  }

  lemma StackGivesOpeners(stack: seq<Layer>, t: Tok, word: seq<Mark>)
    requires After(stack, t).Some? && OpenAfter(word) == Some(Openers(stack))
    ensures OpenAfter(word + MarkOf(t)) == Some(Openers(After(stack, t).value))
  {
    hide OpenAfter, Settled, Openers;
    match t
    case StrStart(_) => OpenerIsAdded(stack, Literal, word);
    case InterpStart => OpenerIsAdded(stack, Interpolation, word);
    case StrEnd =>
      SettledOpens(stack);
      CloserMatches(Settled(stack), QuoteClose, word);
    case InterpEnd =>
      SettledOpens(stack);
      CloserMatches(Settled(stack), HoleClose, word);
    case _ =>
      DelimitersOpenNothing(stack, t);
      assert word + [] == word;
  }

  lemma {:induction false} ReadingBalances(toks: seq<Tok>)
    requires StackOf(toks).Some?
    ensures OpenAfter(Marks(toks)) == Some(Openers(StackOf(toks).value))
    decreases |toks|
  {
    if toks != [] {
      var rest, t := toks[..|toks| - 1], toks[|toks| - 1];
      ReadingBalances(rest);
      StackGivesOpeners(StackOf(rest).value, t, Marks(rest));
    }
  }

  lemma {:induction false} LooseOpensNothing(stack: seq<Layer>)
    requires Loose(stack)
    ensures Openers(stack) == []
  {
    if stack != [] {
      assert IsDelimiter(stack[|stack| - 1]);
      LooseOpensNothing(Outer(stack));
    }
  }

  /** On every input, string and interpolation brackets form one well-nested word. */
  lemma LiteralsBalance(i: Input)
    ensures OpenAfter(Marks(Shapes(Lex(i).tokens))) == Some([])
  {
    hide StackOf, Lex, OpenAfter, Marks;
    EveryTokenIsInPlace(i);
    var toks := Shapes(Lex(i).tokens);
    ReadingBalances(toks);
    LooseOpensNothing(StackOf(toks).value);
  }
}
