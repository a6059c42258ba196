/** What an open literal remembers of its text, read off the token stream.

  `PiecesAt` walks a stream back to the token that opened a literal and collects the texts and
  interpolations at the literal's own level.  At every moment of a run each open multiline
  literal remembers exactly these, each text followed by an interpolation. */
module LexWeave {
  import opened Wrappers
  import opened LexModel
  import opened LexNesting
  import opened LexTerminators
  import opened LexDedent

  // -- reading a literal's parts ------------------------------------------------------------------

  /** How many delimiters and literals a stream has open. */
  function DepthOf(toks: seq<Tok>): nat {
    |StackOf(toks).GetOr([])|
  }

  /** What a token adds to the literal open at depth `d`. */
  function PieceOf(toks: seq<Tok>, t: Tok, d: nat): seq<Piece> {
    if DepthOf(toks) == d + 1 && t.StrText? then [Text(|toks|)]
    else if DepthOf(toks) == d + 1 && t.InterpStart? then [Hole]
    else []
  }

  /** The texts and interpolations of the literal open at depth `d`, since it was opened. */
  function PiecesAt(toks: seq<Tok>, d: nat): seq<Piece>
    decreases |toks|
  {
    if toks == [] then []
    else
      var rest, t := toks[..|toks| - 1], toks[|toks| - 1];
      if DepthOf(rest) <= d then [] else PiecesAt(rest, d) + PieceOf(rest, t, d)
  }

  lemma PiecesOfOneMore(toks: seq<Tok>, t: Tok, d: nat)
    ensures PiecesAt(toks + [t], d) == if DepthOf(toks) <= d then [] else PiecesAt(toks, d) + PieceOf(toks, t, d)
  {
    assert (toks + [t])[..|toks|] == toks;
  }

  /** Each text is there, at the literal's level, and the literal has been open ever since. */
  lemma {:induction false} PiecesAreAround(toks: seq<Tok>, d: nat, k: nat)
    requires k < |PiecesAt(toks, d)| && PiecesAt(toks, d)[k].Text? && d < DepthOf(toks)
    ensures var x := PiecesAt(toks, d)[k].index;
            && x < |toks| && toks[x].StrText? && DepthOf(toks[..x]) == d + 1
            && forall y :: x < y <= |toks| ==> DepthOf(toks[..y]) > d
    decreases |toks|
  {
    hide StackOf;
    var rest, t := toks[..|toks| - 1], toks[|toks| - 1];
    var x := PiecesAt(toks, d)[k].index;
    assert toks[..|toks|] == toks;
    if k < |PiecesAt(rest, d)| {
      PiecesAreAround(rest, d, k);
      forall y | x < y <= |toks| ensures DepthOf(toks[..y]) > d {
        if y < |toks| {
          assert rest[..y] == toks[..y];
        }
      }
      assert rest[..x] == toks[..x];
    }
  }

  /** Later texts come later in the stream. */
  lemma {:induction false} PiecesAreInOrder(toks: seq<Tok>, d: nat, j: nat, k: nat)
    requires j < k < |PiecesAt(toks, d)| && PiecesAt(toks, d)[j].Text? && PiecesAt(toks, d)[k].Text?
    ensures PiecesAt(toks, d)[j].index < PiecesAt(toks, d)[k].index < |toks|
    decreases |toks|
  {
    hide StackOf;
    var rest := toks[..|toks| - 1];
    if k < |PiecesAt(rest, d)| {
      PiecesAreInOrder(rest, d, j, k);
    } else {
      PieceIsInside(rest, d, j);
    }
  }

  lemma {:induction false} PieceIsInside(toks: seq<Tok>, d: nat, k: nat)
    requires k < |PiecesAt(toks, d)| && PiecesAt(toks, d)[k].Text?
    ensures PiecesAt(toks, d)[k].index < |toks|
    decreases |toks|
  {
    hide StackOf;
    var rest := toks[..|toks| - 1];
    if k < |PiecesAt(rest, d)| {
      PieceIsInside(rest, d, k);
    }
  }

  // -- the invariant ---------------------------------------------------------------------------------

  /** The string frame at depth `k` remembers what it should. */
  ghost predicate FrameRemembers(toks: seq<Tok>, f: Frame, k: nat) {
    f.Str? ==>
      && f.body.pieces == (if f.body.kind.Multiline? then PiecesAt(toks, k) else [])
      && Followed(f.body.pieces)
  }

  ghost predicate Remembers(st: State) {
    forall k :: 0 <= k < |st.ctx| ==> FrameRemembers(Shapes(st.tokens), st.ctx[k], k)
  }

  lemma RememberedIsWoven(st: State, k: nat)
    requires Nested(st) && Remembers(st) && k < |st.ctx| && st.ctx[k].Str?
    ensures Woven(st.tokens, st.ctx[k].body.pieces)
  {
    hide Followed, PiecesAt, StackOf, Deepest;
    var pieces, toks := st.ctx[k].body.pieces, Shapes(st.tokens);
    assert FrameRemembers(toks, st.ctx[k], k);
    forall j | 0 <= j < |pieces| && pieces[j].Text?
      ensures pieces[j].index < |st.tokens| && st.tokens[pieces[j].index].tok.StrText?
    {
      PiecesAreAround(toks, k, j);
      assert toks[pieces[j].index] == Shape(st.tokens[pieces[j].index].tok);
    }
    forall a, b | 0 <= a < b < |pieces| && pieces[a].Text? && pieces[b].Text?
      ensures pieces[a].index < pieces[b].index
    {
      PiecesAreInOrder(toks, k, a, b);
    }
  }

  // -- steps outside string bodies ------------------------------------------------------------------

  predicate SameMemory(a: Body, b: Body) {
    a.kind == b.kind && a.pieces == b.pieces && a.start == b.start
  }

  /** A body that begins at the cursor and of which nothing has been read. */
  predicate Fresh(body: Body, pos: nat) {
    && body.pieces == [] && body.pending == "" && body.start == pos
    && (body.lineStarts == [] || body.lineStarts == [pos])
  }

  /** A frame that was there before, or a fresh one. */
  predicate Inherited(st: State, next: State, k: nat)
    requires k < |next.ctx|
  {
    var f := next.ctx[k];
    f.Str? ==>
      if k < |st.ctx| then f == st.ctx[k]
      else k == |st.ctx| && Fresh(f.body, next.pos) && |next.tokens| > |st.tokens|
  }

  /** At most one token more. */
  predicate Brief(st: State, next: State) {
    next.tokens == st.tokens || (next.tokens != [] && next.tokens[..|next.tokens| - 1] == st.tokens)
  }

  ghost predicate Inherits(st: State, next: State) {
    && Brief(st, next) && |next.ctx| <= |st.ctx| + 1
    && forall k :: 0 <= k < |next.ctx| ==> Inherited(st, next, k)
  }

  /** The token a step adds lies inside the literals open before and so is no part of theirs. */
  lemma InheritsRemembers(st: State, next: State)
    requires Nested(st) && Remembers(st) && Inherits(st, next) && !TopIs(Layers(st.ctx), Literal)
    ensures Remembers(next)
  {
    hide Followed, PiecesAt, StackOf, Deepest;
    var toks, more := Shapes(st.tokens), Shapes(next.tokens);
    forall k | 0 <= k < |next.ctx| ensures FrameRemembers(more, next.ctx[k], k) {
      assert Inherited(st, next, k);
      if next.ctx[k].Str? {
        NothingIsFollowed();
        if |next.tokens| > |st.tokens| {
          var t := next.tokens[|st.tokens|];
          assert next.tokens == st.tokens + [t];
          ShapesAppend(st.tokens, t);
          PiecesOfOneMore(toks, Shape(t.tok), k);
        }
        if k < |st.ctx| {
          assert FrameRemembers(toks, st.ctx[k], k);
          assert Layers(st.ctx)[k] == Literal;
        }
      }
    }
  }

  lemma NothingIsFollowed()
    ensures Followed([])
  {
  }

  /** The stack kept its frames, lost the innermost, gained one that is no string, or changed
    the innermost into one that is none. */
  predicate Restacked(ctx: seq<Frame>, next: seq<Frame>) {
    || next == ctx
    || next == Pop(ctx)
    || (next != [] && (Pop(next) == ctx || Pop(next) == Pop(ctx)) && !next[|next| - 1].Str?)
  }

  /** Or it gained a fresh string. */
  predicate Opened(st: State, next: State) {
    && next.ctx != [] && Pop(next.ctx) == st.ctx
    && next.ctx[|next.ctx| - 1].Str? && Fresh(next.ctx[|next.ctx| - 1].body, next.pos)
  }

  lemma OneToken(st: State, next: State, t: Token)
    requires next.tokens == st.tokens + [t] && (Restacked(st.ctx, next.ctx) || Opened(st, next))
    ensures Inherits(st, next)
  {
    forall k | 0 <= k < |next.ctx| ensures Inherited(st, next, k) {
      if k < |next.ctx| - 1 {
        assert Pop(next.ctx)[k] == next.ctx[k];
      }
    }
  }

  lemma NoToken(st: State, next: State)
    requires next.tokens == st.tokens && next.ctx == st.ctx
    ensures Inherits(st, next)
  {
  }

  lemma OpenInherits(st: State, kind: StrKind, start: nat, body: nat)
    ensures Inherits(st, OpenString(st, kind, start, body))
  {
    hide StringDepth;
    var next := OpenString(st, kind, start, body);
    OneToken(st, next, Token(StrStart(kind), Span(start, body)));
  }

  lemma WordInherits(i: Input, st: State)
    requires st.pos < |i.text| && (IsXidStart(i, i.text[st.pos]) || i.text[st.pos] == '_')
    ensures Inherits(st, WordStep(i, st))
  {
    hide OpenString, IsKeyword, Inherits;
    var end := RunEnd(i.text, st.pos, Continues(i));
    var word := i.text[st.pos..end];
    var quote := RunEnd(i.text, end, IsHash);
    var next := WordStep(i, st);
    if word == "r" && (Sees(i.text, end, '"') || Sees(i.text, end, '#')) {
      if Sees(i.text, quote, '"') {
        OpenInherits(st, Raw(quote - end), st.pos, quote + 1);
      } else {
        OneToken(st, next, Token(Ident("r"), Span(st.pos, st.pos + 1)));
      }
    } else if Sees(i.text, end, '"') && !IsKeyword(word) && word != "_" {
      OpenInherits(st, Generalized(word), st.pos, end + 1);
    } else {
      OneToken(st, next, Token(WordTok(word), Span(st.pos, end)));
    }
  }

  lemma LineStartInherits(st: State, at: nat)
    ensures var next := AtLineStart(st, at);
            && next.tokens == st.tokens && next.pos == st.pos && |next.ctx| == |st.ctx|
            && (forall k :: 0 <= k < |st.ctx| - 1 ==> next.ctx[k] == st.ctx[k])
            && (Top(st.ctx).Some? && Top(st.ctx).value.Str? ==>
                  var body := Top(st.ctx).value.body;
                  Top(next.ctx) == Some(Str(body.(lineStarts := body.lineStarts + [at]))))
  {
  }

  lemma QuoteInherits(i: Input, st: State)
    requires Sees(i.text, st.pos, '"')
    ensures Inherits(st, QuoteStep(i, st))
  {
    hide OpenString, AtLineStart, AllWhite, RunEnd, Brief;
    if StartsAt(i.text, st.pos, "\"\"\"") {
      var after := st.pos + 3;
      var eol := RunEnd(i.text, after, NotNewline);
      var judged := if AllWhite(i, after, eol) then st else Fault(st, "E0103", after, eol);
      var newline := if Sees(i.text, after, '\r') then after + 1 else after;
      var body := if Sees(i.text, newline, '\n') then newline + 1 else after;
      OpenInherits(judged, Multiline, st.pos, body);
      var begun := OpenString(judged, Multiline, st.pos, body);
      OpenedBody(judged, Multiline, st.pos, body);
      LineStartInherits(begun, body);
      AlikeTokens(st, judged, begun, QuoteStep(i, st), body);
    } else {
      OpenInherits(st, StrKind.Plain, st.pos, st.pos + 1);
    }
  }

  lemma OpenedBody(st: State, kind: StrKind, start: nat, body: nat)
    ensures var next := OpenString(st, kind, start, body);
            next.ctx == st.ctx + [Str(Body(kind, body, "", body, [], []))] && |next.tokens| > |st.tokens|
  {
    hide StringDepth;
  }

  lemma AlikeTokens(st: State, judged: State, begun: State, next: State, body: nat)
    requires judged.tokens == st.tokens && judged.ctx == st.ctx && Inherits(judged, begun)
    requires begun.pos == body && begun.ctx == st.ctx + [Str(Body(Multiline, body, "", body, [], []))]
    requires |begun.tokens| > |st.tokens| && (next == begun || next == AtLineStart(begun, body))
    ensures Inherits(st, next)
  {
    forall k | 0 <= k < |next.ctx| ensures Inherited(st, next, k) {
      assert Inherited(judged, begun, k);
    }
  }

  lemma SingleInherits(i: Input, st: State)
    requires st.pos < |i.text|
    ensures Inherits(st, SingleStep(i, st))
  {
    hide Inherits, StrayEnd, IsSingle, PopDelimiter, CloseBrace, CloseBracket, Emit;
    var c := i.text[st.pos];
    if c == '(' {
      MarkInherits(st, Enter(st, Paren), LParen);
    } else if c == '[' {
      MarkInherits(st, Enter(st, Bracket), LBracket);
    } else if c == '{' {
      MarkInherits(st, Enter(st, Brace), LBrace);
    } else if c == ')' {
      MarkInherits(st, PopDelimiter(st, Paren), RParen);
    } else if c == ']' {
      BracketInherits(st);
    } else if c == '}' {
      BraceInherits(st);
    } else if c == ':' {
      MarkInherits(st, st, Op(":"));
      if st.ctx != [] {
        MarkInherits(st, WithTop(st, Fmt), FmtStart);
      }
    } else if c == ';' {
      MarkInherits(st, st, Term(true));
    } else if IsSingle(c) {
      MarkInherits(st, st, Op([c]));
    } else if c == BYTE_ORDER_MARK {
      StrayInherits(st, st.pos + 1);
    } else {
      StrayInherits(st, StrayEnd(i, st.pos + 1));
    }
  }

  lemma MarkInherits(st: State, base: State, t: Tok)
    requires base.tokens == st.tokens && Restacked(st.ctx, base.ctx)
    ensures Inherits(st, Emit(base, t, st.pos, st.pos + 1))
  {
    hide Inherits, Restacked;
    var next := Emit(base, t, st.pos, st.pos + 1);
    OneToken(st, next, Token(t, Span(st.pos, st.pos + 1)));
  }

  lemma StrayInherits(st: State, end: nat)
    ensures Inherits(st, Emit(Fault(st, "E0107", st.pos, end), Error, st.pos, end))
  {
    hide Inherits;
    OneToken(st, Emit(Fault(st, "E0107", st.pos, end), Error, st.pos, end), Token(Error, Span(st.pos, end)));
  }

  lemma BracketInherits(st: State)
    ensures Inherits(st, CloseBracket(st))
  {
    hide Inherits, PopDelimiter;
    OneToken(st, CloseBracket(st), Token(RBracket, Span(st.pos, st.pos + 1)));
  }

  lemma BraceInherits(st: State)
    ensures Inherits(st, CloseBrace(st))
  {
    hide Inherits, PopDelimiter;
    var t := if Top(st.ctx) == Some(Interp) || Top(st.ctx) == Some(Fmt) then InterpEnd else RBrace;
    OneToken(st, CloseBrace(st), Token(t, Span(st.pos, st.pos + 1)));
  }

  lemma NumberInherits(i: Input, st: State)
    requires DigitAt(i.text, st.pos)
    ensures Inherits(st, NumberStep(i, st))
  {
    hide Inherits, WellBased, RunEnd, FractionEnd, ExponentEnd;
    var next := NumberStep(i, st);
    OneToken(st, next, next.tokens[|st.tokens|]);
  }

  lemma CharInherits(i: Input, st: State)
    requires Sees(i.text, st.pos, '\'')
    ensures Inherits(st, CharStep(i, st))
  {
    hide Inherits, CharBody;
    var next := CharStep(i, st);
    OneToken(st, next, next.tokens[|st.tokens|]);
  }

  lemma TokenInherits(i: Input, st: State)
    requires st.pos < |i.text|
    ensures Inherits(st, TokenStep(i, st))
  {
    hide Inherits, WordStep, NumberStep, CharStep, QuoteStep, SingleStep, IsXidStart, LongestOperator, StartsAt;
    var c := i.text[st.pos];
    if IsXidStart(i, c) || c == '_' {
      WordInherits(i, st);
    } else if IsDigit(c) {
      NumberInherits(i, st);
    } else if c == '"' {
      QuoteInherits(i, st);
    } else if c == '\'' {
      CharInherits(i, st);
    } else if StartsAt(i.text, st.pos, "#![") {
      OneToken(st, TokenStep(i, st), Token(HashBangBracket, Span(st.pos, st.pos + 3)));
    } else if StartsAt(i.text, st.pos, "#[") {
      OneToken(st, TokenStep(i, st), Token(HashBracket, Span(st.pos, st.pos + 2)));
    } else {
      match LongestOperator(i.text, st.pos, OPERATORS)
      case Some(op) => OneToken(st, TokenStep(i, st), Token(Op(op), Span(st.pos, st.pos + |op|)));
      case None => SingleInherits(i, st);
    }
  }

  lemma NormalInherits(i: Input, st: State)
    requires st.pos < |i.text| && (i.text[st.pos] == '\n' ==> OpenPlain(st.ctx, st.pos).None?)
    ensures Inherits(st, NormalStep(i, st))
  {
    hide TokenStep, OpenPlain, LastEnds, Permits, ElseFollows, RunEnd, Inherits;
    var c := i.text[st.pos];
    var next := NormalStep(i, st);
    if c == '\n' {
      if next.tokens == st.tokens {
        NoToken(st, next);
      } else {
        OneToken(st, next, Token(Term(false), Span(st.pos, st.pos)));
      }
    } else if IsInline(c) || StartsAt(i.text, st.pos, "//") {
      NoToken(st, next);
    } else {
      TokenInherits(i, st);
    }
  }

  // -- closing frames -------------------------------------------------------------------------------

  /** Literals outside depth `n` have the same parts as before. */
  ghost predicate SamePieces(toks: seq<Tok>, more: seq<Tok>, n: nat) {
    forall k :: 0 <= k < n ==> PiecesAt(more, k) == PiecesAt(toks, k)
  }

  lemma FewerSame(toks: seq<Tok>, more: seq<Tok>, n: nat, m: nat)
    requires SamePieces(toks, more, n) && m <= n
    ensures SamePieces(toks, more, m)
  {
  }

  lemma SameThenSame(a: seq<Tok>, b: seq<Tok>, c: seq<Tok>, n: nat)
    requires SamePieces(a, b, n) && SamePieces(b, c, n)
    ensures SamePieces(a, c, n)
  {
  }

  /** A token inside a literal's parts is no part of the literals outside it. */
  lemma TokenIsInside(toks: seq<Tok>, t: Tok, n: nat)
    requires n < DepthOf(toks)
    ensures SamePieces(toks, toks + [t], n)
  {
    hide PiecesAt, StackOf;
    forall k | 0 <= k < n ensures PiecesAt(toks + [t], k) == PiecesAt(toks, k) {
      PiecesOfOneMore(toks, t, k);
    }
  }

  /** The frames left are as they were, and so are their parts. */
  lemma LeftRemember(st: State, next: State)
    requires Remembers(st) && |next.ctx| <= |st.ctx| && next.ctx == st.ctx[..|next.ctx|]
    requires SamePieces(Shapes(st.tokens), Shapes(next.tokens), |next.ctx|)
    ensures Remembers(next)
  {
    hide Followed, PiecesAt;
    forall k | 0 <= k < |next.ctx| ensures FrameRemembers(Shapes(next.tokens), next.ctx[k], k) {
      assert next.ctx[k] == st.ctx[k];
      assert FrameRemembers(Shapes(st.tokens), st.ctx[k], k);
    }
  }

  lemma LooserIsDeep(st: State)
    requires Looser(st)
    ensures DepthOf(Shapes(st.tokens)) >= |st.ctx|
  {
    hide StackOf, Deepest;
    var inner := InnerOf(st);
  }

  lemma {:induction false} UnwindLeaves(st: State)
    requires Looser(st)
    ensures |Unwind(st).ctx| <= |st.ctx| && Unwind(st).ctx == st.ctx[..|Unwind(st).ctx|]
    ensures SamePieces(Shapes(st.tokens), Shapes(Unwind(st).tokens), |Unwind(st).ctx|)
    decreases |st.ctx|
  {
    hide Looser, SamePieces, DepthOf, Nested;
    var toks := Shapes(st.tokens);
    if st.ctx == [] {
      NothingChanged(toks, 0);
    } else {
      var n := |st.ctx| - 1;
      LooserIsDeep(st);
      if IsDelimiter(LayerOf(Top(st.ctx).value)) {
        DropLoosens(st);
        UnwindLeaves(Leave(st));
        assert Leave(st).ctx[..|Unwind(st).ctx|] == st.ctx[..|Unwind(st).ctx|];
      } else {
        var t := Token(if Top(st.ctx).value.Str? then StrEnd else InterpEnd, Span(st.pos, st.pos));
        var next := Push(Leave(st), t.tok, st.pos, st.pos);
        ShapesAppend(st.tokens, t);
        TokenIsInside(toks, Shape(t.tok), n);
        if !Top(st.ctx).value.Str? {
          EndNests(st, next, t);
          NestedIsLooser(next);
          UnwindLeaves(next);
          var last := Unwind(next);
          FewerSame(toks, Shapes(next.tokens), n, |last.ctx|);
          SameThenSame(toks, Shapes(next.tokens), Shapes(last.tokens), |last.ctx|);
          assert next.ctx[..|last.ctx|] == st.ctx[..|last.ctx|];
        }
      }
    }
  }

  lemma NothingChanged(toks: seq<Tok>, n: nat)
    ensures SamePieces(toks, toks, n)
  {
  }

  lemma NormalRemembers(i: Input, st: State)
    requires st.pos < |i.text| && Nested(st) && Remembers(st) && InCode(Layers(st.ctx))
    ensures Remembers(NormalStep(i, st))
  {
    hide Nested, Remembers, Inherits, TokenStep, OpenPlain, InsertTerminator;
    if i.text[st.pos] == '\n' && OpenPlain(st.ctx, st.pos).Some? {
      var span := OpenPlain(st.ctx, st.pos).value;
      var faulty := Fault(st, "E0102", span.start, span.end);
      SameIsLooser(st, faulty);
      UnwindLeaves(faulty);
      LeftRemember(st, Unwind(faulty));
    } else {
      NormalInherits(i, st);
      InheritsRemembers(st, NormalStep(i, st));
    }
  }

  lemma SameIsLooser(st: State, next: State)
    requires Nested(st) && next.tokens == st.tokens && next.ctx == st.ctx && next.deepest == st.deepest
    ensures Looser(next)
  {
    hide StackOf, Deepest;
    NestedIsLooser(next);
  }

  lemma FormatRemembers(i: Input, st: State)
    requires st.pos < |i.text| && Nested(st) && Remembers(st) && Top(st.ctx) == Some(Fmt)
    ensures Remembers(FormatStep(i, st))
  {
    hide Nested, Remembers, RunEnd, Inherits;
    var end := RunEnd(i.text, st.pos, IsFormatText);
    var told := if end == st.pos then st else Emit(st, FmtText(i.text[st.pos..end]), st.pos, end);
    assert Layers(st.ctx)[|st.ctx| - 1] == Spec;
    if end != st.pos {
      var t := Token(FmtText(i.text[st.pos..end]), Span(st.pos, end));
      OneToken(st, told, t);
      InheritsRemembers(st, told);
      PushNests(st, told, t);
    }
    if end < |i.text| {
      var next := FormatStep(i, st);
      OneToken(told, next, next.tokens[|told.tokens|]);
      InheritsRemembers(told, next);
    }
  }

  // -- string bodies -----------------------------------------------------------------------------------

  predicate Interpolates(i: Input, st: State, body: Body)
    requires st.pos < |i.text|
  {
    && !ClosesString(i.text, st.pos, body.kind) && (body.kind.Plain? || body.kind.Multiline?)
    && !StartsAt(i.text, st.pos, "{{") && i.text[st.pos] == '{'
  }

  /** The string's last text, if there is one, and its end. */
  predicate Ended(toks: seq<Tok>, more: seq<Tok>) {
    more == toks + [StrEnd] || more == toks + [StrText("")] + [StrEnd]
  }

  /** The lines noted are those there were, and at most one more that begins at `pos`. */
  predicate SameLines(a: Body, b: Body, pos: nat) {
    b.lineStarts == a.lineStarts || b.lineStarts == a.lineStarts + [pos]
  }

  /** The innermost string was kept, its memory unchanged, or it ended. */
  predicate KeptOrEnded(st: State, next: State, body: Body)
    requires st.ctx != []
  {
    || (next.ctx == Pop(st.ctx) && Ended(Shapes(st.tokens), Shapes(next.tokens)))
    || (|next.ctx| == |st.ctx| && Pop(next.ctx) == Pop(st.ctx) && next.tokens == st.tokens
        && next.ctx[|st.ctx| - 1].Str? && SameMemory(body, next.ctx[|st.ctx| - 1].body)
        && SameLines(body, next.ctx[|st.ctx| - 1].body, next.pos))
  }

  lemma HoldIsKept(st: State, body: Body, c: char, end: nat)
    requires st.ctx != []
    ensures KeptOrEnded(st, Hold(st, body, c, end), body) && |Hold(st, body, c, end).ctx| == |st.ctx|
    ensures var held := Hold(st, body, c, end);
            && held.pos == end && held.ctx[|st.ctx| - 1].Str?
            && held.ctx[|st.ctx| - 1].body.lineStarts == body.lineStarts
  {
  }

  lemma SkipIsKept(st: State, body: Body, code: string, start: nat, end: nat)
    requires st.ctx != []
    ensures KeptOrEnded(st, WithTop(Fault(st, code, start, end), Str(body)).(pos := end), body)
  {
  }

  lemma LineStartIsKept(st: State, held: State, body: Body, at: nat)
    requires st.ctx != [] && KeptOrEnded(st, held, body) && |held.ctx| == |st.ctx| && held.pos == at
    requires held.ctx[|st.ctx| - 1].Str? && held.ctx[|st.ctx| - 1].body.lineStarts == body.lineStarts
    ensures KeptOrEnded(st, AtLineStart(held, at), body)
  {
  }

  lemma FlushEnds(st: State, body: Body, t: Token)
    requires st.ctx != [] && t.tok == StrEnd
    ensures Pop(Flush(st, body).ctx) == Pop(st.ctx) && Flush(st, body).ctx != []
    ensures Ended(Shapes(st.tokens), Shapes(Flush(st, body).tokens + [t]))
  {
    hide Ended;
    var flushed := Flush(st, body);
    ShapesAppend(flushed.tokens, t);
    if body.pending != "" {
      ShapesAppend(st.tokens, Token(StrText(body.pending), Span(body.pendingStart, st.pos)));
    }
    EndedEither(Shapes(st.tokens));
  }

  lemma EndedEither(toks: seq<Tok>)
    ensures Ended(toks, toks + [StrEnd]) && Ended(toks, toks + [StrText("")] + [StrEnd])
  {
  }

  lemma AbandonEnds(st: State, body: Body, code: string, start: nat, end: nat)
    requires st.ctx != []
    ensures KeptOrEnded(st, Abandon(Fault(st, code, start, end), body), body)
  {
    hide Flush, Ended;
    FlushEnds(Fault(st, code, start, end), body, Token(StrEnd, Span(st.pos, st.pos)));
  }

  lemma CloseEnds(i: Input, st: State, body: Body)
    requires st.ctx != [] && st.pos < |i.text|
    ensures KeptOrEnded(st, CloseString(i, st, body), body)
  {
    hide Dedented, Flush, Ended;
    DedentedIsAlike(i, st, body);
    var ready := if body.kind.Multiline? then Dedented(i, st, body) else (st, body);
    FlushEnds(ready.0, ready.1, Token(StrEnd, Span(st.pos, st.pos + CloserLength(body.kind))));
  }

  lemma TextIsKept(i: Input, st: State, body: Body)
    requires st.pos < |i.text| && st.ctx != [] && (StartsAt(i.text, st.pos, "{{") || i.text[st.pos] != '{')
    ensures KeptOrEnded(st, TextStep(i, st, body), body)
  {
    hide KeptOrEnded, StartsAt, Abandon, Hold, AtLineStart, EscapeAt, Interpolate;
    var c := i.text[st.pos];
    if StartsAt(i.text, st.pos, "{{") || StartsAt(i.text, st.pos, "}}") {
      HoldIsKept(st, body, '{', st.pos + 2);
      HoldIsKept(st, body, '}', st.pos + 2);
    } else if c == '\\' && st.pos + 1 < |i.text| {
      var e := EscapeAt(i.text, st.pos + 1, false);
      SkipIsKept(st, body, "E0101", st.pos, e.end);
      match e.value {
        case Ok(v) => HoldIsKept(st, body, v, e.end);
        case Err(_) =>
      }
    } else if c == '\n' && body.kind.Plain? {
      AbandonEnds(st, body, "E0102", Less(body.start, 1), st.pos);
    } else {
      HoldIsKept(st, body, c, st.pos + 1);
      SkipIsKept(st, body, "E0111", st.pos, st.pos + 1);
      SkipIsKept(st, body, "E0102", st.pos, st.pos + 1);
      LineStartIsKept(st, Hold(st, body, c, st.pos + 1), body, st.pos + 1);
    }
  }

  lemma BodyIsKept(i: Input, st: State, body: Body)
    requires st.pos < |i.text| && Top(st.ctx) == Some(Str(body)) && !Interpolates(i, st, body)
    ensures KeptOrEnded(st, BodyStep(i, st, body), body)
  {
    hide KeptOrEnded, StartsAt, ClosesString, CloseString, Abandon, Hold, TextStep;
    CloseEnds(i, st, body);
    AbandonEnds(st, body, "E0109", st.pos, st.pos + 1);
    HoldIsKept(st, body, i.text[st.pos], st.pos + 1);
    if !ClosesString(i.text, st.pos, body.kind) && (body.kind.Plain? || body.kind.Multiline?) {
      TextIsKept(i, st, body);
    }
  }

  lemma KeptRemembers(st: State, next: State, body: Body)
    requires Nested(st) && Remembers(st) && Top(st.ctx) == Some(Str(body)) && KeptOrEnded(st, next, body)
    ensures Remembers(next)
  {
    hide Followed, PiecesAt, StackOf, Deepest, Ended;
    var toks, n := Shapes(st.tokens), |st.ctx| - 1;
    if next.ctx == Pop(st.ctx) && Ended(toks, Shapes(next.tokens)) {
      assert TopIs(Layers(st.ctx), Literal);
      EndIsInside(toks, Shapes(next.tokens), n);
      LeftRemember(st, next);
    } else {
      forall k | 0 <= k < |next.ctx| ensures FrameRemembers(Shapes(next.tokens), next.ctx[k], k) {
        assert FrameRemembers(toks, st.ctx[k], k);
        if k < n {
          assert Pop(next.ctx)[k] == Pop(st.ctx)[k];
        }
      }
    }
  }

  lemma EndIsInside(toks: seq<Tok>, more: seq<Tok>, n: nat)
    requires Ended(toks, more) && StackOf(toks).Some? && TopIs(StackOf(toks).value, Literal) && DepthOf(toks) == n + 1
    ensures SamePieces(toks, more, n)
  {
    hide StackOf, PiecesAt, SamePieces;
    TokenIsInside(toks, StrEnd, n);
    if more != toks + [StrEnd] {
      var told := toks + [StrText("")];
      TokenIsInside(toks, StrText(""), n);
      ReadOne(toks, StrText(""));
      TokenIsInside(told, StrEnd, n);
      SameThenSame(toks, told, more, n);
    }
  }

  // -- interpolations ------------------------------------------------------------------------------------

  lemma {:induction false} FollowedGrows(pieces: seq<Piece>, more: seq<Piece>)
    requires Followed(pieces) && Followed(more)
    ensures Followed(pieces + more)
    decreases |pieces|
  {
    var all := pieces + more;
    if pieces == [] {
      assert all == more;
    } else if pieces[0].Hole? && Followed(pieces[1..]) {
      assert all[1..] == pieces[1..] + more;
      FollowedGrows(pieces[1..], more);
    } else {
      assert all[2..] == pieces[2..] + more && all[1] == pieces[1];
      FollowedGrows(pieces[2..], more);
    }
  }

  lemma HoleIsFollowed(pieces: seq<Piece>, index: nat)
    requires Followed(pieces)
    ensures Followed(pieces + [Hole]) && Followed(pieces + [Text(index)] + [Hole])
  {
    assert [Hole][1..] == [] && [Text(index), Hole][2..] == [];
    assert Followed([Hole]) && Followed([Text(index), Hole]);
    hide Followed;
    FollowedGrows(pieces, [Hole]);
    FollowedGrows(pieces, [Text(index), Hole]);
    assert pieces + [Text(index)] + [Hole] == pieces + [Text(index), Hole];
  }

  /** The texts and the interpolation an interpolation adds to the literal it is in. */
  lemma InterpolateAdds(st: State, body: Body)
    requires Nested(st) && Top(st.ctx) == Some(Str(body))
    ensures var toks, more, d := Shapes(st.tokens), Shapes(Interpolate(st, body).tokens), |st.ctx| - 1;
            && SamePieces(toks, more, d)
            && PiecesAt(more, d)
               == PiecesAt(toks, d) + (if body.pending == "" then [] else [Text(|toks|)]) + [Hole]
  {
    hide StackOf, Deepest, PiecesAt, SamePieces;
    var toks, d := Shapes(st.tokens), |st.ctx| - 1;
    assert TopIs(Layers(st.ctx), Literal);
    var flushed := Flush(st, body);
    var told := Shapes(flushed.tokens);
    var start := Token(InterpStart, Span(st.pos, st.pos + 1));
    InterpolateTokens(st, body);
    ShapesAppend(flushed.tokens, start);
    if body.pending == "" {
      NothingChanged(toks, d);
      assert PiecesAt(toks, d) + [] == PiecesAt(toks, d);
    } else {
      var t := Token(StrText(body.pending), Span(body.pendingStart, st.pos));
      ShapesAppend(st.tokens, t);
      ReadOne(toks, StrText(""));
      TokenIsInside(toks, StrText(""), d);
      PiecesOfOneMore(toks, StrText(""), d);
    }
    TokenIsInside(told, InterpStart, d);
    PiecesOfOneMore(told, InterpStart, d);
    SameThenSame(toks, told, told + [InterpStart], d);
  }

  lemma InterpolateTokens(st: State, body: Body)
    requires st.ctx != []
    ensures Interpolate(st, body).tokens == Flush(st, body).tokens + [Token(InterpStart, Span(st.pos, st.pos + 1))]
  {
  }

  /** The frame an interpolation opens in. */
  lemma InterpolateStack(st: State, body: Body)
    requires st.ctx != [] && (!body.kind.Multiline? ==> body.pieces == [])
    ensures var next, n := Interpolate(st, body), |st.ctx| - 1;
            && |next.ctx| == n + 2 && next.ctx[n + 1] == Interp && next.ctx[..n] == st.ctx[..n]
            && next.ctx[n].Str? && next.ctx[n].body.kind == body.kind
            && next.ctx[n].body.start == body.start && next.ctx[n].body.lineStarts == body.lineStarts
            && next.ctx[n].body.pieces ==
               if !body.kind.Multiline? then []
               else body.pieces + (if body.pending == "" then [] else [Text(|st.tokens|)]) + [Hole]
  {
    assert body.pieces + [] == body.pieces;
  }

  lemma InterpolateRemembers(st: State, body: Body)
    requires Nested(st) && Remembers(st) && Top(st.ctx) == Some(Str(body))
    ensures Remembers(Interpolate(st, body))
  {
    hide StackOf, Deepest, PiecesAt, Followed, Interpolate;
    var next, n := Interpolate(st, body), |st.ctx| - 1;
    assert FrameRemembers(Shapes(st.tokens), st.ctx[n], n);
    InterpolateStack(st, body);
    InterpolateAdds(st, body);
    NothingIsFollowed();
    HoleIsFollowed(body.pieces, |st.tokens|);
    assert body.pieces + [] == body.pieces;
    forall k | 0 <= k < |next.ctx| ensures FrameRemembers(Shapes(next.tokens), next.ctx[k], k) {
      if k < n {
        assert next.ctx[k] == next.ctx[..n][k] == st.ctx[k];
        assert FrameRemembers(Shapes(st.tokens), st.ctx[k], k);
      }
    }
  }

  lemma StepRemembers(i: Input, st: State)
    requires Nested(st) && Remembers(st) && st.pos < |i.text|
    ensures Remembers(Step(i, st))
  {
    hide Remembers, Nested, NormalStep, FormatStep, BodyStep, Interpolate, KeptOrEnded, Interpolates;
    match Top(st.ctx)
    case Some(Str(body)) =>
      if Interpolates(i, st, body) {
        InterpolateRemembers(st, body);
        InterpolatesStep(i, st, body);
      } else {
        BodyIsKept(i, st, body);
        KeptRemembers(st, BodyStep(i, st, body), body);
      }
    case Some(Fmt) => FormatRemembers(i, st);
    case _ => NormalRemembers(i, st);
  }

  lemma InterpolatesStep(i: Input, st: State, body: Body)
    requires st.pos < |i.text| && Top(st.ctx) == Some(Str(body)) && Interpolates(i, st, body)
    ensures Step(i, st) == Interpolate(st, body)
  {
    hide Interpolate;
    assert !StartsAt(i.text, st.pos, "}}");
  }

  // -- every moment of a run --------------------------------------------------------------------------

  /** The state after `n` steps, or at the end of the input. */
  function Moment(i: Input, n: nat): (st: State)
    ensures st.pos <= |i.text|
  {
    if n == 0 then Begin(i)
    else
      var before := Moment(i, n - 1);
      if before.pos == |i.text| then before
      else
        StepAdvances(i, before);
        Step(i, before)
  }

  /** At every moment each open string remembers exactly the texts and interpolations that the
    stream shows at its own level since it was opened, if it is a multiline one, and else
    nothing; and between two texts it remembers there is an interpolation. */
  lemma {:induction false} EveryMomentRemembers(i: Input, n: nat)
    ensures Nested(Moment(i, n)) && Remembers(Moment(i, n))
  {
    hide Step, Nested, Remembers;
    if n == 0 {
      BeginNests(i);
      BeginRemembers(i);
    } else {
      EveryMomentRemembers(i, n - 1);
      var before := Moment(i, n - 1);
      if before.pos < |i.text| {
        StepNests(i, before);
        StepRemembers(i, before);
      }
    }
  }

  lemma BeginRemembers(i: Input)
    ensures Remembers(Begin(i))
  {
  }
}
