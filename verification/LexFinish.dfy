/** What the finished stream shows of a moment of the run: the tokens there were then, the text
  of the literals closed by then, and the terminators newlines called for. */
module LexFinish {
  import opened Wrappers
  import opened LexModel
  import opened LexNesting
  import opened LexTerminators
  import opened LexLiterals
  import opened LexDedent
  import opened LexWeave

  // -- tokens stay -----------------------------------------------------------------------------------

  /** Only the text of tokens that a closing literal remembers may have changed. */
  ghost predicate Stays(st: State, next: State, loose: seq<Piece>) {
    && |st.tokens| <= |next.tokens|
    && forall x :: 0 <= x < |st.tokens| ==>
         && Shape(next.tokens[x].tok) == Shape(st.tokens[x].tok) && next.tokens[x].span == st.tokens[x].span
         && (Text(x) !in loose ==> next.tokens[x] == st.tokens[x])
  }

  lemma PrefixStays(st: State, next: State, loose: seq<Piece>)
    requires st.tokens <= next.tokens
    ensures Stays(st, next, loose)
  {
  }

  /** What closing at this step may rewrite. */
  function Rewritable(st: State): seq<Piece> {
    match Top(st.ctx)
    case Some(Str(body)) => body.pieces
    case _ => []
  }

  lemma {:induction false} UnwindOnlyAdds(st: State)
    ensures st.tokens <= Unwind(st).tokens
    decreases |st.ctx|
  {
    if st.ctx != [] {
      match Top(st.ctx).value
      case Str(_) =>
      case Interp => UnwindOnlyAdds(Push(Leave(st), InterpEnd, st.pos, st.pos));
      case Fmt => UnwindOnlyAdds(Push(Leave(st), InterpEnd, st.pos, st.pos));
      case _ => UnwindOnlyAdds(Leave(st));
    }
  }

  lemma {:induction false} DrainOnlyAdds(i: Input, st: State)
    ensures st.tokens <= Drain(i, st).tokens
    decreases |st.ctx|
  {
    DrainUnfolds(i, st);
    if st.ctx != [] {
      hide Drain;
      DrainOnlyAdds(i, TopClosed(i, st));
    }
  }

  lemma NormalOnlyAdds(i: Input, st: State)
    requires st.pos < |i.text|
    ensures st.tokens <= NormalStep(i, st).tokens
  {
    hide TokenStep, OpenPlain, InsertTerminator, Inherited;
    if i.text[st.pos] == '\n' && OpenPlain(st.ctx, st.pos).Some? {
      var span := OpenPlain(st.ctx, st.pos).value;
      UnwindOnlyAdds(Fault(st, "E0102", span.start, span.end));
    } else {
      NormalInherits(i, st);
    }
  }

  /** A flush and a last token add to the tokens. */
  lemma FlushOnlyAdds(st: State, body: Body, t: Token)
    requires st.ctx != []
    ensures st.tokens <= Flush(st, body).tokens <= Flush(st, body).tokens + [t]
  {
  }

  lemma DedentedStays(i: Input, st: State, body: Body)
    requires st.pos < |i.text|
    ensures Stays(st, Dedented(i, st, body).0, body.pieces)
  {
    hide DedentPieces, MarginFault, LineStart, AllBlank, TrimBlanks, DedentChunk;
    DedentedIsAlike(i, st, body);
    var d := Dedented(i, st, body).0;
    var margin := i.text[LineStart(i.text, st.pos)..st.pos];
    var whole := body.lineStarts != [] && body.lineStarts[0] == body.start;
    forall x | 0 <= x < |st.tokens|
      ensures Shape(d.tokens[x].tok) == Shape(st.tokens[x].tok)
      ensures Text(x) !in body.pieces ==> d.tokens[x] == st.tokens[x]
    {
      assert Shapes(d.tokens)[x] == Shapes(st.tokens)[x];
      if Text(x) !in body.pieces {
        forall k | 0 <= k < |body.pieces| && body.pieces[k].Text? ensures body.pieces[k].index != x {
          assert body.pieces[k] in body.pieces;
        }
        DedentTouchesOnly(st.tokens, body.pieces, |margin|, whole, x);
      }
    }
  }

  lemma StaysThenMore(st: State, mid: State, next: State, loose: seq<Piece>)
    requires Stays(st, mid, loose) && mid.tokens <= next.tokens
    ensures Stays(st, next, loose)
  {
  }

  lemma CloseStays(i: Input, st: State, body: Body)
    requires st.pos < |i.text| && st.ctx != []
    ensures Stays(st, CloseString(i, st, body), body.pieces)
  {
    hide Dedented, Flush, Stays;
    DedentedIsAlike(i, st, body);
    DedentedStays(i, st, body);
    PrefixStays(st, st, body.pieces);
    var ready := if body.kind.Multiline? then Dedented(i, st, body) else (st, body);
    FlushOnlyAdds(ready.0, ready.1, Token(StrEnd, Span(st.pos, st.pos + CloserLength(body.kind))));
    StaysThenMore(st, ready.0, CloseString(i, st, body), body.pieces);
  }

  lemma TextOnlyAdds(i: Input, st: State, body: Body)
    requires st.pos < |i.text| && st.ctx != []
    ensures st.tokens <= TextStep(i, st, body).tokens
  {
    hide StartsAt, EscapeAt, Flush;
    FlushOnlyAdds(st, body, Token(InterpStart, Span(st.pos, st.pos + 1)));
    FlushOnlyAdds(Fault(st, "E0102", Less(body.start, 1), st.pos), body, Token(StrEnd, Span(st.pos, st.pos)));
  }

  lemma BodyStays(i: Input, st: State, body: Body)
    requires st.pos < |i.text| && st.ctx != []
    ensures Stays(st, BodyStep(i, st, body), body.pieces)
  {
    hide Stays, ClosesString, CloseString, Flush, TextStep;
    CloseStays(i, st, body);
    FlushOnlyAdds(Fault(st, "E0109", st.pos, st.pos + 1), body, Token(StrEnd, Span(st.pos, st.pos)));
    TextOnlyAdds(i, st, body);
    if !ClosesString(i.text, st.pos, body.kind) {
      PrefixStays(st, BodyStep(i, st, body), body.pieces);
    }
  }

  lemma StepStays(i: Input, st: State)
    requires st.pos < |i.text|
    ensures Stays(st, Step(i, st), Rewritable(st))
  {
    hide Stays, NormalStep, BodyStep, RunEnd;
    match Top(st.ctx)
    case Some(Str(body)) => BodyStays(i, st, body);
    case Some(Fmt) => PrefixStays(st, Step(i, st), []);
    case _ =>
      NormalOnlyAdds(i, st);
      PrefixStays(st, Step(i, st), []);
  }

  // -- closed literals are done with ------------------------------------------------------------------

  /** Something open around token `x` has been closed since. */
  ghost predicate Sealed(toks: seq<Tok>, x: nat) {
    x < |toks| && exists y :: x < y <= |toks| && DepthOf(toks[..y]) < DepthOf(toks[..x])
  }

  /** No open literal remembers such a token. */
  lemma SealedIsForgotten(st: State, x: nat)
    requires Nested(st) && Remembers(st) && Sealed(Shapes(st.tokens), x)
    ensures Text(x) !in Rewritable(st)
  {
    hide StackOf, Deepest, PiecesAt, Followed;
    var toks := Shapes(st.tokens);
    if Text(x) in Rewritable(st) {
      var k := |st.ctx| - 1;
      assert FrameRemembers(toks, st.ctx[k], k);
      var j :| 0 <= j < |PiecesAt(toks, k)| && PiecesAt(toks, k)[j] == Text(x);
      PiecesAreAround(toks, k, j);
    }
  }

  lemma SealedLater(toks: seq<Tok>, more: seq<Tok>, x: nat)
    requires Sealed(toks, x) && |toks| <= |more| && more[..|toks|] == toks
    ensures Sealed(more, x)
  {
    hide DepthOf;
    var y :| x < y <= |toks| && DepthOf(toks[..y]) < DepthOf(toks[..x]);
    assert more[..y] == toks[..y] && more[..x] == toks[..x];
  }

  /** `next` shows the tokens of `st` where they were, and those done with as they were. */
  ghost predicate Shows(st: State, next: State) {
    && |st.tokens| <= |next.tokens|
    && (forall x :: 0 <= x < |st.tokens| ==>
          Shape(next.tokens[x].tok) == Shape(st.tokens[x].tok) && next.tokens[x].span == st.tokens[x].span)
    && (forall x: nat :: x < |st.tokens| && Sealed(Shapes(st.tokens), x) ==> next.tokens[x] == st.tokens[x])
  }

  lemma ShowsPrefix(st: State, next: State)
    requires st.tokens <= next.tokens
    ensures Shows(st, next)
  {
    hide DepthOf;
  }

  lemma ShapesShown(st: State, next: State)
    requires Shows(st, next)
    ensures Shapes(next.tokens)[..|st.tokens|] == Shapes(st.tokens)
  {
  }

  lemma ShowsThrough(a: State, b: State, c: State)
    requires Shows(a, b) && Shows(b, c)
    ensures Shows(a, c)
  {
    hide Sealed;
    ShapesShown(a, b);
    forall x: nat | x < |a.tokens| && Sealed(Shapes(a.tokens), x) ensures c.tokens[x] == a.tokens[x] {
      SealedLater(Shapes(a.tokens), Shapes(b.tokens), x);
    }
  }

  lemma StepShows(i: Input, st: State)
    requires st.pos < |i.text| && Nested(st) && Remembers(st)
    ensures Shows(st, Step(i, st))
  {
    hide Step, Nested, Remembers, Sealed, Rewritable;
    StepStays(i, st);
    forall x: nat | x < |st.tokens| && Sealed(Shapes(st.tokens), x) ensures Step(i, st).tokens[x] == st.tokens[x] {
      SealedIsForgotten(st, x);
    }
  }

  lemma {:induction false} ScanShows(i: Input, st: State)
    requires st.pos <= |i.text| && Nested(st) && Remembers(st)
    ensures Shows(st, Scan(i, st))
    decreases |i.text| - st.pos, |st.ctx|
  {
    hide Step, Nested, Remembers, Shows;
    if st.pos == |i.text| {
      ShowsPrefix(st, st);
    } else {
      var next := Step(i, st);
      StepShows(i, st);
      StepNests(i, st);
      StepRemembers(i, st);
      StepAdvances(i, st);
      ScanShows(i, next);
      ShowsThrough(st, next, Scan(i, next));
    }
  }

  lemma {:induction false} ScanFromMoment(i: Input, n: nat)
    ensures Scan(i, Begin(i)) == Scan(i, Moment(i, n))
  {
    hide Step;
    if n > 0 {
      ScanFromMoment(i, n - 1);
      var before := Moment(i, n - 1);
      if before.pos < |i.text| {
        StepAdvances(i, before);
        assert Scan(i, before) == Scan(i, Step(i, before));
      }
    }
  }

  /** The finished stream shows every moment of the run. */
  lemma LexShows(i: Input, n: nat)
    ensures Shows(Moment(i, n), Lex(i))
  {
    hide Nested, Remembers, Shows, Scan, Moment, Drain;
    var st := Moment(i, n);
    EveryMomentRemembers(i, n);
    ScanFromMoment(i, n);
    ScanShows(i, st);
    var scanned := Scan(i, st);
    DrainOnlyAdds(i, scanned.(openAtEof := scanned.ctx != []));
    ShowsPrefix(scanned, Lex(i));
    ShowsThrough(st, scanned, Lex(i));
  }

  // -- newlines that end statements ---------------------------------------------------------------------

  /** At a newline read in code outside plain strings, where the last token ends a statement and
    closes no attribute, the innermost delimiter permits it and no `else` follows, the finished
    stream has a terminator. */
  lemma NewlineIsTerminated(i: Input, n: nat)
    requires var st := Moment(i, n);
             && st.pos < |i.text| && i.text[st.pos] == '\n' && InCode(Layers(st.ctx)) && OpenPlain(st.ctx, st.pos).None?
             && EndsLines(Layers(st.ctx)) && AfterStatement(Shapes(st.tokens), |st.tokens|) && !ElseFollows(i, st.pos + 1)
    ensures var st := Moment(i, n);
            |st.tokens| < |Lex(i).tokens| && Lex(i).tokens[|st.tokens|] == Token(IMPLICIT, Span(st.pos, st.pos))
  {
    hide Moment, Lex, AfterStatement, EndsLines, ElseFollows, OpenPlain, InCode;
    var st := Moment(i, n);
    MomentIsTracked(i, n);
    LastEndsAgrees(st);
    InnermostAgrees(st.ctx);
    NewlineInserts(i, st);
    NextMoment(i, n);
    LexShows(i, n + 1);
    ShownTerminator(Moment(i, n + 1), Lex(i), |st.tokens|);
  }

  lemma ShownTerminator(st: State, next: State, x: nat)
    requires Shows(st, next) && x < |st.tokens| && st.tokens[x].tok == IMPLICIT
    ensures x < |next.tokens| && next.tokens[x] == st.tokens[x]
  {
    assert Shape(next.tokens[x].tok) == IMPLICIT;
  }

  lemma NextMoment(i: Input, n: nat)
    requires Moment(i, n).pos < |i.text|
    ensures Moment(i, n + 1) == Step(i, Moment(i, n))
  {
    hide Step;
  }

  lemma NewlineInserts(i: Input, st: State)
    requires st.pos < |i.text| && i.text[st.pos] == '\n' && InCode(Layers(st.ctx)) && OpenPlain(st.ctx, st.pos).None?
    requires Permits(Innermost(st.ctx)) && LastEnds(st) && !ElseFollows(i, st.pos + 1)
    ensures Step(i, st).tokens == st.tokens + [Token(IMPLICIT, Span(st.pos, st.pos))]
  {
    hide ElseFollows, OpenPlain;
    if st.ctx != [] {
      assert Layers(st.ctx)[|st.ctx| - 1] == LayerOf(Top(st.ctx).value);
    }
    assert LastEnds(st.(pos := st.pos + 1)) == LastEnds(st);
  }

  /** The lexer's note of the last attribute is right at every moment. */
  lemma {:induction false} MomentIsTracked(i: Input, n: nat)
    ensures Nested(Moment(i, n)) && Termed(i, Moment(i, n))
  {
    hide Step, Nested, Lawful, Tracked, ElseFollows;
    if n == 0 {
      BeginNests(i);
      assert Shapes([]) == [];
      NothingIsLawful();
    } else {
      MomentIsTracked(i, n - 1);
      var before := Moment(i, n - 1);
      if before.pos < |i.text| {
        StepNests(i, before);
        StepTermed(i, before);
      }
    }
  }

  // -- the text of closed literals -----------------------------------------------------------------------

  /** The parts of the literal that ends at token `e`. */
  function PartsBefore(tokens: seq<Token>, e: nat): seq<Piece>
    requires e <= |tokens| && DepthOf(Shapes(tokens)[..e]) > 0
  {
    var toks := Shapes(tokens)[..e];
    PiecesAt(toks, DepthOf(toks) - 1)
  }

  lemma PartsAreTexts(tokens: seq<Token>, e: nat)
    requires e <= |tokens| && DepthOf(Shapes(tokens)[..e]) > 0
    ensures var parts := PartsBefore(tokens, e);
            forall k :: 0 <= k < |parts| && parts[k].Text? ==> parts[k].index < e && tokens[parts[k].index].tok.StrText?
  {
    hide PiecesAt, DepthOf;
    var toks := Shapes(tokens)[..e];
    var parts := PartsBefore(tokens, e);
    forall k | 0 <= k < |parts| && parts[k].Text?
      ensures parts[k].index < e && tokens[parts[k].index].tok.StrText?
    {
      PiecesAreAround(toks, DepthOf(toks) - 1, k);
      assert toks[parts[k].index] == Shapes(tokens)[parts[k].index];
    }
  }

  /** The text of the literal that ends at token `e`, with a mark for every interpolation. */
  function LiteralText(tokens: seq<Token>, e: nat): string
    requires e <= |tokens| && DepthOf(Shapes(tokens)[..e]) > 0
  {
    PartsAreTexts(tokens, e);
    WovenText(tokens, PartsBefore(tokens, e), "")
  }

  lemma {:induction false} TailIsWoven(tokens: seq<Token>, pieces: seq<Piece>, index: nat)
    requires index < |tokens| && tokens[index].tok.StrText?
    requires forall k :: 0 <= k < |pieces| && pieces[k].Text? ==>
               pieces[k].index < |tokens| && tokens[pieces[k].index].tok.StrText?
    ensures WovenText(tokens, pieces + [Text(index)], "") == WovenText(tokens, pieces, tokens[index].tok.text)
  {
    var all := pieces + [Text(index)];
    if pieces == [] {
      assert all[1..] == [];
    } else {
      assert all[1..] == pieces[1..] + [Text(index)];
      TailIsWoven(tokens, pieces[1..], index);
    }
  }

  /** A state whose innermost frame is a literal, and what ending it leaves. */
  lemma EndingTells(st: State, body: Body, end: State, start: nat, to: nat)
    requires Nested(st) && Top(st.ctx).Some? && Top(st.ctx).value.Str?
    requires end.tokens == Flush(st, body).tokens + [Token(StrEnd, Span(start, to))]
    requires var pieces := PiecesAt(Shapes(st.tokens), |st.ctx| - 1);
             forall k :: 0 <= k < |pieces| && pieces[k].Text? ==>
               pieces[k].index < |st.tokens| && st.tokens[pieces[k].index].tok.StrText?
    ensures var e := |end.tokens| - 1;
            && DepthOf(Shapes(end.tokens)[..e]) == |st.ctx|
            && LiteralText(end.tokens, e) == WovenText(st.tokens, PiecesAt(Shapes(st.tokens), |st.ctx| - 1), body.pending)
  {
    hide StackOf, Deepest, PiecesAt, WovenText;
    var toks, d, e := Shapes(st.tokens), |st.ctx| - 1, |end.tokens| - 1;
    var pieces := PiecesAt(toks, d);
    assert TopIs(Layers(st.ctx), Literal);
    var flushed := Flush(st, body).tokens;
    assert Shapes(end.tokens)[..e] == Shapes(flushed);
    if body.pending == "" {
      WovenIgnoresRest(st.tokens, end.tokens, pieces, "");
    } else {
      var t := Token(StrText(body.pending), Span(body.pendingStart, st.pos));
      ShapesAppend(st.tokens, t);
      ReadOne(toks, StrText(""));
      PiecesOfOneMore(toks, StrText(""), d);
      TailIsWoven(end.tokens, pieces, |st.tokens|);
      WovenIgnoresRest(st.tokens, end.tokens, pieces, body.pending);
    }
  }

  lemma {:induction false} WovenIgnoresRest(tokens: seq<Token>, other: seq<Token>, pieces: seq<Piece>, tail: string)
    requires |tokens| <= |other|
    requires forall k :: 0 <= k < |pieces| && pieces[k].Text? ==>
               pieces[k].index < |tokens| && tokens[pieces[k].index].tok.StrText?
               && tokens[pieces[k].index] == other[pieces[k].index]
    ensures WovenText(other, pieces, tail) == WovenText(tokens, pieces, tail)
  {
    if pieces != [] {
      WovenIgnoresRest(tokens, other, pieces[1..], tail);
    }
  }

  lemma {:induction false} NoColumnNoChange(s: string, whole: bool)
    ensures DedentChunk(s, 0, whole).0 == s
    decreases |s|
  {
    if s != "" {
      NoColumnNoChange(s[1..], s[0] == '\n');
      assert s[0..] == s && [s[0]] + s[1..] == s;
    }
  }

  /** Where the line of the cursor begins, and whether the literal began at a line start. */
  function Column(i: Input, st: State): nat
    requires st.pos <= |i.text|
  {
    st.pos - LineStart(i.text, st.pos)
  }

  predicate BeganAtLineStart(body: Body) {
    body.lineStarts != [] && body.lineStarts[0] == body.start
  }

  /** What a literal's text is before it is dedented, the indentation of its last line cut. */
  function WholeText(st: State, body: Body, column: nat): string
    requires Woven(st.tokens, PiecesAt(Shapes(st.tokens), Less(|st.ctx|, 1)))
  {
    WovenText(st.tokens, PiecesAt(Shapes(st.tokens), Less(|st.ctx|, 1)), TrimBlanks(body.pending, column))
  }

  /** A multiline literal about to close under nothing but blanks. */
  ghost predicate Closing(i: Input, st: State, body: Body) {
    && st.pos < |i.text| && Top(st.ctx) == Some(Str(body)) && body.kind.Multiline?
    && ClosesString(i.text, st.pos, Multiline) && AllBlank(i.text[LineStart(i.text, st.pos)..st.pos])
  }

  lemma ClosingIsWoven(i: Input, n: nat, body: Body)
    requires Closing(i, Moment(i, n), body)
    ensures var st := Moment(i, n);
            && Nested(st) && Woven(st.tokens, body.pieces) && |st.ctx| > 0
            && body.pieces == PiecesAt(Shapes(st.tokens), |st.ctx| - 1)
  {
    hide Moment, Nested, Woven, PiecesAt;
    EveryMomentRemembers(i, n);
    var st := Moment(i, n);
    RememberedIsWoven(st, |st.ctx| - 1);
    assert FrameRemembers(Shapes(st.tokens), st.ctx[|st.ctx| - 1], |st.ctx| - 1);
  }

  /** The rewritten tokens and the last text, together, are the whole text dedented. */
  lemma DedentedWhole(i: Input, st: State, body: Body)
    requires st.pos < |i.text| && AllBlank(i.text[LineStart(i.text, st.pos)..st.pos]) && Woven(st.tokens, body.pieces)
    ensures var d := Dedented(i, st, body);
            && Woven(d.0.tokens, body.pieces) && Shapes(d.0.tokens) == Shapes(st.tokens) && d.0.ctx == st.ctx
            && d.0.deepest == st.deepest
            && WovenText(d.0.tokens, body.pieces, d.1.pending)
               == DedentChunk(WovenText(st.tokens, body.pieces, TrimBlanks(body.pending, Column(i, st))), Column(i, st),
                              BeganAtLineStart(body)).0
  {
    hide DedentPieces, DedentChunk, MarginFault, LineStart, AllBlank, Followed, WovenText;
    DedentedIsAlike(i, st, body);
    var column := Column(i, st);
    if column == 0 {
      NoColumnNoChange(WovenText(st.tokens, body.pieces, body.pending), BeganAtLineStart(body));
    } else {
      ChunksDedentAsOne(st.tokens, body.pieces, TrimBlanks(body.pending, column), column, BeganAtLineStart(body));
    }
  }

  /** A literal that has ended shows the same text ever after. */
  lemma LiteralTextStays(st: State, next: State, e: nat)
    requires Shows(st, next) && e + 1 == |st.tokens|
    requires 0 < DepthOf(Shapes(st.tokens)[..e]) && DepthOf(Shapes(st.tokens)) < DepthOf(Shapes(st.tokens)[..e])
    ensures DepthOf(Shapes(next.tokens)[..e]) == DepthOf(Shapes(st.tokens)[..e])
    ensures LiteralText(next.tokens, e) == LiteralText(st.tokens, e)
  {
    hide DepthOf, PiecesAt, WovenText;
    var toks, more := Shapes(st.tokens), Shapes(next.tokens);
    ShapesShown(st, next);
    assert more[..e] == more[..|toks|][..e] == toks[..e];
    var parts := PartsBefore(st.tokens, e);
    PartsAreTexts(st.tokens, e);
    forall k | 0 <= k < |parts| && parts[k].Text?
      ensures next.tokens[parts[k].index] == st.tokens[parts[k].index]
    {
      PartIsSealed(st.tokens, e, k);
    }
    WovenIgnoresRest(st.tokens, next.tokens, parts, "");
  }

  lemma PartIsSealed(tokens: seq<Token>, e: nat, k: nat)
    requires e + 1 == |tokens| && 0 < DepthOf(Shapes(tokens)[..e])
    requires DepthOf(Shapes(tokens)) < DepthOf(Shapes(tokens)[..e])
    requires k < |PartsBefore(tokens, e)| && PartsBefore(tokens, e)[k].Text?
    ensures Sealed(Shapes(tokens), PartsBefore(tokens, e)[k].index)
  {
    hide DepthOf, PiecesAt;
    var toks := Shapes(tokens);
    var d := DepthOf(toks[..e]) - 1;
    PiecesAreAround(toks[..e], d, k);
    var x := PartsBefore(tokens, e)[k].index;
    assert toks[..e][..x] == toks[..x];
    assert toks[..|toks|] == toks;
  }

  /** Token `e` of `tokens` ends the literal that closes in `st`, and the text that the stream
    shows for it is its whole text, dedented line by line. */
  ghost predicate ClosedAs(i: Input, st: State, body: Body, tokens: seq<Token>, e: nat)
    requires st.pos <= |i.text|
  {
    && |st.tokens| <= e < |tokens| && tokens[e] == Token(StrEnd, Span(st.pos, st.pos + 3))
    && DepthOf(Shapes(tokens)[..e]) == |st.ctx| > 0
    && Woven(st.tokens, PiecesAt(Shapes(st.tokens), |st.ctx| - 1))
    && LiteralText(tokens, e)
       == Unindented(Lines(WholeText(st, body, Column(i, st))), Column(i, st), BeganAtLineStart(body))
  }

  /** Whenever a multiline literal closes under blanks only, whatever it holds and wherever it is,
    the text the finished stream shows for it is its whole text with each line that begins at a
    line start rid of its blanks, up to the closing delimiter's column. */
  lemma ClosedLiteralIsDedented(i: Input, n: nat, body: Body) returns (e: nat)
    requires Closing(i, Moment(i, n), body)
    ensures ClosedAs(i, Moment(i, n), body, Lex(i).tokens, e)
  {
    hide Moment, Lex, Dedented, Nested, DedentChunk, Unindented, PiecesAt, DepthOf, Lines, LineStart, AllBlank, Woven;
    var st := Moment(i, n);
    ClosingIsWoven(i, n, body);
    NextMoment(i, n);
    LexShows(i, n + 1);
    e := ClosingEnds(i, st, body);
    ShownEnd(Step(i, st), Lex(i), e);
    LiteralTextStays(Step(i, st), Lex(i), e);
  }

  lemma ShownEnd(st: State, next: State, x: nat)
    requires Shows(st, next) && x < |st.tokens| && st.tokens[x].tok == StrEnd
    ensures x < |next.tokens| && next.tokens[x] == st.tokens[x]
  {
    assert Shape(next.tokens[x].tok) == StrEnd;
  }

  /** The step that closes the literal. */
  lemma ClosingStep(i: Input, st: State, body: Body)
    requires Closing(i, st, body)
    ensures var d, next := Dedented(i, st, body), Step(i, st);
            && next == CloseString(i, st, body)
            && next.tokens == Flush(d.0, d.1).tokens + [Token(StrEnd, Span(st.pos, st.pos + 3))]
            && |d.0.tokens| == |st.tokens| <= |Flush(d.0, d.1).tokens| && next.ctx == Pop(st.ctx)
  {
    hide Dedented, LineStart, AllBlank, ClosesString;
    DedentedIsAlike(i, st, body);
    hide Flush;
    var d := Dedented(i, st, body);
    FlushOnlyAdds(d.0, d.1, Token(StrEnd, Span(st.pos, st.pos + 3)));
    FlushEnds(d.0, d.1, Token(StrEnd, Span(st.pos, st.pos + 3)));
  }

  lemma ClosingEnds(i: Input, st: State, body: Body) returns (e: nat)
    requires Closing(i, st, body) && Nested(st) && Woven(st.tokens, body.pieces)
    requires body.pieces == PiecesAt(Shapes(st.tokens), |st.ctx| - 1)
    ensures e + 1 == |Step(i, st).tokens|
    ensures ClosedAs(i, st, body, Step(i, st).tokens, e)
    ensures DepthOf(Shapes(Step(i, st).tokens)) < |st.ctx|
  {
    hide Dedented, Nested, Unindented, PiecesAt, Lines, LineStart, AllBlank, Woven, Flush, Step, ClosesString, LiteralText,
         WovenText, DepthOf, CloseString;
    ClosingStep(i, st, body);
    var next := Step(i, st);
    e := |next.tokens| - 1;
    ClosingTells(i, st, body, next);
    CloseNests(i, st, body);
    DepthIsNested(next);
  }

  lemma ClosingTells(i: Input, st: State, body: Body, next: State)
    requires Closing(i, st, body) && Nested(st) && Woven(st.tokens, body.pieces)
    requires body.pieces == PiecesAt(Shapes(st.tokens), |st.ctx| - 1)
    requires var d := Dedented(i, st, body);
             next.tokens == Flush(d.0, d.1).tokens + [Token(StrEnd, Span(st.pos, st.pos + 3))]
    ensures var e := |next.tokens| - 1;
            && DepthOf(Shapes(next.tokens)[..e]) == |st.ctx| > 0
            && LiteralText(next.tokens, e)
               == Unindented(Lines(WholeText(st, body, Column(i, st))), Column(i, st), BeganAtLineStart(body))
  {
    var d := Dedented(i, st, body);
    DedentedWhole(i, st, body);
    WovenIsText(d.0.tokens, body.pieces);
    hide Dedented, StackOf, Deepest, DedentChunk, Unindented, PiecesAt, Lines, LineStart, AllBlank, Woven, Flush, ClosesString,
         LiteralText, WovenText, DepthOf;
    EndingTells(d.0, d.1, next, st.pos, st.pos + 3);
    DedentIsLineByLine(WholeText(st, body, Column(i, st)), Column(i, st), BeganAtLineStart(body));
  }

  lemma DepthIsNested(st: State)
    requires Nested(st)
    ensures DepthOf(Shapes(st.tokens)) == |st.ctx|
  {
    hide StackOf, Deepest;
  }

  lemma WovenIsText(tokens: seq<Token>, pieces: seq<Piece>)
    requires Woven(tokens, pieces)
    ensures forall k :: 0 <= k < |pieces| && pieces[k].Text? ==>
              pieces[k].index < |tokens| && tokens[pieces[k].index].tok.StrText?
  {
  }
}
