/** What the text of a string is read from: at every moment the text held back for the innermost
  string is what the source since the last token spells, told without the lexer. */
module LexReads {
  import opened Wrappers
  import opened LexModel
  import opened LexNesting
  import opened LexSpans
  import opened LexEscapes
  import opened LexNumbers
  import opened LexTokens
  import opened LexWeave
  import opened LexMargins

  // -- spellings of text ------------------------------------------------------------------------

  predicate IsCooked(kind: StrKind) {
    kind.Plain? || kind.Multiline?
  }

  /** The text from `at` to `to` spells `c`: as itself, as a doubled brace or as an escape; in a raw
    or generalized string always as itself. */
  ghost predicate SpellsOne(text: string, kind: StrKind, at: nat, to: nat, c: char)
    requires at < to <= |text|
  {
    if !IsCooked(kind) then to == at + 1 && text[at] == c
    else
      || (to == at + 1 && text[at] == c && c != '{' && c != '}' && c != '\\')
      || ((c == '{' || c == '}') && text[at..to] == [c, c])
      || (text[at] == '\\' && SpellsEscape(text[at + 1..to], c, false))
  }

  ghost predicate NoEscapeAt(text: string, at: nat) {
    forall to, c :: at < to <= |text| ==> !SpellsEscape(text[at..to], c, false)
  }

  /** The text from `at` to `to` spells nothing: a lone closing brace, or a bad escape. */
  ghost predicate SpellsNothing(text: string, kind: StrKind, at: nat, to: nat)
    requires at < to <= |text|
  {
    && IsCooked(kind)
    && ((text[at] == '}' && to == at + 1 && !StartsAt(text, at, "}}"))
        || (text[at] == '\\' && NoEscapeAt(text, at + 1)))
  }

  /** The text from `from` to `to` spells `s`, one character or nothing at a time. */
  ghost predicate SpellsText(text: string, kind: StrKind, from: nat, to: nat, s: string)
    decreases to, 1
  {
    && from <= to <= |text|
    && if from == to then s == "" else exists at :: from <= at < to && EndsWith(text, kind, from, at, to, s)
  }

  /** The last piece of it begins at `at`. */
  ghost predicate EndsWith(text: string, kind: StrKind, from: nat, at: nat, to: nat, s: string)
    decreases to, 0
    requires from <= at < to <= |text|
  {
    (s != "" && SpellsOne(text, kind, at, to, s[|s| - 1]) && SpellsText(text, kind, from, at, s[..|s| - 1]))
    || (SpellsNothing(text, kind, at, to) && SpellsText(text, kind, from, at, s))
  }

  lemma OneMoreSpelt(text: string, kind: StrKind, from: nat, at: nat, to: nat, s: string, c: char)
    requires SpellsText(text, kind, from, at, s) && at < to <= |text| && SpellsOne(text, kind, at, to, c)
    ensures SpellsText(text, kind, from, to, s + [c])
  {
    hide SpellsOne, SpellsNothing;
    var more := s + [c];
    var n := |more| - 1;
    assert more[n] == c && more[..n] == s;
    assert EndsWith(text, kind, from, at, to, more);
  }

  lemma NothingMoreSpelt(text: string, kind: StrKind, from: nat, at: nat, to: nat, s: string)
    requires SpellsText(text, kind, from, at, s) && at < to <= |text| && SpellsNothing(text, kind, at, to)
    ensures SpellsText(text, kind, from, to, s)
  {
    hide SpellsOne, SpellsNothing;
    assert EndsWith(text, kind, from, at, to, s);
  }

  // -- the invariant ------------------------------------------------------------------------------

  ghost predicate BodyReads(i: Input, st: State, body: Body) {
    SpellsText(i.text, body.kind, EndOf(i, st.tokens), st.pos, body.pending)
  }

  ghost predicate Reads(i: Input, st: State) {
    Top(st.ctx).Some? && Top(st.ctx).value.Str? ==> BodyReads(i, st, Top(st.ctx).value.body)
  }

  // -- steps outside strings ------------------------------------------------------------------------

  /** The last token ends at the cursor. */
  predicate EndsHere(st: State) {
    st.tokens != [] && st.tokens[|st.tokens| - 1].span.end == st.pos
  }

  lemma OpenEndsHere(st: State, kind: StrKind, start: nat, body: nat)
    ensures EndsHere(OpenString(st, kind, start, body))
  {
    hide StringDepth;
  }

  lemma LineStartEndsHere(st: State, at: nat)
    requires EndsHere(st)
    ensures EndsHere(AtLineStart(st, at))
  {
  }

  lemma WordEndsHere(i: Input, st: State)
    requires st.pos < |i.text| && (IsXidStart(i, i.text[st.pos]) || i.text[st.pos] == '_')
    ensures var next := WordStep(i, st); EndsHere(next) || next.ctx == st.ctx
  {
    hide OpenString, IsKeyword, RunEnd;
    var end := RunEnd(i.text, st.pos, Continues(i));
    var quote := RunEnd(i.text, end, IsHash);
    OpenEndsHere(st, Raw(quote - end), st.pos, quote + 1);
    OpenEndsHere(st, Generalized(i.text[st.pos..end]), st.pos, end + 1);
  }

  lemma QuoteEndsHere(i: Input, st: State)
    requires Sees(i.text, st.pos, '"')
    ensures EndsHere(QuoteStep(i, st))
  {
    hide OpenString, AtLineStart, AllWhite, RunEnd, EndsHere;
    if StartsAt(i.text, st.pos, "\"\"\"") {
      var after := st.pos + 3;
      var eol := RunEnd(i.text, after, NotNewline);
      var judged := if AllWhite(i, after, eol) then st else Fault(st, "E0103", after, eol);
      var newline := if Sees(i.text, after, '\r') then after + 1 else after;
      OpenEndsHere(judged, Multiline, st.pos, newline + 1);
      OpenEndsHere(judged, Multiline, st.pos, after);
      LineStartEndsHere(OpenString(judged, Multiline, st.pos, newline + 1), newline + 1);
    } else {
      OpenEndsHere(st, StrKind.Plain, st.pos, st.pos + 1);
    }
  }

  lemma SingleEndsHere(i: Input, st: State)
    requires st.pos < |i.text|
    ensures EndsHere(SingleStep(i, st))
  {
    hide StrayEnd, IsSingle, PopDelimiter, Emit, EndsHere;
    var c, end := i.text[st.pos], st.pos + 1;
    var stop := StrayEnd(i, end);
    if c == '(' {
      EmitEndsHere(Enter(st, Paren), LParen, st.pos, end);
    } else if c == '[' {
      EmitEndsHere(Enter(st, Bracket), LBracket, st.pos, end);
    } else if c == '{' {
      EmitEndsHere(Enter(st, Brace), LBrace, st.pos, end);
    } else if c == ')' {
      EmitEndsHere(PopDelimiter(st, Paren), RParen, st.pos, end);
    } else if c == ']' {
      EmitEndsHere(PopDelimiter(st, Bracket), RBracket, st.pos, end);
      SameEnd(Emit(PopDelimiter(st, Bracket), RBracket, st.pos, end), CloseBracket(st));
    } else if c == '}' {
      EmitEndsHere(Leave(st), InterpEnd, st.pos, end);
      EmitEndsHere(PopDelimiter(st, Brace), RBrace, st.pos, end);
    } else if c == ':' {
      EmitEndsHere(st, Op(":"), st.pos, end);
      if st.ctx != [] {
        EmitEndsHere(WithTop(st, Fmt), FmtStart, st.pos, end);
      }
    } else if c == ';' {
      EmitEndsHere(st, Term(true), st.pos, end);
    } else {
      EmitEndsHere(st, Op([c]), st.pos, end);
      EmitEndsHere(Fault(st, "E0107", st.pos, end), Error, st.pos, end);
      EmitEndsHere(Fault(st, "E0107", st.pos, stop), Error, st.pos, stop);
    }
  }

  lemma EmitEndsHere(st: State, t: Tok, start: nat, end: nat)
    ensures EndsHere(Emit(st, t, start, end))
  {
  }

  lemma SameEnd(a: State, b: State)
    requires EndsHere(a) && b.tokens == a.tokens && b.pos == a.pos
    ensures EndsHere(b)
  {
  }

  lemma TokenEndsHere(i: Input, st: State)
    requires st.pos < |i.text|
    ensures var next := TokenStep(i, st); EndsHere(next) || next.ctx == st.ctx
  {
    hide WordStep, NumberStep, CharStep, QuoteStep, SingleStep, IsXidStart, LongestOperator, StartsAt;
    var c := i.text[st.pos];
    if IsXidStart(i, c) || c == '_' {
      WordEndsHere(i, st);
    } else if IsDigit(c) {
      NumberStaysPut(i, st);
    } else if c == '"' {
      QuoteEndsHere(i, st);
    } else if c == '\'' {
      CharStaysPut(i, st);
    } else if !StartsAt(i.text, st.pos, "#![") && !StartsAt(i.text, st.pos, "#[")
              && LongestOperator(i.text, st.pos, OPERATORS).None? {
      SingleEndsHere(i, st);
    }
  }

  lemma NumberStaysPut(i: Input, st: State)
    requires DigitAt(i.text, st.pos)
    ensures NumberStep(i, st).ctx == st.ctx
  {
    hide WellBased, RunEnd, FractionEnd, ExponentEnd;
  }

  lemma CharStaysPut(i: Input, st: State)
    requires Sees(i.text, st.pos, '\'')
    ensures CharStep(i, st).ctx == st.ctx
  {
    hide CharBody;
  }

  lemma {:induction false} UnwindEndsHere(st: State)
    ensures EndsHere(Unwind(st)) || Unwind(st).ctx == []
    decreases |st.ctx|
  {
    if st.ctx != [] {
      match Top(st.ctx).value
      case Str(_) =>
      case Interp => UnwindEndsHere(Push(Leave(st), InterpEnd, st.pos, st.pos));
      case Fmt => UnwindEndsHere(Push(Leave(st), InterpEnd, st.pos, st.pos));
      case _ => UnwindEndsHere(Leave(st));
    }
  }

  lemma NormalEndsHere(i: Input, st: State)
    requires st.pos < |i.text| && InTokens(st)
    ensures var next := NormalStep(i, st); Top(next.ctx).Some? && Top(next.ctx).value.Str? ==> EndsHere(next)
  {
    hide TokenStep, OpenPlain, Permits, LastEnds, ElseFollows, EndsHere, RunEnd, StartsAt, Unwind;
    var c := i.text[st.pos];
    if c == '\n' {
      match OpenPlain(st.ctx, st.pos)
      case Some(span) => UnwindEndsHere(Fault(st, "E0102", span.start, span.end));
      case None =>
    } else if !IsInline(c) && !StartsAt(i.text, st.pos, "//") {
      TokenEndsHere(i, st);
    }
  }

  lemma FormatEndsHere(i: Input, st: State)
    requires st.pos < |i.text| && Top(st.ctx) == Some(Fmt)
    ensures var next := FormatStep(i, st); Top(next.ctx).Some? && Top(next.ctx).value.Str? ==> EndsHere(next)
  {
    hide RunEnd;
  }

  /** A string that is innermost after a step in code was just opened, or returned to, and nothing
    of it has been read. */
  lemma CodeReads(i: Input, st: State)
    requires st.pos < |i.text| && Nested(st) && Placed(st) && InTokens(st)
    ensures Reads(i, Step(i, st))
  {
    hide Nested, NormalStep, FormatStep, Laid, BodyStep;
    var next := Step(i, st);
    StepAdvances(i, st);
    if Top(next.ctx).Some? && Top(next.ctx).value.Str? {
      var d := |next.ctx| - 1;
      OutsideStrings(st);
      CodeFrames(i, st, d);
      TokensAreHushed(st);
      if d < |st.ctx| {
        assert Silent(st.ctx[d]);
      }
      if Top(st.ctx) == Some(Fmt) {
        FormatEndsHere(i, st);
      } else {
        NormalEndsHere(i, st);
      }
    }
  }

  // -- steps in strings ---------------------------------------------------------------------------------

  /** The innermost string after a step that emitted nothing. */
  ghost predicate StillReads(i: Input, st: State, next: State, body: Body) {
    && next.tokens == st.tokens && Top(next.ctx).Some? && Top(next.ctx).value.Str?
    && Top(next.ctx).value.body.kind == body.kind && BodyReads(i, next, Top(next.ctx).value.body)
  }

  lemma HoldReads(i: Input, st: State, body: Body, c: char, to: nat)
    requires st.ctx != [] && BodyReads(i, st, body) && st.pos < to <= |i.text| && SpellsOne(i.text, body.kind, st.pos, to, c)
    ensures StillReads(i, st, Hold(st, body, c, to), body)
  {
    hide SpellsOne, SpellsText;
    OneMoreSpelt(i.text, body.kind, EndOf(i, st.tokens), st.pos, to, body.pending, c);
  }

  lemma SkipReads(i: Input, st: State, body: Body, code: string, start: nat, end: nat)
    requires st.ctx != [] && BodyReads(i, st, body) && st.pos < end <= |i.text| && SpellsNothing(i.text, body.kind, st.pos, end)
    ensures StillReads(i, st, WithTop(Fault(st, code, start, end), Str(body)).(pos := end), body)
  {
    hide SpellsNothing, SpellsText;
    NothingMoreSpelt(i.text, body.kind, EndOf(i, st.tokens), st.pos, end, body.pending);
  }

  lemma LineStartReads(i: Input, st: State, next: State, body: Body, at: nat)
    requires StillReads(i, st, next, body)
    ensures StillReads(i, st, AtLineStart(next, at), body)
  {
    hide SpellsText;
  }

  lemma DoubledIsSpelt(text: string, kind: StrKind, at: nat, word: string, c: char)
    requires IsCooked(kind) && (c == '{' || c == '}') && word == [c, c] && StartsAt(text, at, word)
    ensures at + 2 <= |text| && SpellsOne(text, kind, at, at + 2, c)
  {
    hide SpellsEscape;
  }

  lemma ItselfIsSpelt(text: string, kind: StrKind, at: nat)
    requires at < |text| && (IsCooked(kind) ==> text[at] != '{' && text[at] != '}' && text[at] != '\\')
    ensures SpellsOne(text, kind, at, at + 1, text[at])
  {
    hide SpellsEscape;
  }

  lemma BadEscape(text: string, at: nat)
    requires at < |text| && EscapeAt(text, at, false).value.Err?
    ensures NoEscapeAt(text, at)
  {
    hide EscapeAt, SpellsEscape;
    forall to, c | at < to <= |text| ensures !SpellsEscape(text[at..to], c, false) {
      EscapesAreSpelt(text, at, to, c, false);
    }
  }

  lemma EscapeReads(i: Input, st: State, body: Body)
    requires st.ctx != [] && BodyReads(i, st, body) && st.pos < |i.text| && i.text[st.pos] == '\\' && IsCooked(body.kind)
    ensures StillReads(i, st, EscapeStep(i, st, body), body)
  {
    hide StillReads, BodyReads, EscapeAt, SpellsEscape, Hold;
    if st.pos + 1 == |i.text| {
      SkipReads(i, st, body, "E0102", st.pos, st.pos + 1);
    } else {
      var e := EscapeAt(i.text, st.pos + 1, false);
      match e.value
      case Ok(c) =>
        EscapesAreSpelt(i.text, st.pos + 1, e.end, c, false);
        HoldReads(i, st, body, c, e.end);
      case Err(_) =>
        BadEscape(i.text, st.pos + 1);
        SkipReads(i, st, body, "E0101", st.pos, e.end);
    }
  }

  lemma TextReads(i: Input, st: State, body: Body)
    requires st.ctx != [] && BodyReads(i, st, body) && st.pos < |i.text| && IsCooked(body.kind)
    requires !(i.text[st.pos] == '{' && !StartsAt(i.text, st.pos, "{{"))
    requires !(i.text[st.pos] == '\n' && body.kind.Plain?)
    ensures StillReads(i, st, TextStep(i, st, body), body)
  {
    hide StillReads, BodyReads, EscapeStep, Hold, AtLineStart, SpellsOne, StartsAt;
    var c := i.text[st.pos];
    if StartsAt(i.text, st.pos, "{{") {
      DoubledIsSpelt(i.text, body.kind, st.pos, "{{", '{');
      HoldReads(i, st, body, '{', st.pos + 2);
    } else if StartsAt(i.text, st.pos, "}}") {
      DoubledIsSpelt(i.text, body.kind, st.pos, "}}", '}');
      HoldReads(i, st, body, '}', st.pos + 2);
    } else if c == '}' {
      SkipReads(i, st, body, "E0111", st.pos, st.pos + 1);
    } else if c == '\\' {
      EscapeReads(i, st, body);
    } else {
      ItselfIsSpelt(i.text, body.kind, st.pos);
      HoldReads(i, st, body, c, st.pos + 1);
      LineStartReads(i, st, Hold(st, body, c, st.pos + 1), body, st.pos + 1);
    }
  }

  lemma KeptReads(i: Input, st: State, body: Body)
    requires Top(st.ctx) == Some(Str(body)) && BodyReads(i, st, body) && st.pos < |i.text|
    requires !ClosesString(i.text, st.pos, body.kind) && !Interpolates(i, st, body)
    requires !(i.text[st.pos] == '\n' && (body.kind.Plain? || body.kind.Generalized?))
    ensures Reads(i, BodyStep(i, st, body))
  {
    hide BodyReads, TextStep, ClosesString, Hold, StartsAt, SpellsOne;
    if IsCooked(body.kind) {
      TextReads(i, st, body);
    } else {
      ItselfIsSpelt(i.text, body.kind, st.pos);
      HoldReads(i, st, body, i.text[st.pos], st.pos + 1);
    }
  }

  /** A string that ends leaves code around it, or one that was returned to. */
  lemma EndReads(i: Input, st: State, next: State)
    requires Placed(next) && EndsHere(next) && next.pos <= |i.text| && Hushed(next.ctx)
    ensures Reads(i, next)
  {
    hide Laid;
    if Top(next.ctx).Some? {
      assert Silent(next.ctx[|next.ctx| - 1]);
    }
  }

  lemma StringReads(i: Input, st: State, body: Body)
    requires Nested(st) && Placed(st) && Top(st.ctx) == Some(Str(body)) && BodyReads(i, st, body) && st.pos < |i.text|
    ensures Reads(i, Step(i, st))
  {
    hide Nested, Placed, BodyReads, ClosesString, Interpolates, BodyStep, Hushed;
    if Interpolates(i, st, body) {
      InterpolatesStep(i, st, body);
      InterpolationIsCode(st, body);
    } else if ClosesString(i.text, st.pos, body.kind)
              || (i.text[st.pos] == '\n' && (body.kind.Plain? || body.kind.Generalized?)) {
      StepPlaced(i, st);
      StepAdvances(i, st);
      LeavesHere(i, st, body);
      HushedBelow(st);
      EndReads(i, st, Step(i, st));
    } else {
      KeptReads(i, st, body);
    }
  }

  lemma InterpolationIsCode(st: State, body: Body)
    requires st.ctx != []
    ensures Top(Interpolate(st, body).ctx) == Some(Interp)
  {
  }

  lemma HushedBelow(st: State)
    requires Placed(st)
    ensures Hushed(Pop(st.ctx))
  {
  }

  lemma LeavesHere(i: Input, st: State, body: Body)
    requires Top(st.ctx) == Some(Str(body)) && st.pos < |i.text| && !Interpolates(i, st, body)
    requires ClosesString(i.text, st.pos, body.kind)
             || (i.text[st.pos] == '\n' && (body.kind.Plain? || body.kind.Generalized?))
    ensures var next := BodyStep(i, st, body); EndsHere(next) && next.ctx == Pop(st.ctx)
  {
    hide Dedented, ClosesString, StartsAt, AtLineStart, Hold, EscapeStep, Interpolate;
    var ready := if body.kind.Multiline? then Dedented(i, st, body) else (st, body);
    DedentedIsAlike(i, st, body);
    hide Flush;
    FlushStays(ready.0, ready.1);
    FlushStays(Fault(st, "E0109", st.pos, st.pos + 1), body);
    FlushStays(Fault(st, "E0102", Less(body.start, 1), st.pos), body);
    if i.text[st.pos] == '\n' {
      NewlineStartsNothing(i.text, st.pos);
    }
  }

  lemma NewlineStartsNothing(text: string, at: nat)
    requires at < |text| && text[at] == '\n'
    ensures !StartsAt(text, at, "{{") && !StartsAt(text, at, "}}")
  {
  }

  lemma FlushStays(st: State, body: Body)
    requires st.ctx != []
    ensures Flush(st, body).pos == st.pos && Pop(Flush(st, body).ctx) == Pop(st.ctx)
  {
  }

  // -- every moment -----------------------------------------------------------------------------------------

  lemma StepReads(i: Input, st: State)
    requires Nested(st) && Placed(st) && Reads(i, st) && st.pos < |i.text|
    ensures Reads(i, Step(i, st))
  {
    hide Nested, Placed, Step, BodyReads;
    if Top(st.ctx).Some? && Top(st.ctx).value.Str? {
      StringReads(i, st, Top(st.ctx).value.body);
    } else {
      CodeReads(i, st);
    }
  }

  /** At every moment of any run the text held back for the innermost string is what the source
    from the last token to the cursor spells: each character itself, a doubled brace or an escape,
    and nothing for a lone closing brace or a bad escape; in a raw or generalized string each
    character itself. */
  lemma {:induction false} EveryMomentReads(i: Input, n: nat)
    ensures Placed(Moment(i, n)) && Reads(i, Moment(i, n))
  {
    hide Step, Nested, Placed, Reads, Remembers;
    if n == 0 {
      BeginReads(i);
    } else {
      EveryMomentReads(i, n - 1);
      EveryMomentRemembers(i, n - 1);
      var before := Moment(i, n - 1);
      if before.pos < |i.text| {
        StepPlaced(i, before);
        StepReads(i, before);
      }
    }
  }

  lemma BeginReads(i: Input)
    ensures Placed(Begin(i)) && Reads(i, Begin(i))
  {
  }
}
