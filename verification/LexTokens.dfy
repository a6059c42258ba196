/** What each token is spelt like, told without the lexer: for every input, the text under a
  token is a spelling of that token and of no longer one, and between two tokens in code there
  is nothing but blanks, line ends and comments. */
module LexTokens {
  import opened Wrappers
  import opened LexModel
  import opened LexNesting
  import opened LexSpans
  import opened LexNumbers
  import opened LexEscapes

  // -- spellings ----------------------------------------------------------------------------------

  predicate BeginsWord(i: Input, c: char) {
    c == '_' || 'a' <= c <= 'z' || 'A' <= c <= 'Z' || (c as int >= 128 && i.unicode.alphabetic(c))
  }

  predicate InWord(i: Input, c: char) {
    BeginsWord(i, c) || '0' <= c <= '9' || (c as int >= 128 && i.unicode.numeric(c))
  }

  /** The longest word at `start`. */
  predicate IsWord(i: Input, start: nat, end: nat) {
    && start < end <= |i.text| && BeginsWord(i, i.text[start])
    && (forall k :: start < k < end ==> InWord(i, i.text[k]))
    && (end < |i.text| ==> !InWord(i, i.text[end]))
  }

  predicate Hashes(text: string, from: nat, to: nat) {
    from <= to <= |text| && forall k :: from <= k < to ==> text[k] == '#'
  }

  /** An `r` that ends at `end` opens a raw string. */
  ghost predicate OpensRaw(text: string, end: nat) {
    exists to :: end <= to < |text| && Hashes(text, end, to) && text[to] == '"'
  }

  /** The longest operator there is: no other that is spelt here is longer. */
  predicate IsOperator(text: string, start: nat, o: string) {
    && (o in OPERATORS || o == ":" || (|o| == 1 && o[0] in "!+-*/%&^|<>=.?,@"))
    && !StartsAt(text, start, "//")
    && forall w :: w in OPERATORS && StartsAt(text, start, w) ==> |w| <= |o|
  }

  /** A token of code begins at `at`. */
  predicate BeginsToken(i: Input, at: nat)
    requires at < |i.text|
  {
    var c := i.text[at];
    || BeginsWord(i, c) || '0' <= c <= '9' || c in "\"'()[]{}:;!+-*/%&^|<>=.?,@"
    || StartsAt(i.text, at, "#[") || StartsAt(i.text, at, "#![")
  }

  ghost predicate IsStray(i: Input, start: nat, end: nat) {
    start < end <= |i.text| && forall k :: start <= k < end ==> !BeginsToken(i, k) && i.text[k] != '\n'
  }

  ghost predicate NoCharAt(text: string, start: nat) {
    forall to, c :: start + 3 <= to <= |text| ==> !SpellsChar(text[start..to], c)
  }

  predicate IsOpener(text: string, start: nat, end: nat, kind: StrKind)
    requires start <= end <= |text|
  {
    match kind
    case Plain => text[start..end] == "\"" && !StartsAt(text, start, "\"\"\"")
    case Multiline =>
      StartsAt(text, start, "\"\"\"")
      && (if StartsAt(text, start + 3, "\r\n") then end == start + 5
          else if StartsAt(text, start + 3, "\n") then end == start + 4 else end == start + 3)
    case Raw(hashes) =>
      end == start + hashes + 2 && text[start] == 'r' && Hashes(text, start + 1, end - 1) && text[end - 1] == '"'
    case Generalized(prefix) =>
      end == start + |prefix| + 1 && text[start..end - 1] == prefix && text[end - 1] == '"'
  }

  /** The text under a token is a spelling of it.  A token without text closes something that the
    input left open, or is an inserted terminator; the text of a string is told elsewhere. */
  ghost predicate Spelt(i: Input, t: Token) {
    var start, end := t.span.start, t.span.end;
    && start <= end <= |i.text|
    && var s := i.text[start..end];
       match t.tok
       case Ident(name) =>
         && s == name && name != "_" && IsWord(i, start, end)
         && (if name == "r" then !OpensRaw(i.text, end) else !IsKeyword(name) && !Sees(i.text, end, '"'))
       case Underscore => s == "_" && IsWord(i, start, end)
       case Kw(word) => s == word && IsKeyword(word) && IsWord(i, start, end)
       case Int(n) => s == n && LongestNumber(i.text, start, end) && !HasPointOrExponent(s)
       case Float(n) => s == n && LongestNumber(i.text, start, end) && HasPointOrExponent(s)
       case Char(c) => SpellsChar(s, c)
       case StrStart(kind) =>
         && IsOpener(i.text, start, end, kind)
         && (kind.Generalized? ==> IsWord(i, start, end - 1) && kind.prefix != "r" && kind.prefix != "_"
                                   && !IsKeyword(kind.prefix))
       case StrText(_) => true
       case StrEnd => s == "" || s == "\"\"\"" || (s[0] == '"' && Hashes(s, 1, |s|))
       case InterpStart => s == "{"
       case InterpEnd => s == "" || s == "}"
       case FmtStart => s == ":"
       case FmtText(f) =>
         s == f && f != "" && '{' !in f && '}' !in f && (end < |i.text| ==> i.text[end] == '{' || i.text[end] == '}')
       case Term(explicit) => s == if explicit then ";" else ""
       case LParen => s == "("
       case RParen => s == ")"
       case LBracket => s == "["
       case RBracket => s == "]"
       case LBrace => s == "{"
       case RBrace => s == "}"
       case HashBracket => s == "#["
       case HashBangBracket => s == "#!["
       case Op(o) => s == o && IsOperator(i.text, start, o)
       case Error => start < end && (IsStray(i, start, end) || (i.text[start] == '\'' && NoCharAt(i.text, start)))
  }

  // -- what stands between tokens --------------------------------------------------------------------

  predicate IsComment(text: string, from: nat, to: nat) {
    && from + 2 <= to <= |text| && text[from] == '/' && text[from + 1] == '/'
    && (forall k :: from <= k < to ==> text[k] != '\n') && (to < |text| ==> text[to] == '\n')
  }

  /** Blanks, line ends and comments. */
  ghost predicate Trivia(text: string, from: nat, to: nat)
    decreases to
  {
    && from <= to <= |text|
    && (|| from == to
        || ((text[to - 1] in " \t\r\n" || text[to - 1] == 11 as char || text[to - 1] == 12 as char)
            && Trivia(text, from, to - 1))
        || exists mid :: from <= mid < to && IsComment(text, mid, to) && Trivia(text, from, mid))
  }

  /** After these tokens the lexer reads code. */
  predicate CodeAfter(toks: seq<Tok>) {
    StackOf(toks).Some? && InCode(StackOf(toks).value)
  }

  /** Where the last token ends, or the prologue of the file. */
  function EndOf(i: Input, tokens: seq<Token>): nat {
    if tokens == [] then FirstOffset(i) else tokens[|tokens| - 1].span.end
  }

  /** In code there is only trivia before each token. */
  ghost predicate GapsAreTrivia(i: Input, tokens: seq<Token>) {
    forall k :: 0 <= k < |tokens| && CodeAfter(Shapes(tokens[..k])) ==>
      Trivia(i.text, EndOf(i, tokens[..k]), tokens[k].span.start)
  }

  // -- what is reported of numbers ----------------------------------------------------------------------

  predicate IsBadNumber(i: Input, t: Token) {
    t.tok.Int? && IsIllBased(t.tok.spelling)
  }

  /** A bad number is reported at each number that is bad, and nowhere else. */
  ghost predicate BadNumbersReported(i: Input, tokens: seq<Token>, errors: seq<Diag>) {
    forall span :: Diag("E0106", span) in errors <==> exists t :: t in tokens && t.span == span && IsBadNumber(i, t)
  }

  /** A step reported nothing more of numbers but what it says of `t`. */
  ghost predicate ReportsOnly(i: Input, errors: seq<Diag>, more: seq<Diag>, t: Token) {
    forall span :: Diag("E0106", span) in more
              <==> Diag("E0106", span) in errors || (span == t.span && IsBadNumber(i, t))
  }

  ghost predicate AllSpelt(i: Input, tokens: seq<Token>) {
    forall k :: 0 <= k < |tokens| ==> Spelt(i, tokens[k])
  }

  ghost predicate Account(i: Input, tokens: seq<Token>, errors: seq<Diag>) {
    AllSpelt(i, tokens) && BadNumbersReported(i, tokens, errors) && GapsAreTrivia(i, tokens)
  }

  ghost predicate Written(i: Input, st: State) {
    && Account(i, st.tokens, st.errors)
    && (InCode(Layers(st.ctx)) ==> Trivia(i.text, EndOf(i, st.tokens), st.pos))
  }

  // -- one token more ---------------------------------------------------------------------------------------

  lemma OneMoreReported(i: Input, tokens: seq<Token>, errors: seq<Diag>, t: Token, more: seq<Diag>)
    requires BadNumbersReported(i, tokens, errors) && ReportsOnly(i, errors, more, t)
    ensures BadNumbersReported(i, tokens + [t], more)
  {
    hide IsBadNumber;
    forall span
      ensures Diag("E0106", span) in more <==> exists x :: x in tokens + [t] && x.span == span && IsBadNumber(i, x)
    {
      assert t in tokens + [t];
      if x :| x in tokens && x.span == span && IsBadNumber(i, x) {
        assert x in tokens + [t];
      }
    }
  }

  lemma OneMoreGap(i: Input, tokens: seq<Token>, t: Token)
    requires GapsAreTrivia(i, tokens)
    requires CodeAfter(Shapes(tokens)) ==> Trivia(i.text, EndOf(i, tokens), t.span.start)
    ensures GapsAreTrivia(i, tokens + [t])
  {
    hide CodeAfter, Trivia, EndOf;
    var more := tokens + [t];
    forall k | 0 <= k < |more| && CodeAfter(Shapes(more[..k]))
      ensures Trivia(i.text, EndOf(i, more[..k]), more[k].span.start)
    {
      if k < |tokens| {
        assert more[..k] == tokens[..k];
      } else {
        assert more[..k] == tokens;
      }
    }
  }

  lemma OneMoreAccounted(i: Input, tokens: seq<Token>, errors: seq<Diag>, t: Token, more: seq<Diag>)
    requires Account(i, tokens, errors) && Spelt(i, t) && ReportsOnly(i, errors, more, t)
    requires CodeAfter(Shapes(tokens)) ==> Trivia(i.text, EndOf(i, tokens), t.span.start)
    ensures Account(i, tokens + [t], more)
  {
    hide Spelt, CodeAfter, Trivia, ReportsOnly, BadNumbersReported, GapsAreTrivia;
    OneMoreReported(i, tokens, errors, t, more);
    OneMoreGap(i, tokens, t);
  }

  lemma NestedIsCode(st: State)
    requires Nested(st)
    ensures CodeAfter(Shapes(st.tokens)) <==> InCode(Layers(st.ctx))
  {
    hide StackOf, Deepest;
  }

  /** A token from the cursor on, or from anywhere in a literal, and the cursor behind it. */
  lemma EmitWrites(i: Input, st: State, next: State, t: Token)
    requires Nested(st) && Written(i, st) && Spelt(i, t) && ReportsOnly(i, st.errors, next.errors, t)
    requires next.tokens == st.tokens + [t] && next.pos == t.span.end
    requires InCode(Layers(st.ctx)) ==> t.span.start == st.pos
    ensures Written(i, next)
  {
    SpansFit(i, t);
    hide Spelt, Nested, CodeAfter, Account, ReportsOnly, InCode;
    NestedIsCode(st);
    OneMoreAccounted(i, st.tokens, st.errors, t, next.errors);
  }

  lemma SpansFit(i: Input, t: Token)
    requires Spelt(i, t)
    ensures t.span.start <= t.span.end <= |i.text|
  {
  }

  /** No token, no report of a number. */
  lemma SameReports(i: Input, errors: seq<Diag>, t: Token)
    requires !IsBadNumber(i, t)
    ensures ReportsOnly(i, errors, errors, t)
    ensures forall d: Diag :: d.code != "E0106" ==> ReportsOnly(i, errors, errors + [d], t)
  {
  }

  lemma SameNumbers(i: Input, tokens: seq<Token>, errors: seq<Diag>, d: Diag)
    requires BadNumbersReported(i, tokens, errors) && d.code != "E0106"
    ensures BadNumbersReported(i, tokens, errors + [d])
  {
  }

  /** The text in a token matters to no part of the account. */
  lemma AlikeAccount(i: Input, a: seq<Token>, b: seq<Token>, errors: seq<Diag>)
    requires Account(i, a, errors) && Shapes(a) == Shapes(b)
    requires forall k :: 0 <= k < |a| ==> b[k].span == a[k].span
    ensures Account(i, b, errors)
  {
    hide CodeAfter, Trivia;
    assert |a| == |Shapes(a)| == |Shapes(b)| == |b|;
    forall k | 0 <= k < |b| ensures Spelt(i, b[k]) && IsBadNumber(i, b[k]) == IsBadNumber(i, a[k]) {
      assert Shapes(a)[k] == Shapes(b)[k];
      SameSpelling(i, a[k], b[k]);
    }
    AlikeReports(i, a, b, errors);
    hide Spelt;
    forall k | 0 <= k < |b| && CodeAfter(Shapes(b[..k]))
      ensures Trivia(i.text, EndOf(i, b[..k]), b[k].span.start)
    {
      assert Shapes(b[..k]) == Shapes(b)[..k] == Shapes(a)[..k] == Shapes(a[..k]);
      assert EndOf(i, b[..k]) == EndOf(i, a[..k]);
    }
  }

  lemma AlikeReports(i: Input, a: seq<Token>, b: seq<Token>, errors: seq<Diag>)
    requires BadNumbersReported(i, a, errors) && |a| == |b|
    requires forall k :: 0 <= k < |a| ==> b[k].span == a[k].span && IsBadNumber(i, b[k]) == IsBadNumber(i, a[k])
    ensures BadNumbersReported(i, b, errors)
  {
    hide IsBadNumber;
    forall span
      ensures Diag("E0106", span) in errors <==> exists x :: x in b && x.span == span && IsBadNumber(i, x)
    {
      if x :| x in a && x.span == span && IsBadNumber(i, x) {
        var k :| 0 <= k < |a| && a[k] == x;
        assert b[k] in b;
      }
      if x :| x in b && x.span == span && IsBadNumber(i, x) {
        var k :| 0 <= k < |b| && b[k] == x;
        assert a[k] in a;
      }
    }
  }

  lemma SameSpelling(i: Input, a: Token, b: Token)
    requires Spelt(i, a) && Shape(a.tok) == Shape(b.tok) && a.span == b.span
    ensures Spelt(i, b) && IsBadNumber(i, b) == IsBadNumber(i, a)
  {
    hide IsIllBased;
    if a.tok.StrText? {
      assert b.tok.StrText?;
    } else {
      assert a.tok == b.tok;
    }
  }

  // -- words and numbers ---------------------------------------------------------------------------------------

  /** The state is in code, and all is in order. */
  ghost predicate Ready(i: Input, st: State) {
    Nested(st) && Written(i, st) && InCode(Layers(st.ctx)) && st.pos < |i.text|
  }

  /** A step that leaves behind one token of what it read. */
  lemma TokenWrites(i: Input, st: State, next: State, t: Token)
    requires Ready(i, st) && Spelt(i, t) && t.span == Span(st.pos, next.pos) && next.tokens == st.tokens + [t]
    requires ReportsOnly(i, st.errors, next.errors, t)
    ensures Written(i, next)
  {
    hide Spelt, Nested, Written, ReportsOnly;
    EmitWrites(i, st, next, t);
  }

  /** One that is no number, and what else was reported. */
  lemma QuietlyWrites(i: Input, st: State, next: State, t: Token)
    requires Ready(i, st) && Spelt(i, t) && t.span == Span(st.pos, next.pos) && next.tokens == st.tokens + [t]
    requires !t.tok.Int?
    requires next.errors == st.errors
             || exists d: Diag :: d.code != "E0106" && next.errors == st.errors + [d]
    ensures Written(i, next)
  {
    hide Spelt, Nested, Written, ReportsOnly, Ready;
    SameReports(i, st.errors, t);
    TokenWrites(i, st, next, t);
  }

  lemma WordsAgree(i: Input, c: char)
    ensures IsXidContinue(i, c) <==> InWord(i, c)
    ensures IsXidStart(i, c) || c == '_' <==> BeginsWord(i, c)
  {
  }

  lemma WordIsRead(i: Input, at: nat)
    requires at < |i.text| && (IsXidStart(i, i.text[at]) || i.text[at] == '_')
    ensures var end := RunEnd(i.text, at, Continues(i)); at < end && IsWord(i, at, end)
  {
    hide InWord, BeginsWord, IsXidStart, IsXidContinue;
    forall c ensures (IsXidContinue(i, c) <==> InWord(i, c)) && (IsXidStart(i, c) || c == '_' <==> BeginsWord(i, c)) {
      WordsAgree(i, c);
    }
    BeginningIsInside(i, i.text[at]);
  }

  lemma BeginningIsInside(i: Input, c: char)
    ensures BeginsWord(i, c) ==> InWord(i, c)
  {
  }

  lemma RawOpens(i: Input, end: nat)
    requires end <= |i.text|
    ensures var quote := RunEnd(i.text, end, IsHash);
            Hashes(i.text, end, quote) && (OpensRaw(i.text, end) <==> Sees(i.text, quote, '"'))
  {
    var quote := RunEnd(i.text, end, IsHash);
    if to :| end <= to < |i.text| && Hashes(i.text, end, to) && i.text[to] == '"' {
      assert to == quote by {
        assert forall k :: end <= k < to ==> i.text[k] == '#';
        assert !IsHash(i.text[to]);
      }
    }
    if Sees(i.text, quote, '"') {
      assert Hashes(i.text, end, quote);
    }
  }

  lemma OpeningWrites(i: Input, st: State, kind: StrKind, end: nat)
    requires Ready(i, st) && Spelt(i, Token(StrStart(kind), Span(st.pos, end)))
    ensures Written(i, OpenString(st, kind, st.pos, end))
  {
    hide Spelt, Ready, StringDepth, Written;
    var next := OpenString(st, kind, st.pos, end);
    var t := Token(StrStart(kind), Span(st.pos, end));
    QuietlyWrites(i, st, next, t);
  }

  lemma PlainWordIsSpelt(i: Input, at: nat, end: nat)
    requires IsWord(i, at, end)
    requires !(i.text[at..end] == "r" && OpensRaw(i.text, end))
    requires !(Sees(i.text, end, '"') && !IsKeyword(i.text[at..end]) && i.text[at..end] != "_")
    ensures Spelt(i, Token(WordTok(i.text[at..end]), Span(at, end)))
  {
    hide IsWord, IsKeyword, OpensRaw;
    WordFits(i, at, end);
  }

  lemma LoneRIsSpelt(i: Input, at: nat, end: nat)
    requires IsWord(i, at, end) && i.text[at..end] == "r" && !OpensRaw(i.text, end)
    ensures Spelt(i, Token(Ident("r"), Span(at, end)))
  {
    hide IsWord, IsKeyword, OpensRaw;
    WordFits(i, at, end);
  }

  lemma WordWrites(i: Input, st: State)
    requires Ready(i, st) && (IsXidStart(i, i.text[st.pos]) || i.text[st.pos] == '_')
    ensures Written(i, WordStep(i, st))
  {
    hide Ready, Written, OpenString, IsKeyword, WordTok, IsXidStart, OpensRaw, IsWord, Hashes;
    AtCode(i, st);
    WordIsRead(i, st.pos);
    var end := RunEnd(i.text, st.pos, Continues(i));
    WordFits(i, st.pos, end);
    var word := i.text[st.pos..end];
    var quote := RunEnd(i.text, end, IsHash);
    var next := WordStep(i, st);
    RawOpens(i, end);
    if word == "r" && (Sees(i.text, end, '"') || Sees(i.text, end, '#')) {
      if Sees(i.text, quote, '"') {
        RawIsSpelt(i, st.pos, end, quote);
        OpeningWrites(i, st, Raw(quote - end), quote + 1);
      } else {
        LoneRIsSpelt(i, st.pos, end);
        QuietlyWrites(i, st, next, Token(Ident("r"), Span(st.pos, end)));
      }
    } else if Sees(i.text, end, '"') && !IsKeyword(word) && word != "_" {
      GeneralIsSpelt(i, st.pos, end);
      OpeningWrites(i, st, Generalized(word), end + 1);
    } else {
      if word == "r" {
        NotRaw(i, end);
      }
      PlainWordIsSpelt(i, st.pos, end);
      WordIsNoNumber(word);
      QuietlyWrites(i, st, next, Token(WordTok(word), Span(st.pos, end)));
    }
  }

  lemma AtCode(i: Input, st: State)
    requires Ready(i, st)
    ensures st.pos < |i.text|
  {
  }

  lemma WordFits(i: Input, at: nat, end: nat)
    requires IsWord(i, at, end)
    ensures at < end <= |i.text|
  {
  }

  lemma WordIsNoNumber(word: string)
    ensures !WordTok(word).Int?
  {
  }

  lemma NotRaw(i: Input, end: nat)
    requires end <= |i.text| && !Sees(i.text, end, '"') && !Sees(i.text, end, '#')
    ensures !OpensRaw(i.text, end)
  {
  }

  lemma RawIsSpelt(i: Input, at: nat, end: nat, quote: nat)
    requires at < end <= quote < |i.text| && i.text[at..end] == "r"
    requires Hashes(i.text, end, quote) && i.text[quote] == '"'
    ensures Spelt(i, Token(StrStart(Raw(quote - end)), Span(at, quote + 1)))
  {
    assert i.text[at] == i.text[at..end][0];
  }

  lemma GeneralIsSpelt(i: Input, at: nat, end: nat)
    requires IsWord(i, at, end) && Sees(i.text, end, '"')
    requires var word := i.text[at..end]; word != "r" && word != "_" && !IsKeyword(word)
    ensures Spelt(i, Token(StrStart(Generalized(i.text[at..end])), Span(at, end + 1)))
  {
    hide IsKeyword;
  }

  lemma NumberWrites(i: Input, st: State)
    requires Ready(i, st) && DigitAt(i.text, st.pos)
    ensures Written(i, NumberStep(i, st))
  {
    hide Ready, Written, WellBased, LongestNumber, HasPointOrExponent, IsIllBased, RunEnd, FractionEnd, ExponentEnd;
    NumberIsLongest(i.text, st.pos);
    NumberAdvances(i, st);
    var next := NumberStep(i, st);
    var t := next.tokens[|st.tokens|];
    if HasPrefix(i.text, st.pos) {
      var end := RunEnd(i.text, st.pos + 2, IsBased);
      BaseIsTold(i.text, st.pos, end);
      PrefixedHasNoPoint(i.text, st.pos);
      assert Spelt(i, t);
      NumberIsReported(i, st.errors, t, Diag("E0106", Span(st.pos, end)));
      TokenWrites(i, st, next, t);
    } else {
      FloatIsTold(i.text, st.pos);
      assert Spelt(i, t);
      DecimalIsGood(i.text, st.pos);
      SameReports(i, st.errors, t);
      TokenWrites(i, st, next, t);
    }
  }

  lemma PrefixedHasNoPoint(text: string, at: nat)
    requires HasPrefix(text, at)
    ensures !HasPointOrExponent(text[at..RunEnd(text, at + 2, IsBased)])
  {
    hide IsDecimalNumber;
    PrefixedIsRead(text, at);
  }

  lemma DecimalIsGood(text: string, at: nat)
    requires DigitAt(text, at) && !HasPrefix(text, at)
    ensures !IsIllBased(text[at..DecimalEnd(text, at)])
  {
    hide DecimalEnd;
    if IsPrefixed(text[at..DecimalEnd(text, at)]) {
      PrefixedFits(text, at, DecimalEnd(text, at));
    }
  }

  lemma NumberIsReported(i: Input, errors: seq<Diag>, t: Token, d: Diag)
    requires d == Diag("E0106", t.span)
    ensures IsBadNumber(i, t) ==> ReportsOnly(i, errors, errors + [d], t)
    ensures !IsBadNumber(i, t) ==> ReportsOnly(i, errors, errors, t)
  {
    hide IsBadNumber;
  }

  // -- character literals -----------------------------------------------------------------------------------------

  lemma CharWrites(i: Input, st: State)
    requires Ready(i, st) && Sees(i.text, st.pos, '\'')
    ensures Written(i, CharStep(i, st))
  {
    hide Ready, Written, CharBody, SpellsChar;
    var next := CharStep(i, st);
    var t := next.tokens[|st.tokens|];
    CharIsTold(i, st);
    QuietlyWrites(i, st, next, t);
  }

  lemma CharIsTold(i: Input, st: State)
    requires Sees(i.text, st.pos, '\'')
    ensures var next := CharStep(i, st);
            |next.tokens| == |st.tokens| + 1 && Spelt(i, next.tokens[|st.tokens|])
  {
    hide CharBody, SpellsChar;
    var at := st.pos;
    var (end, read) := CharBody(i.text, at + 1, Glyphs(0, None, None));
    var next := CharStep(i, st);
    if next.tokens[|st.tokens|].tok.Char? {
      var c := next.tokens[|st.tokens|].tok.value;
      assert read == Some(Glyphs(1, Some(c), None));
      assert ReadsOne(i.text, at, end, c);
      CharsAreSpelt(i.text, at, end, c);
    } else {
      forall to, c | at + 3 <= to <= |i.text| ensures !SpellsChar(i.text[at..to], c) {
        CharsAreSpelt(i.text, at, to, c);
      }
    }
  }

  // -- strings open --------------------------------------------------------------------------------------------------

  lemma LineStartWrites(i: Input, st: State, at: nat)
    requires Written(i, st)
    ensures Written(i, AtLineStart(st, at))
  {
    hide Account, Trivia;
    assert Layers(AtLineStart(st, at).ctx) == Layers(st.ctx);
  }

  lemma QuoteWrites(i: Input, st: State)
    requires Ready(i, st) && Sees(i.text, st.pos, '"')
    ensures Written(i, QuoteStep(i, st))
  {
    hide Ready, Written, OpenString, AtLineStart, AllWhite, RunEnd;
    if StartsAt(i.text, st.pos, "\"\"\"") {
      var after := st.pos + 3;
      var eol := RunEnd(i.text, after, NotNewline);
      var judged := if AllWhite(i, after, eol) then st else Fault(st, "E0103", after, eol);
      var newline := if Sees(i.text, after, '\r') then after + 1 else after;
      var body := if Sees(i.text, newline, '\n') then newline + 1 else after;
      FaultReady(i, st, "E0103", after, eol);
      MultilineIsSpelt(i, st.pos);
      OpeningWrites(i, judged, Multiline, body);
      LineStartWrites(i, OpenString(judged, Multiline, st.pos, body), body);
    } else {
      PlainIsSpelt(i, st.pos);
      OpeningWrites(i, st, StrKind.Plain, st.pos + 1);
    }
  }

  lemma FaultReady(i: Input, st: State, code: string, start: nat, end: nat)
    requires Ready(i, st) && code != "E0106"
    ensures Ready(i, Fault(st, code, start, end))
  {
    hide AllSpelt, BadNumbersReported, GapsAreTrivia, Trivia, StackOf, Deepest;
    SameNumbers(i, st.tokens, st.errors, Diag(code, Span(start, end)));
  }

  lemma PlainIsSpelt(i: Input, at: nat)
    requires Sees(i.text, at, '"') && !StartsAt(i.text, at, "\"\"\"")
    ensures Spelt(i, Token(StrStart(StrKind.Plain), Span(at, at + 1)))
  {
    assert i.text[at..at + 1] == "\"";
  }

  lemma LineEnds(text: string, at: nat)
    requires at <= |text|
    ensures StartsAt(text, at, "\r\n") <==> Sees(text, at, '\r') && Sees(text, at + 1, '\n')
    ensures StartsAt(text, at, "\n") <==> Sees(text, at, '\n')
  {
    if at + 2 <= |text| {
      assert text[at..at + 2] == [text[at], text[at + 1]];
    }
    if at + 1 <= |text| {
      assert text[at..at + 1] == [text[at]];
    }
  }

  lemma MultilineIsSpelt(i: Input, at: nat)
    requires StartsAt(i.text, at, "\"\"\"")
    ensures var after := at + 3;
            var newline := if Sees(i.text, after, '\r') then after + 1 else after;
            Spelt(i, Token(StrStart(Multiline), Span(at, if Sees(i.text, newline, '\n') then newline + 1 else after)))
  {
    LineEnds(i.text, at + 3);
  }

  // -- other tokens -----------------------------------------------------------------------------------------------------

  lemma OneCharText(text: string, at: nat)
    requires at < |text|
    ensures text[at..at + 1] == [text[at]]
  {
  }

  /** A token of one character, whatever it does to the stack. */
  lemma MarkWrites(i: Input, st: State, base: State, t: Tok)
    requires Ready(i, st) && base.tokens == st.tokens && base.errors == st.errors && !t.Int?
    requires Spelt(i, Token(t, Span(st.pos, st.pos + 1)))
    ensures Written(i, Emit(base, t, st.pos, st.pos + 1))
  {
    hide Ready, Written, Spelt;
    QuietlyWrites(i, st, Emit(base, t, st.pos, st.pos + 1), Token(t, Span(st.pos, st.pos + 1)));
  }

  lemma BracketWrites(i: Input, st: State)
    requires Ready(i, st) && Spelt(i, Token(RBracket, Span(st.pos, st.pos + 1)))
    ensures Written(i, CloseBracket(st))
  {
    hide Ready, Written, Spelt;
    QuietlyWrites(i, st, CloseBracket(st), Token(RBracket, Span(st.pos, st.pos + 1)));
  }

  lemma BraceWrites(i: Input, st: State)
    requires Ready(i, st) && Spelt(i, Token(RBrace, Span(st.pos, st.pos + 1)))
    requires Spelt(i, Token(InterpEnd, Span(st.pos, st.pos + 1)))
    ensures Written(i, CloseBrace(st))
  {
    hide Ready, Written, Spelt, PopDelimiter;
    var t := if Top(st.ctx) == Some(Interp) || Top(st.ctx) == Some(Fmt) then InterpEnd else RBrace;
    PopKeepsErrors(st);
    QuietlyWrites(i, st, CloseBrace(st), Token(t, Span(st.pos, st.pos + 1)));
  }

  lemma PopKeepsErrors(st: State)
    ensures PopDelimiter(st, Brace).errors == st.errors && PopDelimiter(st, Brace).tokens == st.tokens
  {
  }

  lemma StrayWrites(i: Input, st: State, end: nat)
    requires Ready(i, st) && IsStray(i, st.pos, end)
    ensures Written(i, Emit(Fault(st, "E0107", st.pos, end), Error, st.pos, end))
  {
    hide Ready, Written, IsStray;
    assert IsStray(i, st.pos, end) ==> st.pos < end <= |i.text| by { StrayFits(i, st.pos, end); }
    QuietlyWrites(i, st, Emit(Fault(st, "E0107", st.pos, end), Error, st.pos, end), Token(Error, Span(st.pos, end)));
  }

  lemma StrayFits(i: Input, start: nat, end: nat)
    requires IsStray(i, start, end)
    ensures start < end <= |i.text|
  {
  }

  lemma {:induction false} StrayGoesOn(i: Input, start: nat, at: nat)
    requires IsStray(i, start, at)
    ensures IsStray(i, start, StrayEnd(i, at))
    decreases |i.text| - at
  {
    hide BeginsToken;
    if at < |i.text| && BeginsNoToken(i, at) {
      NoTokenBegins(i, at);
      StrayGoesOn(i, start, at + 1);
    }
  }

  lemma NoTokenBegins(i: Input, at: nat)
    requires at < |i.text| && BeginsNoToken(i, at)
    ensures !BeginsToken(i, at) && i.text[at] != '\n'
  {
    var c := i.text[at];
    WordsAgree(i, c);
    if c != '#' {
      HashFirst(i.text, at, "#[");
      HashFirst(i.text, at, "#![");
    }
  }

  lemma HashFirst(text: string, at: nat, word: string)
    requires at < |text| && word != ""
    ensures StartsAt(text, at, word) ==> text[at] == word[0]
  {
    if StartsAt(text, at, word) {
      assert text[at] == text[at..at + |word|][0];
    }
  }

  predicate Descending(ops: seq<string>) {
    forall j, k :: 0 <= j < k < |ops| ==> |ops[j]| >= |ops[k]|
  }

  lemma {:induction false} LongestIsFound(text: string, at: nat, ops: seq<string>)
    requires Descending(ops)
    ensures match LongestOperator(text, at, ops)
            case Some(op) => forall w :: w in ops && StartsAt(text, at, w) ==> |w| <= |op|
            case None => forall w :: w in ops ==> !StartsAt(text, at, w)
  {
    hide StartsAt;
    if ops != [] {
      forall j, k | 0 <= j < k < |ops[1..]| ensures |ops[1..][j]| >= |ops[1..][k]| {
        assert ops[1..][j] == ops[j + 1] && ops[1..][k] == ops[k + 1];
      }
      LongestIsFound(text, at, ops[1..]);
      forall w | w in ops ensures w == ops[0] || w in ops[1..] {
      }
      forall w | w in ops ensures |w| <= |ops[0]| {
        var k :| 0 <= k < |ops| && ops[k] == w;
      }
    }
  }

  lemma OperatorsDescend()
    ensures Descending(OPERATORS)
  {
    assert forall k :: 0 <= k < 4 ==> |OPERATORS[k]| == 3;
    assert forall k :: 4 <= k < |OPERATORS| ==> |OPERATORS[k]| == 2;
  }

  lemma OperatorIsSpelt(i: Input, at: nat, op: string)
    requires !StartsAt(i.text, at, "//") && LongestOperator(i.text, at, OPERATORS) == Some(op)
    ensures Spelt(i, Token(Op(op), Span(at, at + |op|)))
  {
    hide IsOperator, LongestOperator;
    LongestIsOperator(i, at, op);
  }

  lemma LongestIsOperator(i: Input, at: nat, op: string)
    requires !StartsAt(i.text, at, "//") && LongestOperator(i.text, at, OPERATORS) == Some(op)
    ensures IsOperator(i.text, at, op)
  {
    hide LongestOperator, Descending, StartsAt;
    OperatorsDescend();
    LongestIsFound(i.text, at, OPERATORS);
  }

  lemma OperatorWrites(i: Input, st: State, op: string)
    requires Ready(i, st) && !StartsAt(i.text, st.pos, "//")
    requires LongestOperator(i.text, st.pos, OPERATORS) == Some(op)
    ensures Written(i, Emit(st, Op(op), st.pos, st.pos + |op|))
  {
    hide Ready, Written, Spelt;
    OperatorIsSpelt(i, st.pos, op);
    QuietlyWrites(i, st, Emit(st, Op(op), st.pos, st.pos + |op|), Token(Op(op), Span(st.pos, st.pos + |op|)));
  }

  lemma SingleIsOperator(i: Input, at: nat)
    requires at < |i.text| && !StartsAt(i.text, at, "//") && LongestOperator(i.text, at, OPERATORS).None?
    requires i.text[at] == ':' || IsSingle(i.text[at])
    ensures Spelt(i, Token(Op([i.text[at]]), Span(at, at + 1)))
  {
    hide LongestOperator, Descending;
    OperatorsDescend();
    LongestIsFound(i.text, at, OPERATORS);
    OneCharText(i.text, at);
  }

  lemma SingleWrites(i: Input, st: State)
    requires Ready(i, st) && !StartsAt(i.text, st.pos, "//") && LongestOperator(i.text, st.pos, OPERATORS).None?
    requires var c := i.text[st.pos];
             !(IsXidStart(i, c) || c == '_') && !IsDigit(c) && c != '"' && c != '\'' && c != '\n'
             && !StartsAt(i.text, st.pos, "#![") && !StartsAt(i.text, st.pos, "#[")
    ensures Written(i, SingleStep(i, st))
  {
    hide Written, StrayEnd, IsSingle, PopDelimiter, CloseBrace, CloseBracket, Emit, LongestOperator, StartsAt, Nested,
         IsXidStart, IsOperator, InCode, IsStray, IsWord, LongestNumber, IsOpener, SpellsChar;
    var c := i.text[st.pos];
    OneCharText(i.text, st.pos);
    if c == '(' {
      MarkWrites(i, st, Enter(st, Paren), LParen);
    } else if c == '[' {
      MarkWrites(i, st, Enter(st, Bracket), LBracket);
    } else if c == '{' {
      MarkWrites(i, st, Enter(st, Brace), LBrace);
    } else if c == ')' {
      PopsQuietly(st, Paren);
      MarkWrites(i, st, PopDelimiter(st, Paren), RParen);
    } else if c == ']' {
      BracketWrites(i, st);
    } else if c == '}' {
      BraceWrites(i, st);
    } else if c == ':' {
      SingleIsOperator(i, st.pos);
      MarkWrites(i, st, st, Op(":"));
      if st.ctx != [] {
        MarkWrites(i, st, WithTop(st, Fmt), FmtStart);
      }
    } else if c == ';' {
      MarkWrites(i, st, st, Term(true));
    } else if IsSingle(c) {
      SingleIsOperator(i, st.pos);
      MarkWrites(i, st, st, Op([c]));
    } else {
      FirstIsStray(i, st.pos);
      if c == BYTE_ORDER_MARK {
        StrayWrites(i, st, st.pos + 1);
      } else {
        StrayGoesOn(i, st.pos, st.pos + 1);
        StrayWrites(i, st, StrayEnd(i, st.pos + 1));
      }
    }
  }

  lemma PopsQuietly(st: State, f: Frame)
    ensures PopDelimiter(st, f).errors == st.errors && PopDelimiter(st, f).tokens == st.tokens
  {
  }

  lemma FirstIsStray(i: Input, at: nat)
    requires at < |i.text|
    requires var c := i.text[at];
             !(IsXidStart(i, c) || c == '_') && !IsDigit(c) && c !in "\"'()[]{}:;\n" && !IsSingle(c)
             && !StartsAt(i.text, at, "#![") && !StartsAt(i.text, at, "#[")
    ensures IsStray(i, at, at + 1)
  {
    WordsAgree(i, i.text[at]);
  }

  lemma TokenStepWrites(i: Input, st: State)
    requires Ready(i, st) && !StartsAt(i.text, st.pos, "//") && i.text[st.pos] != '\n'
    ensures Written(i, TokenStep(i, st))
  {
    hide Written, WordStep, NumberStep, CharStep, QuoteStep, SingleStep, IsXidStart, LongestOperator, Nested, InCode,
         IsStray, IsWord, LongestNumber, IsOpener, SpellsChar, IsOperator;
    var c := i.text[st.pos];
    if IsXidStart(i, c) || c == '_' {
      WordWrites(i, st);
    } else if IsDigit(c) {
      NumberWrites(i, st);
    } else if c == '"' {
      QuoteWrites(i, st);
    } else if c == '\'' {
      CharWrites(i, st);
    } else if StartsAt(i.text, st.pos, "#![") {
      QuietlyWrites(i, st, TokenStep(i, st), Token(HashBangBracket, Span(st.pos, st.pos + 3)));
    } else if StartsAt(i.text, st.pos, "#[") {
      QuietlyWrites(i, st, TokenStep(i, st), Token(HashBracket, Span(st.pos, st.pos + 2)));
    } else {
      match LongestOperator(i.text, st.pos, OPERATORS)
      case Some(op) => OperatorWrites(i, st, op);
      case None => SingleWrites(i, st);
    }
  }

  // -- lines in code ------------------------------------------------------------------------------------------------------

  lemma TriviaGrows(text: string, from: nat, at: nat, to: nat)
    requires Trivia(text, from, at) && at <= to <= |text|
    requires to == at
             || (to == at + 1 && (text[at] in " \t\r\n" || text[at] == 11 as char || text[at] == 12 as char))
             || IsComment(text, at, to)
    ensures Trivia(text, from, to)
  {
  }

  lemma CommentIsRead(text: string, at: nat)
    requires StartsAt(text, at, "//")
    ensures IsComment(text, at, RunEnd(text, at + 2, NotNewline))
  {
    var s := text[at..at + 2];
    assert text[at] == s[0] && text[at + 1] == s[1];
  }

  /** A token without text, where the cursor is. */
  lemma EmptyIsSpelt(i: Input, tok: Tok, at: nat)
    requires at <= |i.text| && (tok == StrEnd || tok == InterpEnd || tok == Term(false))
    ensures Spelt(i, Token(tok, Span(at, at))) && !IsBadNumber(i, Token(tok, Span(at, at)))
  {
    assert i.text[at..at] == "";
  }

  lemma EmptyWrites(i: Input, tokens: seq<Token>, errors: seq<Diag>, tok: Tok, at: nat, more: seq<Diag>)
    requires Account(i, tokens, errors) && at <= |i.text|
    requires CodeAfter(Shapes(tokens)) ==> Trivia(i.text, EndOf(i, tokens), at)
    requires tok == StrEnd || tok == InterpEnd || tok == Term(false)
    requires more == errors || exists d: Diag :: d.code != "E0106" && more == errors + [d]
    ensures Account(i, tokens + [Token(tok, Span(at, at))], more)
    ensures Trivia(i.text, EndOf(i, tokens + [Token(tok, Span(at, at))]), at)
  {
    hide Account, Spelt, CodeAfter, IsBadNumber, ReportsOnly;
    var t := Token(tok, Span(at, at));
    EmptyIsSpelt(i, tok, at);
    SameReports(i, errors, t);
    OneMoreAccounted(i, tokens, errors, t, more);
  }

  lemma {:induction false} UnwindWrites(i: Input, st: State)
    requires Account(i, st.tokens, st.errors) && st.pos <= |i.text| && Trivia(i.text, EndOf(i, st.tokens), st.pos)
    ensures Written(i, Unwind(st))
    decreases |st.ctx|
  {
    hide Account, Trivia, EndOf, CodeAfter;
    if st.ctx != [] {
      match Top(st.ctx).value
      case Str(_) =>
        EmptyWrites(i, st.tokens, st.errors, StrEnd, st.pos, st.errors);
      case Interp =>
        EmptyWrites(i, st.tokens, st.errors, InterpEnd, st.pos, st.errors);
        UnwindWrites(i, Push(Leave(st), InterpEnd, st.pos, st.pos));
      case Fmt =>
        EmptyWrites(i, st.tokens, st.errors, InterpEnd, st.pos, st.errors);
        UnwindWrites(i, Push(Leave(st), InterpEnd, st.pos, st.pos));
      case _ => UnwindWrites(i, Leave(st));
    }
  }

  lemma FaultAccounts(i: Input, tokens: seq<Token>, errors: seq<Diag>, d: Diag)
    requires Account(i, tokens, errors) && d.code != "E0106"
    ensures Account(i, tokens, errors + [d])
  {
    hide AllSpelt, GapsAreTrivia;
    SameNumbers(i, tokens, errors, d);
  }

  lemma SkipWrites(i: Input, st: State, next: State)
    requires Ready(i, st) && next.tokens == st.tokens && next.errors == st.errors && next.pos <= |i.text|
    requires Trivia(i.text, EndOf(i, st.tokens), next.pos)
    ensures Written(i, next)
  {
    hide Account, Trivia, Nested;
  }

  lemma NewlineWrites(i: Input, st: State)
    requires Ready(i, st) && i.text[st.pos] == '\n'
    ensures Written(i, NormalStep(i, st))
  {
    hide Account, Trivia, EndOf, Nested, OpenPlain, Permits, LastEnds, ElseFollows, InCode, CodeAfter;
    match OpenPlain(st.ctx, st.pos)
    case Some(span) =>
      FaultAccounts(i, st.tokens, st.errors, Diag("E0102", span));
      UnwindWrites(i, Fault(st, "E0102", span.start, span.end));
    case None =>
      var next := NormalStep(i, st);
      if next.tokens == st.tokens {
        TriviaGrows(i.text, EndOf(i, st.tokens), st.pos, st.pos + 1);
      } else {
        EmptyWrites(i, st.tokens, st.errors, Term(false), st.pos, st.errors);
        TriviaGrows(i.text, EndOf(i, next.tokens), st.pos, st.pos + 1);
      }
  }

  lemma NormalWrites(i: Input, st: State)
    requires Ready(i, st)
    ensures Written(i, NormalStep(i, st))
  {
    hide Account, Trivia, EndOf, Nested, OpenPlain, TokenStep, StartsAt, RunEnd, IsComment;
    var c := i.text[st.pos];
    if c == '\n' {
      NewlineWrites(i, st);
    } else if IsInline(c) {
      TriviaGrows(i.text, EndOf(i, st.tokens), st.pos, st.pos + 1);
      SkipWrites(i, st, NormalStep(i, st));
    } else if StartsAt(i.text, st.pos, "//") {
      CommentIsRead(i.text, st.pos);
      PrefixFits(i.text, st.pos, "//");
      var end := RunEnd(i.text, st.pos + 2, NotNewline);
      TriviaGrows(i.text, EndOf(i, st.tokens), st.pos, end);
      SkipWrites(i, st, NormalStep(i, st));
    } else {
      TokenStepWrites(i, st);
    }
  }

  // -- string bodies -----------------------------------------------------------------------------------------------------

  /** The innermost frame is a string, and all is in order. */
  ghost predicate Inside(i: Input, st: State, body: Body) {
    && Nested(st) && Account(i, st.tokens, st.errors) && Top(st.ctx) == Some(Str(body)) && st.pos < |i.text|
    && (body.pending != "" ==> body.pendingStart <= st.pos)
  }

  lemma TopIsLiteral(st: State, body: Body)
    requires Top(st.ctx) == Some(Str(body))
    ensures !InCode(Layers(st.ctx))
  {
    assert Layers(st.ctx)[|st.ctx| - 1] == Literal;
  }

  /** No token, and the string is still innermost. */
  lemma StayWrites(i: Input, st: State, next: State, body: Body)
    requires Account(i, st.tokens, st.errors) && next.tokens == st.tokens && Top(next.ctx) == Some(Str(body))
    requires next.errors == st.errors || exists d: Diag :: d.code != "E0106" && next.errors == st.errors + [d]
    ensures Written(i, next)
  {
    hide Account, InCode;
    TopIsLiteral(next, body);
    if d: Diag :| d.code != "E0106" && next.errors == st.errors + [d] {
      FaultAccounts(i, st.tokens, st.errors, d);
    }
  }

  lemma HoldWrites(i: Input, st: State, body: Body, c: char, end: nat)
    requires Inside(i, st, body)
    ensures Written(i, Hold(st, body, c, end))
  {
    hide Account, Nested;
    StayWrites(i, st, Hold(st, body, c, end), LexModel.Held(body, c, st.pos));
  }

  lemma DropWrites(i: Input, st: State, body: Body, code: string, start: nat, end: nat)
    requires Inside(i, st, body) && code != "E0106"
    ensures Written(i, WithTop(Fault(st, code, start, end), Str(body)).(pos := end))
  {
    hide Account, Nested;
    StayWrites(i, st, WithTop(Fault(st, code, start, end), Str(body)).(pos := end), body);
  }

  lemma TextIsSpelt(i: Input, text: string, start: nat, end: nat)
    requires start <= end <= |i.text|
    ensures Spelt(i, Token(StrText(text), Span(start, end)))
  {
  }

  /** A flush and the token after it, which is spelt where the cursor is. */
  lemma FlushWrites(i: Input, st: State, body: Body, t: Token)
    requires Account(i, st.tokens, st.errors) && st.ctx != [] && st.pos <= |i.text| && !CodeAfter(Shapes(st.tokens))
    requires body.pending != "" ==> body.pendingStart <= st.pos
    requires body.pending != "" ==> !CodeAfter(Shapes(st.tokens + [Token(StrText(body.pending), Span(body.pendingStart, st.pos))]))
    requires Spelt(i, t) && !t.tok.Int? && t.span.start == st.pos
    ensures Account(i, Flush(st, body).tokens + [t], st.errors)
    ensures Flush(st, body).errors == st.errors && Flush(st, body).pos == st.pos
  {
    hide Account, Spelt, CodeAfter, Trivia, ReportsOnly;
    SameReports(i, st.errors, t);
    if body.pending != "" {
      var held := Token(StrText(body.pending), Span(body.pendingStart, st.pos));
      TextIsSpelt(i, body.pending, body.pendingStart, st.pos);
      SameReports(i, st.errors, held);
      OneMoreAccounted(i, st.tokens, st.errors, held, st.errors);
      OneMoreAccounted(i, st.tokens + [held], st.errors, t, st.errors);
    } else {
      OneMoreAccounted(i, st.tokens, st.errors, t, st.errors);
    }
  }

  /** Text in a string leaves the reader in that string. */
  lemma TextStaysInside(tokens: seq<Token>, stack: seq<Layer>, t: Token)
    requires StackOf(Shapes(tokens)) == Some(stack) && TopIs(stack, Literal)
    ensures !CodeAfter(Shapes(tokens))
    ensures t.tok.StrText? ==> !CodeAfter(Shapes(tokens + [t]))
  {
    hide StackOf;
    ShapesAppend(tokens, t);
    ReadOne(Shapes(tokens), StrText(""));
  }

  lemma AbandonWrites(i: Input, st: State, body: Body)
    requires Inside(i, st, body)
    ensures Written(i, Abandon(st, body))
  {
    hide Account, CodeAfter, StackOf, Deepest, Flush, Spelt, InCode;
    var held := Token(StrText(body.pending), Span(body.pendingStart, st.pos));
    assert TopIs(Layers(st.ctx), Literal);
    TextStaysInside(st.tokens, Layers(st.ctx), held);
    EmptyIsSpelt(i, StrEnd, st.pos);
    FlushWrites(i, st, body, Token(StrEnd, Span(st.pos, st.pos)));
    SpanIsTrivia(i, Abandon(st, body));
  }

  lemma SpanIsTrivia(i: Input, st: State)
    ensures st.tokens != [] && st.pos <= |i.text| && EndOf(i, st.tokens) == st.pos ==> Trivia(i.text, EndOf(i, st.tokens), st.pos)
  {
  }

  lemma CloserIsSpelt(i: Input, at: nat, kind: StrKind)
    requires at < |i.text| && ClosesString(i.text, at, kind)
    ensures at + CloserLength(kind) <= |i.text|
    ensures Spelt(i, Token(StrEnd, Span(at, at + CloserLength(kind))))
  {
    var end := at + CloserLength(kind);
    CloserFits(i.text, at, kind);
    var s := i.text[at..end];
    assert s[0] == i.text[at];
    if kind.Raw? {
      assert forall k :: 1 <= k < |s| ==> s[k] == i.text[at + k];
    }
  }

  lemma CloseWrites(i: Input, st: State, body: Body)
    requires Inside(i, st, body) && ClosesString(i.text, st.pos, body.kind)
    ensures Written(i, CloseString(i, st, body))
  {
    hide Account, CodeAfter, StackOf, Deepest, Flush, Spelt, InCode, Dedented, ClosesString;
    CloserIsSpelt(i, st.pos, body.kind);
    var ready := if body.kind.Multiline? then Dedented(i, st, body) else (st, body);
    var closer := Token(StrEnd, Span(st.pos, st.pos + CloserLength(body.kind)));
    ReadyAccounts(i, st, body);
    var held := Token(StrText(ready.1.pending), Span(ready.1.pendingStart, st.pos));
    assert TopIs(Layers(st.ctx), Literal);
    DedentedIsAlike(i, st, body);
    TextStaysInside(ready.0.tokens, Layers(st.ctx), held);
    FlushWrites(i, ready.0, ready.1, closer);
    SpanIsTrivia(i, CloseString(i, st, body));
  }

  lemma ReadyAccounts(i: Input, st: State, body: Body)
    requires Inside(i, st, body)
    ensures var ready := if body.kind.Multiline? then Dedented(i, st, body) else (st, body);
            && Account(i, ready.0.tokens, ready.0.errors)
            && (ready.1.pending != "" ==> ready.1.pendingStart <= st.pos)
  {
    hide Account, Nested;
    if body.kind.Multiline? {
      DedentedIsAlike(i, st, body);
      var d := Dedented(i, st, body);
      DedentReports(i, st, body);
      AlikeAccount(i, st.tokens, d.0.tokens, st.errors);
      if d.0.errors != st.errors {
        FaultAccounts(i, d.0.tokens, st.errors, d.0.errors[|st.errors|]);
      }
    }
  }

  /** What the dedent reports, and what it leaves of the text held back. */
  lemma DedentReports(i: Input, st: State, body: Body)
    requires st.pos < |i.text|
    ensures var d := Dedented(i, st, body);
            && d.1.pendingStart == body.pendingStart && (d.1.pending != "" ==> body.pending != "")
            && (d.0.errors == st.errors
                || (|d.0.errors| == |st.errors| + 1 && d.0.errors == st.errors + [d.0.errors[|st.errors|]]
                    && d.0.errors[|st.errors|].code != "E0106"))
  {
    hide DedentPieces, LineStart, AllBlank, MarginFault;
    var line := LineStart(i.text, st.pos);
    MarginCodes(i.text, body.lineStarts, i.text[line..st.pos], line);
    NothingToDedent(|i.text[line..st.pos]|);
  }

  lemma {:induction false} MarginCodes(text: string, starts: seq<nat>, margin: string, closing: nat)
    ensures var fault := MarginFault(text, starts, margin, closing); fault.Some? ==> fault.value.code != "E0106"
    decreases |starts|
  {
    hide RunEnd;
    if starts != [] {
      MarginCodes(text, starts[1..], margin, closing);
    }
  }

  lemma NothingToDedent(column: nat)
    ensures forall whole :: DedentChunk(TrimBlanks("", column), column, whole).0 == ""
  {
  }

  lemma InterpolateWrites(i: Input, st: State, body: Body)
    requires Inside(i, st, body) && i.text[st.pos] == '{'
    ensures Written(i, Interpolate(st, body))
  {
    hide Account, CodeAfter, StackOf, Deepest, Flush, Spelt, InCode;
    var held := Token(StrText(body.pending), Span(body.pendingStart, st.pos));
    var start := Token(InterpStart, Span(st.pos, st.pos + 1));
    assert TopIs(Layers(st.ctx), Literal);
    TextStaysInside(st.tokens, Layers(st.ctx), held);
    BraceIsSpelt(i, st.pos);
    FlushWrites(i, st, body, start);
    SpanIsTrivia(i, Interpolate(st, body));
  }

  lemma BraceIsSpelt(i: Input, at: nat)
    requires at < |i.text|
    ensures i.text[at] == '{' ==> Spelt(i, Token(InterpStart, Span(at, at + 1)))
    ensures i.text[at] == '}' ==> Spelt(i, Token(InterpEnd, Span(at, at + 1)))
  {
    OneCharText(i.text, at);
  }

  lemma TextStepWrites(i: Input, st: State, body: Body)
    requires Inside(i, st, body)
    ensures Written(i, TextStep(i, st, body))
  {
    hide Inside, Written, StartsAt, Abandon, Hold, AtLineStart, Interpolate, EscapeAt;
    InsideFits(i, st, body);
    var c := i.text[st.pos];
    if StartsAt(i.text, st.pos, "{{") {
      HoldWrites(i, st, body, '{', st.pos + 2);
    } else if StartsAt(i.text, st.pos, "}}") {
      HoldWrites(i, st, body, '}', st.pos + 2);
    } else if c == '{' {
      InterpolateWrites(i, st, body);
    } else if c == '}' {
      DropWrites(i, st, body, "E0111", st.pos, st.pos + 1);
    } else if c == '\\' {
      EscapeWrites(i, st, body);
    } else if c == '\n' && body.kind.Plain? {
      FaultInside(i, st, body, "E0102", Less(body.start, 1), st.pos);
      AbandonWrites(i, Fault(st, "E0102", Less(body.start, 1), st.pos), body);
    } else {
      HoldWrites(i, st, body, c, st.pos + 1);
      LineStartWrites(i, Hold(st, body, c, st.pos + 1), st.pos + 1);
    }
  }

  lemma InsideFits(i: Input, st: State, body: Body)
    requires Inside(i, st, body)
    ensures st.pos < |i.text| && st.ctx != []
  {
  }

  lemma FaultInside(i: Input, st: State, body: Body, code: string, start: nat, end: nat)
    requires Inside(i, st, body) && code != "E0106"
    ensures Inside(i, Fault(st, code, start, end), body)
  {
    hide Account, StackOf, Deepest;
    FaultAccounts(i, st.tokens, st.errors, Diag(code, Span(start, end)));
  }

  lemma EscapeWrites(i: Input, st: State, body: Body)
    requires Inside(i, st, body)
    ensures st.ctx != [] && Written(i, EscapeStep(i, st, body))
  {
    hide Inside, Written, Hold, EscapeAt;
    InsideFits(i, st, body);
    if st.pos + 1 == |i.text| {
      DropWrites(i, st, body, "E0102", st.pos, st.pos + 1);
    } else {
      var e := EscapeAt(i.text, st.pos + 1, false);
      match e.value
      case Ok(c) => HoldWrites(i, st, body, c, e.end);
      case Err(_) => DropWrites(i, st, body, "E0101", st.pos, e.end);
    }
  }

  lemma BodyWrites(i: Input, st: State, body: Body)
    requires Inside(i, st, body)
    ensures Written(i, BodyStep(i, st, body))
  {
    hide Inside, Written, CloseString, Abandon, Hold, TextStep, ClosesString;
    InsideFits(i, st, body);
    if ClosesString(i.text, st.pos, body.kind) {
      CloseWrites(i, st, body);
    } else if body.kind.Generalized? && i.text[st.pos] == '\n' {
      FaultInside(i, st, body, "E0109", st.pos, st.pos + 1);
      AbandonWrites(i, Fault(st, "E0109", st.pos, st.pos + 1), body);
    } else {
      HoldWrites(i, st, body, i.text[st.pos], st.pos + 1);
      TextStepWrites(i, st, body);
    }
  }

  // -- whole inputs --------------------------------------------------------------------------------------------------------

  lemma FormatTextIsSpelt(i: Input, at: nat)
    requires at < |i.text|
    ensures var end := RunEnd(i.text, at, IsFormatText);
            end > at ==> Spelt(i, Token(FmtText(i.text[at..end]), Span(at, end)))
  {
    var end := RunEnd(i.text, at, IsFormatText);
    var s := i.text[at..end];
    assert forall k :: 0 <= k < |s| ==> s[k] == i.text[at + k];
  }

  lemma FormatWrites(i: Input, st: State)
    requires Nested(st) && Written(i, st) && Top(st.ctx) == Some(Fmt) && st.pos < |i.text|
    ensures Written(i, FormatStep(i, st))
  {
    hide Nested, Written, RunEnd, Spelt, ReportsOnly;
    var end := RunEnd(i.text, st.pos, IsFormatText);
    var told := if end == st.pos then st else Emit(st, FmtText(i.text[st.pos..end]), st.pos, end);
    assert TopIs(Layers(st.ctx), Spec);
    if end != st.pos {
      var t := Token(FmtText(i.text[st.pos..end]), Span(st.pos, end));
      FormatTextIsSpelt(i, st.pos);
      SameReports(i, st.errors, t);
      PushNests(st, told, t);
      EmitWrites(i, st, told, t);
    }
    if end < |i.text| {
      var next := FormatStep(i, st);
      var t := next.tokens[|told.tokens|];
      BraceIsSpelt(i, end);
      SameReports(i, told.errors, t);
      EmitWrites(i, told, next, t);
    }
  }

  /** All is in order before a step. */
  ghost predicate InStep(i: Input, st: State) {
    Nested(st) && Placed(st) && Written(i, st)
  }

  lemma StepWrites(i: Input, st: State)
    requires InStep(i, st) && st.pos < |i.text|
    ensures Written(i, Step(i, st))
  {
    hide Nested, Written, NormalStep, FormatStep, BodyStep, Laid, Hushed, InCode;
    if Top(st.ctx).Some? && Top(st.ctx).value.Str? {
      var body := Top(st.ctx).value.body;
      WrittenAccounts(i, st);
      BodyWrites(i, st, body);
    } else if Top(st.ctx) == Some(Fmt) {
      FormatWrites(i, st);
    } else {
      CodeIsOnTop(st);
      NormalWrites(i, st);
    }
  }

  lemma WrittenAccounts(i: Input, st: State)
    requires Written(i, st)
    ensures Account(i, st.tokens, st.errors)
  {
  }

  lemma CodeIsOnTop(st: State)
    requires (Top(st.ctx).Some? ==> !Top(st.ctx).value.Str?) && Top(st.ctx) != Some(Fmt)
    ensures InCode(Layers(st.ctx))
  {
    assert st.ctx != [] ==> Layers(st.ctx)[|st.ctx| - 1] == LayerOf(Top(st.ctx).value);
  }

  lemma {:induction false} ScanWrites(i: Input, st: State)
    requires InStep(i, st) && st.pos <= |i.text|
    ensures Nested(Scan(i, st)) && Written(i, Scan(i, st))
    decreases |i.text| - st.pos, |st.ctx|
  {
    hide Nested, Placed, Written, Step;
    if st.pos < |i.text| {
      StepWrites(i, st);
      StepNests(i, st);
      StepPlaced(i, st);
      StepAdvances(i, st);
      ScanWrites(i, Step(i, st));
    }
  }

  lemma {:induction false} DrainWrites(i: Input, st: State)
    requires Account(i, st.tokens, st.errors)
    requires CodeAfter(Shapes(st.tokens)) ==> Trivia(i.text, EndOf(i, st.tokens), |i.text|)
    ensures var next := Drain(i, st);
            && Account(i, next.tokens, next.errors)
            && (CodeAfter(Shapes(next.tokens)) ==> Trivia(i.text, EndOf(i, next.tokens), |i.text|))
    decreases |st.ctx|
  {
    hide Account, CodeAfter, Trivia, EndOf;
    var end := |i.text|;
    if st.ctx != [] {
      match Top(st.ctx).value
      case Str(body) =>
        var d := Diag("E0102", Span(Less(body.start, 1), end));
        EmptyWrites(i, st.tokens, st.errors, StrEnd, end, st.errors + [d]);
        DrainWrites(i, Push(Fault(Leave(st), "E0102", Less(body.start, 1), end), StrEnd, end, end));
      case Interp =>
        var d := Diag("E0112", Span(end, end));
        EmptyWrites(i, st.tokens, st.errors, InterpEnd, end, st.errors + [d]);
        DrainWrites(i, Push(Fault(Leave(st), "E0112", end, end), InterpEnd, end, end));
      case Fmt =>
        var d := Diag("E0112", Span(end, end));
        EmptyWrites(i, st.tokens, st.errors, InterpEnd, end, st.errors + [d]);
        DrainWrites(i, Push(Fault(Leave(st), "E0112", end, end), InterpEnd, end, end));
      case _ => DrainWrites(i, Leave(st));
    }
  }

  lemma BeginWrites(i: Input)
    ensures InStep(i, Begin(i)) && Begin(i).pos <= |i.text|
  {
    hide StackOf, Deepest;
    BeginNests(i);
    assert Layers([]) == [];
  }

  /** For every input: each token is spelt by the text under it; a number is the longest there is,
    a float if it has a point or an exponent, and reported as E0106 if and only if it is a prefix
    without digits of its base; an operator is the longest there is; and where code is read, all
    that stands before a token, or behind the last, are blanks, line ends and comments. */
  lemma TokensAreSpelt(i: Input)
    ensures var lexed := Lex(i);
            && AllSpelt(i, lexed.tokens) && BadNumbersReported(i, lexed.tokens, lexed.errors)
            && GapsAreTrivia(i, lexed.tokens)
            && (CodeAfter(Shapes(lexed.tokens)) ==> Trivia(i.text, EndOf(i, lexed.tokens), |i.text|))
  {
    hide Nested, AllSpelt, BadNumbersReported, GapsAreTrivia, CodeAfter, Trivia, EndOf, Scan, Begin, Drain, EndsStatement,
         Permits, InStep;
    BeginWrites(i);
    ScanWrites(i, Begin(i));
    var scanned := Scan(i, Begin(i));
    NestedIsCode(scanned);
    var open := scanned.(openAtEof := scanned.ctx != []);
    DrainWrites(i, open);
    var drained := Drain(i, open);
    EmptyWrites(i, drained.tokens, drained.errors, Term(false), |i.text|, drained.errors);
  }

  /** What is skipped before the first token: a byte order mark, or else a first line that begins
    with `#!` and not with `#![`. */
  predicate IsPrologue(text: string, end: nat) {
    if |text| > 0 && text[0] == 0xFEFF as char then end == 1
    else if |text| > 1 && text[0] == '#' && text[1] == '!' && !(|text| > 2 && text[2] == '[')
    then end <= |text| && (forall k :: 0 <= k < end ==> text[k] != '\n') && (end < |text| ==> text[end] == '\n')
    else end == 0
  }

  lemma PrologueIsSkipped(i: Input)
    ensures IsPrologue(i.text, EndOf(i, []))
  {
    if |i.text| > 1 {
      assert i.text[0..2] == [i.text[0], i.text[1]];
    }
    if |i.text| > 2 {
      assert i.text[0..3] == [i.text[0], i.text[1], i.text[2]];
    }
  }
}
