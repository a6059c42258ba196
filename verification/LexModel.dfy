/** The lexer's state and one move of its scan, as functions on values.

  A source is a sequence of Unicode scalars and every offset counts scalars.  `Step`
  consumes one character, one run or one token, whichever loop of the lexer is active;
  `Lex` repeats it to the end and closes what is open.  The `Lexer` class is proved to
  compute `Lex`, and the `Lex*` modules prove what `Lex` guarantees. */
module LexModel {
  import opened Wrappers

  /** The character classes outside ASCII, which no rule here depends on. */
  datatype Unicode = Unicode(alphabetic: char -> bool, numeric: char -> bool, white: char -> bool)

  datatype Input = Input(text: string, unicode: Unicode)

  datatype Span = Span(start: nat, end: nat)

  datatype Diag = Diag(code: string, span: Span)

  datatype StrKind = Plain | Multiline | Raw(hashes: nat) | Generalized(prefix: string)

  /** Operators that neither open nor close anything share one constructor. */
  datatype Tok =
    | Ident(name: string) | Underscore | Kw(word: string)
    | Int(spelling: string) | Float(spelling: string) | Char(value: char)
    | StrStart(kind: StrKind) | StrText(text: string) | StrEnd
    | InterpStart | InterpEnd | FmtStart | FmtText(text: string)
    | Term(explicit: bool)
    | LParen | RParen | LBracket | RBracket | LBrace | RBrace | HashBracket | HashBangBracket
    | Op(spelling: string)
    | Error

  datatype Token = Token(tok: Tok, span: Span)

  /** A part of a multiline literal: a text token, or an interpolation. */
  datatype Piece = Text(index: nat) | Hole

  datatype Body = Body(kind: StrKind, start: nat, pending: string, pendingStart: nat,
                       pieces: seq<Piece>, lineStarts: seq<nat>)

  datatype Frame = Paren | Bracket | AttrBracket | Brace | Interp | Fmt | Str(body: Body)

  /** `ctx` holds the open delimiters and literals, innermost last. */
  datatype State = State(pos: nat, tokens: seq<Token>, ctx: seq<Frame>, errors: seq<Diag>, deferred: seq<Diag>,
                         deepest: nat, depthReported: bool, attrClose: Option<nat>, openAtEof: bool)

  const NESTING_FRIENDLY_LIMIT := 8
  const NESTING_HARD_RAIL := 32
  const BYTE_ORDER_MARK := 0xFEFF as char

  /** The terminator the lexer inserts. */
  const IMPLICIT := Term(false)

  const KEYWORDS: seq<string> := [
    "as", "asm", "assume", "borrow", "break", "comptime", "const", "continue", "copy", "defer",
    "distinct", "dyn", "else", "enum", "errdefer", "export", "extern", "false", "fn", "for",
    "freeze", "handle", "if", "impl", "import", "in", "let", "loop", "match", "move", "mut",
    "proc", "pub", "region", "return", "scope", "select", "shared", "spawn", "struct", "take",
    "trait", "true", "type", "unsafe", "use", "var", "weak", "when", "while"]

  /** Longest first. */
  const OPERATORS: seq<string> := [
    "<<=", ">>=", "<=>", "..=", "<<", ">>", "<=", ">=", "==", "!=", "&&", "||",
    "+=", "-=", "*=", "/=", "%=", "&=", "|=", "^=", "->", "=>", ".."]

  // -- characters -----------------------------------------------------------------

  predicate IsAsciiLetter(c: char) {
    'a' <= c <= 'z' || 'A' <= c <= 'Z'
  }

  predicate IsDigit(c: char) {
    '0' <= c <= '9'
  }

  predicate IsXidStart(i: Input, c: char) {
    IsAsciiLetter(c) || (c as int >= 128 && i.unicode.alphabetic(c))
  }

  predicate IsXidContinue(i: Input, c: char) {
    IsXidStart(i, c) || IsDigit(c) || c == '_' || (c as int >= 128 && i.unicode.numeric(c))
  }

  function Continues(i: Input): char -> bool {
    c => IsXidContinue(i, c)
  }

  /** Blanks inside a line. */
  predicate IsInline(c: char) {
    c == ' ' || c == '\t' || c == '\r' || c == 11 as char || c == 12 as char
  }

  predicate IsWhite(i: Input, c: char) {
    c == '\n' || IsInline(c) || (c as int >= 128 && i.unicode.white(c))
  }

  predicate IsBlank(c: char) {
    c == ' ' || c == '\t'
  }

  predicate IsDecimal(c: char) {
    IsDigit(c) || c == '_'
  }

  predicate IsBased(c: char) {
    c == '_' || IsDigit(c) || IsAsciiLetter(c)
  }

  function HexDigit(c: char): (d: Option<nat>)
    ensures d.Some? ==> d.value < 16
  {
    if IsDigit(c) then Some(c as int - '0' as int)
    else if 'a' <= c <= 'f' then Some(c as int - 'a' as int + 10)
    else if 'A' <= c <= 'F' then Some(c as int - 'A' as int + 10)
    else None
  }

  predicate IsHex(c: char) {
    HexDigit(c).Some?
  }

  predicate NotNewline(c: char) {
    c != '\n'
  }

  predicate IsHash(c: char) {
    c == '#'
  }

  predicate IsFormatText(c: char) {
    c != '{' && c != '}'
  }

  // -- looking ahead ----------------------------------------------------------------

  predicate Sees(text: string, at: nat, c: char) {
    at < |text| && text[at] == c
  }

  predicate StartsAt(text: string, at: nat, word: string) {
    at + |word| <= |text| && text[at..at + |word|] == word
  }

  /** Where the run of `p` characters from `at` ends. */
  function RunEnd(text: string, at: nat, p: char -> bool): (end: nat)
    requires at <= |text|
    ensures at <= end <= |text|
    ensures forall k :: at <= k < end ==> p(text[k])
    ensures end < |text| ==> !p(text[end])
    decreases |text| - at
  {
    if at < |text| && p(text[at]) then RunEnd(text, at + 1, p) else at
  }

  function SkipTrivia(text: string, at: nat): (end: nat)
    requires at <= |text|
    ensures at <= end <= |text|
    decreases |text| - at
  {
    if at == |text| then at
    else if IsInline(text[at]) || text[at] == '\n' then SkipTrivia(text, at + 1)
    else if StartsAt(text, at, "//") then SkipTrivia(text, RunEnd(text, at + 2, NotNewline))
    else at
  }

  /** The next token is the keyword `else`. */
  predicate ElseAt(i: Input, at: nat)
    requires at <= |i.text|
  {
    StartsAt(i.text, at, "else") && (at + 4 == |i.text| || !IsXidContinue(i, i.text[at + 4]))
  }

  predicate ElseFollows(i: Input, from: nat)
    requires from <= |i.text|
  {
    ElseAt(i, SkipTrivia(i.text, from))
  }

  predicate IsKeyword(word: string) {
    word in KEYWORDS
  }

  function LongestOperator(text: string, at: nat, ops: seq<string>): (r: Option<string>)
    ensures r.Some? ==> StartsAt(text, at, r.value) && r.value in ops
  {
    if ops == [] then None
    else if StartsAt(text, at, ops[0]) then Some(ops[0])
    else LongestOperator(text, at, ops[1..])
  }

  // -- the context stack ------------------------------------------------------------

  function Top(ctx: seq<Frame>): Option<Frame> {
    if ctx == [] then None else Some(ctx[|ctx| - 1])
  }

  function Pop(ctx: seq<Frame>): (r: seq<Frame>)
    ensures ctx != [] ==> |r| == |ctx| - 1
  {
    if ctx == [] then [] else ctx[..|ctx| - 1]
  }

  /** The innermost frame that is neither a string nor a format spec. */
  function Innermost(ctx: seq<Frame>): Option<Frame> {
    if ctx == [] then None
    else if Top(ctx).value.Str? || Top(ctx).value.Fmt? then Innermost(Pop(ctx))
    else Top(ctx)
  }

  predicate Permits(innermost: Option<Frame>) {
    innermost.None? || innermost.value.Brace?
  }

  function StringDepth(ctx: seq<Frame>): nat {
    if ctx == [] then 0 else StringDepth(Pop(ctx)) + if Top(ctx).value.Str? then 1 else 0
  }

  function InnermostString(ctx: seq<Frame>): (r: Option<Body>)
    ensures r.Some? ==> ctx != []
  {
    if ctx == [] then None
    else if Top(ctx).value.Str? then Some(Top(ctx).value.body)
    else InnermostString(Pop(ctx))
  }

  function Less(n: nat, k: nat): nat {
    if n < k then 0 else n - k
  }

  /** The innermost open string, when it is a plain one. */
  function OpenPlain(ctx: seq<Frame>, end: nat): (r: Option<Span>)
    ensures r.Some? ==> ctx != []
  {
    match InnermostString(ctx)
    case Some(body) => if body.kind.Plain? then Some(Span(Less(body.start, 1), end)) else None
    case None => None
  }

  predicate Closes(top: Option<Frame>, expected: Frame) {
    && top.Some?
    && (top.value == expected || (expected.Bracket? && top.value.AttrBracket?))
  }

  // -- state changes ------------------------------------------------------------------

  function Push(st: State, tok: Tok, start: nat, end: nat): State {
    st.(tokens := st.tokens + [Token(tok, Span(start, end))])
  }

  /** Moves to `end`, leaving a token behind. */
  function Emit(st: State, tok: Tok, start: nat, end: nat): State {
    Push(st, tok, start, end).(pos := end)
  }

  function Fault(st: State, code: string, start: nat, end: nat): State {
    st.(errors := st.errors + [Diag(code, Span(start, end))])
  }

  function Enter(st: State, frame: Frame): State {
    st.(ctx := st.ctx + [frame])
  }

  function Leave(st: State): State {
    st.(ctx := Pop(st.ctx))
  }

  function WithTop(st: State, frame: Frame): State
    requires st.ctx != []
  {
    st.(ctx := Pop(st.ctx) + [frame])
  }

  predicate EndsStatement(t: Tok) {
    match t
    case Ident(_) => true
    case Underscore => true
    case Int(_) => true
    case Float(_) => true
    case Char(_) => true
    case StrEnd => true
    case Kw(k) => k == "true" || k == "false" || k == "return" || k == "break" || k == "continue"
    case RParen => true
    case RBracket => true
    case RBrace => true
    case Op(o) => o == "?"
    case _ => false
  }

  predicate LastEnds(st: State) {
    && st.tokens != []
    && EndsStatement(st.tokens[|st.tokens| - 1].tok)
    && st.attrClose != Some(|st.tokens| - 1)
  }

  function InsertTerminator(i: Input, st: State, at: nat): State
    requires at < |i.text|
  {
    if Permits(Innermost(st.ctx)) && LastEnds(st) && !ElseFollows(i, at + 1)
    then Push(st, Term(false), at, at) else st
  }

  /** Pops to and including the innermost string, closing literals on the way. */
  function Unwind(st: State): State
    decreases |st.ctx|
  {
    if st.ctx == [] then st
    else
      match Top(st.ctx).value
      case Str(_) => Push(Leave(st), StrEnd, st.pos, st.pos)
      case Interp => Unwind(Push(Leave(st), InterpEnd, st.pos, st.pos))
      case Fmt => Unwind(Push(Leave(st), InterpEnd, st.pos, st.pos))
      case _ => Unwind(Leave(st))
  }

  // -- token mode -----------------------------------------------------------------------

  function NormalStep(i: Input, st: State): State
    requires st.pos < |i.text|
  {
    var c := i.text[st.pos];
    if c == '\n' then
      match OpenPlain(st.ctx, st.pos)
      case Some(span) => Unwind(Fault(st, "E0102", span.start, span.end))
      case None => InsertTerminator(i, st.(pos := st.pos + 1), st.pos)
    else if IsInline(c) then st.(pos := st.pos + 1)
    else if StartsAt(i.text, st.pos, "//") then st.(pos := RunEnd(i.text, st.pos + 2, NotNewline))
    else TokenStep(i, st)
  }

  function TokenStep(i: Input, st: State): State
    requires st.pos < |i.text|
  {
    var c := i.text[st.pos];
    if IsXidStart(i, c) || c == '_' then WordStep(i, st)
    else if IsDigit(c) then NumberStep(i, st)
    else if c == '"' then QuoteStep(i, st)
    else if c == '\'' then CharStep(i, st)
    else if StartsAt(i.text, st.pos, "#![") then
      Emit(Enter(st, AttrBracket), HashBangBracket, st.pos, st.pos + 3)
    else if StartsAt(i.text, st.pos, "#[") then
      Emit(Enter(st, AttrBracket), HashBracket, st.pos, st.pos + 2)
    else
      match LongestOperator(i.text, st.pos, OPERATORS)
      case Some(op) => Emit(st, Op(op), st.pos, st.pos + |op|)
      case None => SingleStep(i, st)
  }

  predicate IsSingle(c: char) {
    c in "!+-*/%&^|<>=.?,@"
  }

  function SingleStep(i: Input, st: State): State
    requires st.pos < |i.text|
  {
    var c := i.text[st.pos];
    var start, end := st.pos, st.pos + 1;
    if c == '(' then Emit(Enter(st, Paren), LParen, start, end)
    else if c == '[' then Emit(Enter(st, Bracket), LBracket, start, end)
    else if c == '{' then Emit(Enter(st, Brace), LBrace, start, end)
    else if c == ')' then Emit(PopDelimiter(st, Paren), RParen, start, end)
    else if c == ']' then CloseBracket(st)
    else if c == '}' then CloseBrace(st)
    else if c == ':' then
      (if Top(st.ctx) == Some(Interp) then Emit(WithTop(st, Fmt), FmtStart, start, end)
       else Emit(st, Op(":"), start, end))
    else if c == ';' then Emit(st, Term(true), start, end)
    else if IsSingle(c) then Emit(st, Op([c]), start, end)
    else if c == BYTE_ORDER_MARK then Emit(Fault(st, "E0107", start, end), Error, start, end)
    else
      var stop := StrayEnd(i, end);
      Emit(Fault(st, "E0107", start, stop), Error, start, stop)
  }

  predicate BeginsNoToken(i: Input, at: nat)
    requires at < |i.text|
  {
    var c := i.text[at];
    if IsWhite(i, c) || IsXidStart(i, c) || c == '_' || IsDigit(c) || c == BYTE_ORDER_MARK then false
    else if c == '#' then !StartsAt(i.text, at, "#[") && !StartsAt(i.text, at, "#![")
    else c !in "\"'()[]{}:!+-*/%&^|<>=.?,@;"
  }

  function StrayEnd(i: Input, at: nat): (end: nat)
    requires at <= |i.text|
    ensures at <= end <= |i.text|
    decreases |i.text| - at
  {
    if at < |i.text| && BeginsNoToken(i, at) then StrayEnd(i, at + 1) else at
  }

  function PopDelimiter(st: State, expected: Frame): (r: State)
    ensures r == st || r == Leave(st)
  {
    if Closes(Top(st.ctx), expected) then Leave(st) else st
  }

  function CloseBracket(st: State): State {
    var closed := Emit(PopDelimiter(st, Bracket), RBracket, st.pos, st.pos + 1);
    if Top(st.ctx) == Some(AttrBracket) then closed.(attrClose := Some(|closed.tokens| - 1)) else closed
  }

  function CloseBrace(st: State): State {
    if Top(st.ctx) == Some(Interp) || Top(st.ctx) == Some(Fmt)
    then Emit(Leave(st), InterpEnd, st.pos, st.pos + 1)
    else Emit(PopDelimiter(st, Brace), RBrace, st.pos, st.pos + 1)
  }

  // -- words and numbers --------------------------------------------------------------------

  function WordTok(word: string): Tok {
    if word == "_" then Underscore else if IsKeyword(word) then Kw(word) else Ident(word)
  }

  function WordStep(i: Input, st: State): State
    requires st.pos < |i.text|
    requires IsXidStart(i, i.text[st.pos]) || i.text[st.pos] == '_'
  {
    var end := RunEnd(i.text, st.pos, Continues(i));
    var word := i.text[st.pos..end];
    if word == "r" && (Sees(i.text, end, '"') || Sees(i.text, end, '#')) then RawStep(i, st, end)
    else if Sees(i.text, end, '"') && !IsKeyword(word) && word != "_" then
      OpenString(st, Generalized(word), st.pos, end + 1)
    else Emit(st, WordTok(word), st.pos, end)
  }

  function Radix(marker: char): Option<nat> {
    if marker == 'x' || marker == 'X' then Some(16)
    else if marker == 'o' || marker == 'O' then Some(8)
    else if marker == 'b' || marker == 'B' then Some(2)
    else None
  }

  predicate InRadix(c: char, radix: nat) {
    HexDigit(c).Some? && HexDigit(c).value < radix
  }

  predicate WellBased(digits: string, radix: nat) {
    digits != "" && forall k :: 0 <= k < |digits| ==> digits[k] == '_' || InRadix(digits[k], radix)
  }

  predicate HasPrefix(text: string, at: nat) {
    Sees(text, at, '0') && at + 1 < |text| && Radix(text[at + 1]).Some?
  }

  predicate DigitAt(text: string, at: nat) {
    at < |text| && IsDigit(text[at])
  }

  /** Past the fraction, which needs a digit on both sides of its point. */
  function FractionEnd(text: string, at: nat): (end: nat)
    requires at <= |text|
    ensures at <= end <= |text|
  {
    if Sees(text, at, '.') && DigitAt(text, at + 1) then RunEnd(text, at + 1, IsDecimal) else at
  }

  function ExponentEnd(text: string, at: nat): (end: nat)
    requires at <= |text|
    ensures at <= end <= |text|
  {
    if !Sees(text, at, 'e') && !Sees(text, at, 'E') then at
    else
      var digits := if Sees(text, at + 1, '+') || Sees(text, at + 1, '-') then at + 2 else at + 1;
      if DigitAt(text, digits) then RunEnd(text, digits, IsDecimal) else at
  }

  function NumberStep(i: Input, st: State): State
    requires DigitAt(i.text, st.pos)
  {
    if HasPrefix(i.text, st.pos) then
      var end := RunEnd(i.text, st.pos + 2, IsBased);
      var ok := WellBased(i.text[st.pos + 2..end], Radix(i.text[st.pos + 1]).value);
      Emit(if ok then st else Fault(st, "E0106", st.pos, end), Int(i.text[st.pos..end]), st.pos, end)
    else
      var whole := RunEnd(i.text, st.pos, IsDecimal);
      var fraction := FractionEnd(i.text, whole);
      var end := ExponentEnd(i.text, fraction);
      var spelling := i.text[st.pos..end];
      Emit(st, if end == whole then Int(spelling) else Float(spelling), st.pos, end)
  }

  // -- escapes and character literals ---------------------------------------------------------

  datatype EscapeFault = Malformed | DigitCount

  /** What an escape spells and where it ends. */
  datatype Escape = Escape(end: nat, value: Result<char, EscapeFault>)

  function SimpleEscape(c: char): Option<char> {
    if c == 'n' then Some('\n')
    else if c == 't' then Some('\t')
    else if c == 'r' then Some('\r')
    else if c == '\\' then Some('\\')
    else if c == '"' then Some('"')
    else if c == '0' then Some('\0')
    else None
  }

  predicate IsScalar(n: nat) {
    n < 0xD800 || 0xE000 <= n < 0x110000
  }

  function HexValue(digits: string): nat
    requires forall k :: 0 <= k < |digits| ==> IsHex(digits[k])
  {
    if digits == "" then 0
    else
      var last := digits[|digits| - 1];
      assert IsHex(last);
      HexValue(digits[..|digits| - 1]) * 16 + HexDigit(last).value
  }

  /** After `\x`. */
  function HexEscape(text: string, at: nat): (e: Escape)
    requires at <= |text|
    ensures at <= e.end <= |text|
  {
    if at == |text| || !IsHex(text[at]) then Escape(at, Err(Malformed))
    else if at + 1 == |text| || !IsHex(text[at + 1]) then Escape(at + 1, Err(Malformed))
    else Escape(at + 2, Ok((HexDigit(text[at]).value * 16 + HexDigit(text[at + 1]).value) as char))
  }

  /** After `\u`. */
  function UnicodeEscape(text: string, at: nat): (e: Escape)
    requires at <= |text|
    ensures at <= e.end <= |text|
  {
    if !Sees(text, at, '{') then Escape(at, Err(Malformed))
    else
      var end := RunEnd(text, at + 1, IsHex);
      var digits := text[at + 1..end];
      if !Sees(text, end, '}') then Escape(end, Err(Malformed))
      else if |digits| == 0 || |digits| > 6 then Escape(end + 1, Err(DigitCount))
      else if !IsScalar(HexValue(digits)) then Escape(end + 1, Err(Malformed))
      else Escape(end + 1, Ok(HexValue(digits) as char))
  }

  /** After a backslash; a character literal also knows an escaped apostrophe. */
  function EscapeAt(text: string, at: nat, literal: bool): (e: Escape)
    requires at < |text|
    ensures at < e.end <= |text|
  {
    var c := text[at];
    if c == 'x' then HexEscape(text, at + 1)
    else if c == 'u' then UnicodeEscape(text, at + 1)
    else if literal && c == '\'' then Escape(at + 1, Ok('\''))
    else
      match SimpleEscape(c)
      case Some(v) => Escape(at + 1, Ok(v))
      case None => Escape(at + 1, Err(Malformed))
  }

  /** What is known of a character literal so far: how many scalars, the first, and the
    first malformed escape with its span. */
  datatype Glyphs = Glyphs(count: nat, first: Option<char>, bad: Option<(EscapeFault, Span)>)

  function Seen(g: Glyphs, c: char): Glyphs {
    Glyphs(g.count + 1, Some(g.first.GetOr(c)), g.bad)
  }

  function Spoiled(g: Glyphs, fault: EscapeFault, span: Span): Glyphs {
    Glyphs(g.count + 1, g.first, Some(g.bad.GetOr((fault, span))))
  }

  function AfterEscape(g: Glyphs, start: nat, e: Escape): Glyphs {
    match e.value
    case Ok(c) => Seen(g, c)
    case Err(fault) => Spoiled(g, fault, Span(start, e.end))
  }

  /** Reads to the closing quote; `None` when the line ends first. */
  function CharBody(text: string, at: nat, g: Glyphs): (r: (nat, Option<Glyphs>))
    requires at <= |text|
    ensures at <= r.0 <= |text|
    decreases |text| - at
  {
    if at == |text| || text[at] == '\n' then (at, None)
    else if text[at] == '\'' then (at + 1, Some(g))
    else if text[at] != '\\' then CharBody(text, at + 1, Seen(g, text[at]))
    else if at + 1 == |text| then CharBody(text, at + 1, Spoiled(g, Malformed, Span(at, at + 1)))
    else
      var e := EscapeAt(text, at + 1, true);
      CharBody(text, e.end, AfterEscape(g, at, e))
  }

  function CharStep(i: Input, st: State): State
    requires Sees(i.text, st.pos, '\'')
  {
    var (end, read) := CharBody(i.text, st.pos + 1, Glyphs(0, None, None));
    if read.None? then Emit(Fault(st, "E0110", st.pos, end), Error, st.pos, end)
    else CharVerdict(st, read.value, end)
  }

  function CharVerdict(st: State, g: Glyphs, end: nat): State {
    match g.bad
    case Some((DigitCount, span)) => Emit(Fault(st, "E0101", span.start, span.end), Error, st.pos, end)
    case Some((Malformed, _)) => Emit(Fault(st, "E0110", st.pos, end), Error, st.pos, end)
    case None =>
      if g.count == 1 && g.first.Some? then Emit(st, Char(g.first.value), st.pos, end)
      else Emit(Fault(st, "E0110", st.pos, end), Error, st.pos, end)
  }

  // -- opening strings ---------------------------------------------------------------------------

  /** Leaves the opening token behind and stands at the start of the body. */
  function OpenString(st: State, kind: StrKind, start: nat, body: nat): (r: State)
    ensures r.pos == body
  {
    EnterString(Emit(st, StrStart(kind), start, body), Body(kind, body, "", body, [], []))
  }

  lemma OpenIgnoresPos(st: State, pos: nat, kind: StrKind, start: nat, body: nat)
    ensures OpenString(st.(pos := pos), kind, start, body) == OpenString(st, kind, start, body)
  {
  }

  function EnterString(st: State, body: Body): State {
    var entered := Enter(st, Str(body));
    var depth := StringDepth(entered.ctx);
    var span := if st.tokens == [] then Span(st.pos, st.pos) else st.tokens[|st.tokens| - 1].span;
    var friendly := depth > NESTING_FRIENDLY_LIMIT && depth <= NESTING_HARD_RAIL && !st.depthReported;
    var noted := entered.(deepest := if st.deepest < depth then depth else st.deepest,
                          depthReported := st.depthReported || friendly,
                          deferred := if friendly then st.deferred + [Diag("E0007", span)] else st.deferred);
    if depth > NESTING_HARD_RAIL then Fault(noted, "E0108", span.start, span.end) else noted
  }

  predicate AllWhite(i: Input, from: nat, to: nat)
    requires from <= to <= |i.text|
  {
    forall k :: from <= k < to ==> IsWhite(i, i.text[k])
  }

  function QuoteStep(i: Input, st: State): State
    requires Sees(i.text, st.pos, '"')
  {
    if StartsAt(i.text, st.pos, "\"\"\"") then MultilineStep(i, st)
    else OpenString(st, StrKind.Plain, st.pos, st.pos + 1)
  }

  function MultilineStep(i: Input, st: State): State
    requires StartsAt(i.text, st.pos, "\"\"\"")
  {
    var after := st.pos + 3;
    var eol := RunEnd(i.text, after, NotNewline);
    var judged := if AllWhite(i, after, eol) then st else Fault(st, "E0103", after, eol);
    var newline := if Sees(i.text, after, '\r') then after + 1 else after;
    if Sees(i.text, newline, '\n')
    then AtLineStart(OpenString(judged, Multiline, st.pos, newline + 1), newline + 1)
    else OpenString(judged, Multiline, st.pos, after)
  }

  /** Records a physical line start of the innermost body. */
  function AtLineStart(st: State, at: nat): (r: State)
    ensures r.pos == st.pos && |r.ctx| == |st.ctx|
  {
    if st.ctx != [] && Top(st.ctx).value.Str? then
      var body := Top(st.ctx).value.body;
      WithTop(st, Str(body.(lineStarts := body.lineStarts + [at])))
    else st
  }

  /** After `r`, with a quote or a fence ahead. */
  function RawStep(i: Input, st: State, end: nat): State
    requires st.pos < end <= |i.text|
  {
    var quote := RunEnd(i.text, end, IsHash);
    if Sees(i.text, quote, '"') then OpenString(st, Raw(quote - end), st.pos, quote + 1)
    else Emit(st, Ident("r"), st.pos, st.pos + 1)
  }

  // -- string bodies -------------------------------------------------------------------------------

  /** `c` joins the pending text of the innermost body, `at` being where it was written. */
  function Held(body: Body, c: char, at: nat): Body {
    body.(pending := body.pending + [c], pendingStart := if body.pending == "" then at else body.pendingStart)
  }

  function Hold(st: State, body: Body, c: char, end: nat): State
    requires st.ctx != []
  {
    WithTop(st, Str(Held(body, c, st.pos))).(pos := end)
  }

  /** The pending text becomes a token, remembered if the dedent may rewrite it. */
  function Flush(st: State, body: Body): State
    requires st.ctx != []
  {
    if body.pending == "" then WithTop(st, Str(body))
    else
      var index := |st.tokens|;
      var pieces := if body.kind.Multiline? then body.pieces + [Text(index)] else body.pieces;
      Push(WithTop(st, Str(body.(pending := "", pieces := pieces))), StrText(body.pending), body.pendingStart, st.pos)
  }

  predicate Fenced(text: string, at: nat, hashes: nat)
    requires at <= |text|
  {
    at + hashes <= |text| && forall k :: at <= k < at + hashes ==> text[k] == '#'
  }

  predicate ClosesString(text: string, at: nat, kind: StrKind)
    requires at < |text|
  {
    match kind
    case Multiline => StartsAt(text, at, "\"\"\"")
    case Raw(hashes) => text[at] == '"' && Fenced(text, at + 1, hashes)
    case _ => text[at] == '"'
  }

  function CloserLength(kind: StrKind): nat {
    match kind
    case Multiline => 3
    case Raw(hashes) => 1 + hashes
    case _ => 1
  }

  /** Gives up on an unterminated body. */
  function Abandon(st: State, body: Body): State
    requires st.ctx != []
  {
    Leave(Push(Flush(st, body), StrEnd, st.pos, st.pos))
  }

  function CloseString(i: Input, st: State, body: Body): State
    requires st.ctx != [] && st.pos < |i.text|
  {
    var ready := if body.kind.Multiline? then Dedented(i, st, body) else (st, body);
    var flushed := Flush(ready.0, ready.1);
    Leave(Emit(flushed, StrEnd, st.pos, st.pos + CloserLength(body.kind)))
  }

  function BodyStep(i: Input, st: State, body: Body): State
    requires st.pos < |i.text| && st.ctx != []
  {
    var c := i.text[st.pos];
    if ClosesString(i.text, st.pos, body.kind) then CloseString(i, st, body)
    else if body.kind.Generalized? && c == '\n' then
      Abandon(Fault(st, "E0109", st.pos, st.pos + 1), body)
    else if body.kind.Raw? || body.kind.Generalized? then Hold(st, body, c, st.pos + 1)
    else TextStep(i, st, body)
  }

  function TextStep(i: Input, st: State, body: Body): State
    requires st.pos < |i.text| && st.ctx != []
  {
    var c := i.text[st.pos];
    if StartsAt(i.text, st.pos, "{{") then Hold(st, body, '{', st.pos + 2)
    else if StartsAt(i.text, st.pos, "}}") then Hold(st, body, '}', st.pos + 2)
    else if c == '{' then Interpolate(st, body)
    else if c == '}' then WithTop(Fault(st, "E0111", st.pos, st.pos + 1), Str(body)).(pos := st.pos + 1)
    else if c == '\\' then EscapeStep(i, st, body)
    else if c == '\n' && body.kind.Plain? then
      Abandon(Fault(st, "E0102", Less(body.start, 1), st.pos), body)
    else if c == '\n' then AtLineStart(Hold(st, body, c, st.pos + 1), st.pos + 1)
    else Hold(st, body, c, st.pos + 1)
  }

  function Interpolate(st: State, body: Body): State
    requires st.ctx != []
  {
    var flushed := Flush(st, body);
    var emitted := Emit(flushed, InterpStart, st.pos, st.pos + 1);
    Enter(if body.kind.Multiline? then AtHole(emitted) else emitted, Interp)
  }

  /** Records an interpolation of the innermost body. */
  function AtHole(st: State): State {
    if st.ctx != [] && Top(st.ctx).value.Str? then
      var body := Top(st.ctx).value.body;
      WithTop(st, Str(body.(pieces := body.pieces + [Hole])))
    else st
  }

  function EscapeStep(i: Input, st: State, body: Body): State
    requires st.pos < |i.text| && st.ctx != []
  {
    if st.pos + 1 == |i.text| then
      WithTop(Fault(st, "E0102", st.pos, st.pos + 1), Str(body)).(pos := st.pos + 1)
    else
      var e := EscapeAt(i.text, st.pos + 1, false);
      match e.value
      case Ok(c) => Hold(st, body, c, e.end)
      case Err(_) => WithTop(Fault(st, "E0101", st.pos, e.end), Str(body)).(pos := e.end)
  }

  // -- dedent ---------------------------------------------------------------------------------------

  function LineStart(text: string, at: nat): (start: nat)
    requires at <= |text|
    ensures start <= at
    ensures forall k :: start <= k < at ==> text[k] != '\n'
    ensures start > 0 ==> text[start - 1] == '\n'
  {
    if at == 0 || text[at - 1] == '\n' then at else LineStart(text, at - 1)
  }

  predicate AllBlank(s: string) {
    forall k :: 0 <= k < |s| ==> IsBlank(s[k])
  }

  function TrimBlanks(s: string, most: nat): (r: string)
    ensures r <= s
  {
    if most > 0 && s != "" && IsBlank(s[|s| - 1]) then TrimBlanks(s[..|s| - 1], most - 1) else s
  }

  /** The first content line before `closing` whose margin is short or differs. */
  function MarginFault(text: string, starts: seq<nat>, margin: string, closing: nat): Option<Diag>
  {
    if starts == [] || starts[0] >= closing || starts[0] > |text| then None
    else
      var start := starts[0];
      var run := RunEnd(text, start, IsBlank);
      if run == |text| || text[run] == '\n' || text[run] == '\r' then MarginFault(text, starts[1..], margin, closing)
      else if run - start < |margin| then
        Some(Diag("E0104", Span(start, if run == start then start + 1 else run)))
      else if text[start..start + |margin|] != margin then
        Some(Diag("E0105", Span(start, start + |margin|)))
      else MarginFault(text, starts[1..], margin, closing)
  }

  /** How many blanks, at most `most`, the text opens with. */
  function Blanks(s: string, most: nat): (n: nat)
    ensures n <= |s| && n <= most
  {
    if most > 0 && s != "" && IsBlank(s[0]) then 1 + Blanks(s[1..], most - 1) else 0
  }

  /** Strips up to `column` blanks at every line start of one chunk; also whether the chunk
    ends at a line start. */
  function DedentChunk(s: string, column: nat, atLineStart: bool): (string, bool)
    decreases |s|
  {
    if s == "" then ("", atLineStart)
    else if !atLineStart || s[0] == '\n' then
      var rest := DedentChunk(s[1..], column, s[0] == '\n');
      ([s[0]] + rest.0, rest.1)
    else
      var kept := s[Blanks(s, column)..];
      if kept == "" then ("", false)
      else
        var rest := DedentChunk(kept[1..], column, kept[0] == '\n');
        ([kept[0]] + rest.0, rest.1)
  }

  /** Rewrites the text tokens of the pieces; also whether they end at a line start. */
  function DedentPieces(tokens: seq<Token>, pieces: seq<Piece>, column: nat, atLineStart: bool): (r: (seq<Token>, bool))
    ensures |r.0| == |tokens|
    decreases |pieces|
  {
    if pieces == [] then (tokens, atLineStart)
    else
      match pieces[0]
      case Hole => DedentPieces(tokens, pieces[1..], column, false)
      case Text(index) =>
        if index < |tokens| && tokens[index].tok.StrText? then
          var stripped := DedentChunk(tokens[index].tok.text, column, atLineStart);
          DedentPieces(tokens[index := Token(StrText(stripped.0), tokens[index].span)], pieces[1..], column, stripped.1)
        else DedentPieces(tokens, pieces[1..], column, atLineStart)
  }

  /** What closing a multiline body at `st.pos` does before its last text is emitted. */
  function Dedented(i: Input, st: State, body: Body): (State, Body)
    requires st.pos < |i.text|
  {
    var line := LineStart(i.text, st.pos);
    var margin := i.text[line..st.pos];
    var column := |margin|;
    if !AllBlank(margin) then (Fault(st, "E0103", st.pos, st.pos + 3), body)
    else if column == 0 then (st, body)
    else
      var atLineStart := body.lineStarts != [] && body.lineStarts[0] == body.start;
      var fault := MarginFault(i.text, body.lineStarts, margin, line);
      var judged := if fault.Some? then st.(errors := st.errors + [fault.value]) else st;
      var walked := DedentPieces(st.tokens, body.pieces, column, atLineStart);
      var tail := DedentChunk(TrimBlanks(body.pending, column), column, walked.1);
      (judged.(tokens := walked.0), body.(pending := tail.0))
  }

  // -- format specs ------------------------------------------------------------------------------------

  function FormatStep(i: Input, st: State): State
    requires st.pos < |i.text|
  {
    var end := RunEnd(i.text, st.pos, IsFormatText);
    var told := if end == st.pos then st else Emit(st, FmtText(i.text[st.pos..end]), st.pos, end);
    if end == |i.text| then told
    else if i.text[end] == '}' then Emit(Leave(told), InterpEnd, end, end + 1)
    else Enter(Emit(told, InterpStart, end, end + 1), Interp)
  }

  // -- whole inputs --------------------------------------------------------------------------------------

  function Step(i: Input, st: State): State
    requires st.pos < |i.text|
  {
    match Top(st.ctx)
    case Some(Str(body)) => BodyStep(i, st, body)
    case Some(Fmt) => FormatStep(i, st)
    case _ => NormalStep(i, st)
  }

  /** Past a leading byte order mark, or else past a shebang line. */
  function FirstOffset(i: Input): (at: nat)
    ensures at <= |i.text|
  {
    if Sees(i.text, 0, BYTE_ORDER_MARK) then 1
    else if StartsAt(i.text, 0, "#!") && !StartsAt(i.text, 0, "#![") then RunEnd(i.text, 0, NotNewline)
    else 0
  }

  function Begin(i: Input): State {
    State(FirstOffset(i), [], [], [], [], 0, false, None, false)
  }

  /** Closes every frame still open at the end of the input, innermost first. */
  function Drain(i: Input, st: State): State
    decreases |st.ctx|
  {
    var end := |i.text|;
    if st.ctx == [] then st
    else
      match Top(st.ctx).value
      case Str(body) => Drain(i, Push(Fault(Leave(st), "E0102", Less(body.start, 1), end), StrEnd, end, end))
      case Interp => Drain(i, Push(Fault(Leave(st), "E0112", end, end), InterpEnd, end, end))
      case Fmt => Drain(i, Push(Fault(Leave(st), "E0112", end, end), InterpEnd, end, end))
      case _ => Drain(i, Leave(st))
  }

  /** The last statement of a file needs no newline. */
  function Terminated(i: Input, st: State): State {
    if Permits(Innermost(st.ctx)) && st.attrClose != Some(Less(|st.tokens|, 1))
       && st.tokens != [] && EndsStatement(st.tokens[|st.tokens| - 1].tok)
    then Push(st, Term(false), |i.text|, |i.text|) else st
  }

  function Closed(i: Input, st: State): State {
    Terminated(i, Drain(i, st.(openAtEof := st.ctx != [])))
  }

  /** The input left and the height of the stack shrink lexicographically. */
  predicate Advances(i: Input, st: State, next: State) {
    && next.pos <= |i.text|
    && (next.pos > st.pos || (next.pos == st.pos && |next.ctx| < |st.ctx|))
  }

  lemma {:induction false} UnwindAdvances(st: State)
    requires st.ctx != []
    ensures Unwind(st).pos == st.pos && |Unwind(st).ctx| < |st.ctx|
    decreases |st.ctx|
  {
    var top := Top(st.ctx).value;
    if !top.Str? {
      var less := if top.Interp? || top.Fmt? then Push(Leave(st), InterpEnd, st.pos, st.pos) else Leave(st);
      if less.ctx != [] {
        UnwindAdvances(less);
      }
    }
  }

  lemma TokenAdvances(i: Input, st: State)
    requires st.pos < |i.text|
    ensures st.pos < TokenStep(i, st).pos <= |i.text|
  {
    hide LongestOperator, RunEnd, IsXidContinue, CharBody, CharVerdict, IsSingle, IsWhite, IsXidStart, EnterString;
    var c := i.text[st.pos];
    if IsXidStart(i, c) || c == '_' {
      WordAdvances(i, st);
    } else if IsDigit(c) {
      NumberAdvances(i, st);
    } else if c == '"' {
      QuoteAdvances(i, st);
    } else if c == '\'' {
      CharAdvances(i, st);
    } else if LongestOperator(i.text, st.pos, OPERATORS).Some? {
      var op := LongestOperator(i.text, st.pos, OPERATORS).value;
      assert forall w :: w in OPERATORS ==> |w| > 0;
    } else {
      hide WordStep, NumberStep, QuoteStep, CharStep;
    }
  }

  lemma WordAdvances(i: Input, st: State)
    requires st.pos < |i.text|
    requires IsXidStart(i, i.text[st.pos]) || i.text[st.pos] == '_'
    ensures st.pos < WordStep(i, st).pos <= |i.text|
  {
    hide IsKeyword, WordTok, OpenString;
    var end := RunEnd(i.text, st.pos, Continues(i));
    assert IsXidContinue(i, i.text[st.pos]);
    assert end > st.pos;
    var word := i.text[st.pos..end];
  }

  lemma NumberAdvances(i: Input, st: State)
    requires DigitAt(i.text, st.pos)
    ensures st.pos < NumberStep(i, st).pos <= |i.text|
  {
    hide WellBased;
    assert IsDecimal(i.text[st.pos]);
    var whole := RunEnd(i.text, st.pos, IsDecimal);
    assert whole > st.pos;
  }

  lemma QuoteAdvances(i: Input, st: State)
    requires Sees(i.text, st.pos, '"')
    ensures st.pos < QuoteStep(i, st).pos <= |i.text|
  {
    hide AllWhite, OpenString, AtLineStart;
  }

  lemma CharAdvances(i: Input, st: State)
    requires Sees(i.text, st.pos, '\'')
    ensures st.pos < CharStep(i, st).pos <= |i.text|
  {
    hide CharBody;
  }

  lemma BodyAdvances(i: Input, st: State, body: Body)
    requires st.pos < |i.text| && Top(st.ctx) == Some(Str(body))
    ensures Advances(i, st, BodyStep(i, st, body))
  {
    hide StartsAt, EscapeAt, DedentChunk, DedentPieces, MarginFault, LineStart, AllBlank, TrimBlanks;
    var c := i.text[st.pos];
    if ClosesString(i.text, st.pos, body.kind) {
      CloserFits(i.text, st.pos, body.kind);
    } else if StartsAt(i.text, st.pos, "{{") || StartsAt(i.text, st.pos, "}}") {
      PrefixFits(i.text, st.pos, "{{");
      PrefixFits(i.text, st.pos, "}}");
    }
  }

  lemma PrefixFits(text: string, at: nat, word: string)
    ensures StartsAt(text, at, word) ==> at + |word| <= |text|
  {
  }

  lemma CloserFits(text: string, at: nat, kind: StrKind)
    requires at < |text| && ClosesString(text, at, kind)
    ensures at + CloserLength(kind) <= |text|
  {
  }

  lemma StepAdvances(i: Input, st: State)
    requires st.pos < |i.text|
    ensures Advances(i, st, Step(i, st))
  {
    hide TokenStep, BodyStep, LastEnds, Permits, ElseFollows, RunEnd;
    match Top(st.ctx)
    case Some(Str(body)) => BodyAdvances(i, st, body);
    case Some(Fmt) =>
    case _ =>
      match OpenPlain(st.ctx, st.pos) {
        case Some(span) => UnwindAdvances(Fault(st, "E0102", span.start, span.end));
        case None =>
      }
      TokenAdvances(i, st);
  }

  /** The run of the lexer from `st` to the end of the input. */
  function Scan(i: Input, st: State): (r: State)
    requires st.pos <= |i.text|
    ensures r.pos == |i.text|
    decreases |i.text| - st.pos, |st.ctx|
  {
    if st.pos == |i.text| then st
    else
      StepAdvances(i, st);
      Scan(i, Step(i, st))
  }

  function Lex(i: Input): State {
    Closed(i, Scan(i, Begin(i)))
  }
}
