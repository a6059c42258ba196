/** Format specs: parsing them, checking them against a hole, and rendering a value.

  Widths and the string precision count UTF-8 bytes.  Shortest digits, and the digits of
  the fixed and exponent notations, are given with the float they belong to. */
module FmtSpec {
  import opened Wrappers

  datatype Align = Left | Center | Right

  datatype Kind = Bin | Oct | Hex | HexUpper | Exp | ExpUpper | Fixed

  datatype Spec = Spec(fill: Option<char>, align: Option<Align>, sign: bool, zero: bool,
                       width: Option<nat>, precision: Option<nat>, kind: Option<Kind>)

  datatype SpecError =
    | Unexpected(at: nat, ch: char)
    | ZeroWithAlign
    | MissingPrecision
    | MultiByteFill(fill: char)
    | AlignAsFill(fill: char)
    | TooWide(what: string)

  datatype HoleClass = StrHole | BoolHole | IntHole | FloatHole

  datatype Mismatch =
    | SignOn(class_: HoleClass)
    | ZeroOn(class_: HoleClass)
    | PrecisionOn(class_: HoleClass)
    | KindOn(kind: Kind, class_: HoleClass)

  const DEFAULT_SPEC := Spec(None, None, false, false, None, None, None)
  const MAX_WIDTH := 65535

  // -- bytes --------------------------------------------------------------------------------

  function CharBytes(c: char): (n: nat)
    ensures 1 <= n <= 4
  {
    if c as int < 0x80 then 1 else if c as int < 0x800 then 2 else if c as int < 0x10000 then 3 else 4
  }

  function ByteLen(s: string): (n: nat)
    ensures n >= |s|
  {
    if s == "" then 0 else ByteLen(s[..|s| - 1]) + CharBytes(s[|s| - 1])
  }

  // -- parsing ------------------------------------------------------------------------------

  predicate IsDigit(c: char) {
    '0' <= c <= '9'
  }

  predicate IsAlign(c: char) {
    c == '<' || c == '^' || c == '>'
  }

  function ToAlign(c: char): Align {
    if c == '<' then Left else if c == '^' then Center else Right
  }

  predicate AllDigits(s: string) {
    forall k :: 0 <= k < |s| ==> IsDigit(s[k])
  }

  function DigitValue(c: char): nat {
    if IsDigit(c) then c as int - '0' as int else 0
  }

  /** The number a digit string spells. */
  function Num(s: string): nat {
    if s == "" then 0 else Num(s[..|s| - 1]) * 10 + DigitValue(s[|s| - 1])
  }

  function DigitsOf(s: string): (d: string)
    ensures d <= s && AllDigits(d)
    ensures |d| < |s| ==> !IsDigit(s[|d|])
  {
    if s != "" && IsDigit(s[0]) then [s[0]] + DigitsOf(s[1..]) else ""
  }

  datatype Head = Head(fill: Option<char>, align: Option<Align>, rest: string)

  /** The optional fill and alignment. */
  function ParseHead(s: string): Result<Head, SpecError> {
    if |s| >= 2 && IsAlign(s[1]) then
      if IsAlign(s[0]) then Err(AlignAsFill(s[0]))
      else if CharBytes(s[0]) != 1 then Err(MultiByteFill(s[0]))
      else Ok(Head(Some(s[0]), Some(ToAlign(s[1])), s[2..]))
    else if s != "" && IsAlign(s[0]) then Ok(Head(None, Some(ToAlign(s[0])), s[1..]))
    else Ok(Head(None, None, s))
  }

  predicate Starts(s: string, c: char) {
    s != "" && s[0] == c
  }

  function Bounded(digits: string, what: string): Result<nat, SpecError> {
    if Num(digits) <= MAX_WIDTH then Ok(Num(digits)) else Err(TooWide(what))
  }

  function ParseWidth(s: string): Result<(Option<nat>, string), SpecError> {
    var digits := DigitsOf(s);
    if digits == "" then Ok((None, s))
    else
      match Bounded(digits, "width")
      case Ok(n) => Ok((Some(n), s[|digits|..]))
      case Err(e) => Err(e)
  }

  function ParsePrecision(s: string): Result<(Option<nat>, string), SpecError> {
    if !Starts(s, '.') then Ok((None, s))
    else
      var digits := DigitsOf(s[1..]);
      if digits == "" then Err(MissingPrecision)
      else
        match Bounded(digits, "precision")
        case Ok(n) => Ok((Some(n), s[1 + |digits|..]))
        case Err(e) => Err(e)
  }

  function KindOf(c: char): Option<Kind> {
    match c
    case 'b' => Some(Bin)
    case 'o' => Some(Oct)
    case 'x' => Some(Hex)
    case 'X' => Some(HexUpper)
    case 'e' => Some(Exp)
    case 'E' => Some(ExpUpper)
    case 'f' => Some(Fixed)
    case _ => None
  }

  /** `before` is how many bytes of the spec precede `s`. */
  function ParseKind(s: string, before: nat): Result<Option<Kind>, SpecError> {
    if s == "" then Ok(None)
    else if KindOf(s[0]).None? then Err(Unexpected(before, s[0]))
    else if |s| > 1 then Err(Unexpected(before + 1, s[1]))
    else Ok(KindOf(s[0]))
  }

  function ParseTail(s: string, head: Head, sign: bool, zero: bool, rest: string): Result<Spec, SpecError>
  {
    match ParseWidth(rest)
    case Err(e) => Err(e)
    case Ok((width, afterWidth)) =>
      match ParsePrecision(afterWidth)
      case Err(e) => Err(e)
      case Ok((precision, afterPrecision)) =>
        match ParseKind(afterPrecision, if ByteLen(afterPrecision) <= ByteLen(s)
                                        then ByteLen(s) - ByteLen(afterPrecision) else 0)
        case Err(e) => Err(e)
        case Ok(kind) => Ok(Spec(head.fill, head.align, sign, zero, width, precision, kind))
  }

  function Parse(s: string): Result<Spec, SpecError> {
    match ParseHead(s)
    case Err(e) => Err(e)
    case Ok(head) =>
      var sign := Starts(head.rest, '+');
      var afterSign := if sign then head.rest[1..] else head.rest;
      var zero := Starts(afterSign, '0');
      if zero && head.align.Some? then Err(ZeroWithAlign)
      else ParseTail(s, head, sign, zero, if zero then afterSign[1..] else afterSign)
  }

  // -- checking -------------------------------------------------------------------------------

  predicate IsNumeric(c: HoleClass) {
    c == IntHole || c == FloatHole
  }

  predicate IsBase(k: Kind) {
    k == Bin || k == Oct || k == Hex || k == HexUpper
  }

  /** Why the spec does not fit the hole, if it does not. */
  function Validate(spec: Spec, c: HoleClass): Option<Mismatch> {
    if spec.sign && !IsNumeric(c) then Some(SignOn(c))
    else if spec.zero && !IsNumeric(c) then Some(ZeroOn(c))
    else if spec.precision.Some? && c != StrHole && c != FloatHole then Some(PrecisionOn(c))
    else if spec.kind.Some? && c != (if IsBase(spec.kind.value) then IntHole else FloatHole)
      then Some(KindOn(spec.kind.value, c))
    else None
  }

  // -- rendering --------------------------------------------------------------------------------

  /** A float: its shortest digits and the decimal exponent of the first, and what the fixed and
    exponent notations print at a precision (the mantissa and its exponent). */
  datatype Float =
    | Nan
    | Infinite(negative: bool)
    | Finite(negative: bool, zero: bool, digits: string, exponent: int,
             fixed: nat -> string, scientific: nat -> (string, int))

  datatype FmtValue = Str(text: string) | Bool(truth: bool) | Int(n: int) | F64(x: Float)

  function ClassOf(v: FmtValue): HoleClass {
    match v
    case Str(_) => StrHole
    case Bool(_) => BoolHole
    case Int(_) => IntHole
    case F64(_) => FloatHole
  }

  function DigitChar(d: nat, upper: bool): char
    requires d < 16
  {
    if d < 10 then ('0' as int + d) as char
    else if upper then ('A' as int + (d - 10)) as char
    else ('a' as int + (d - 10)) as char
  }

  function Digits(n: nat, base: nat, upper: bool): (s: string)
    requires 2 <= base <= 16
    ensures s != ""
  {
    if n < base then [DigitChar(n, upper)] else Digits(n / base, base, upper) + [DigitChar(n % base, upper)]
  }

  function BaseOf(kind: Option<Kind>): (b: nat)
    ensures 2 <= b <= 16
  {
    match kind
    case Some(Bin) => 2
    case Some(Oct) => 8
    case Some(Hex) => 16
    case Some(HexUpper) => 16
    case _ => 10
  }

  function Magnitude(n: int): nat {
    if n < 0 then -n else n
  }

  function RenderInt(n: int, spec: Spec): string {
    (if n < 0 then "-" else if spec.sign then "+" else "")
    + Digits(Magnitude(n), BaseOf(spec.kind), spec.kind == Some(HexUpper))
  }

  function Repeat(c: char, n: nat): (s: string)
    ensures |s| == n && forall k :: 0 <= k < n ==> s[k] == c
  {
    seq(n, k requires 0 <= k < n => c)
  }

  /** An exponent: signed, and at least two digits. */
  function ExponentText(e: int): string {
    var digits := Digits(Magnitude(e), 10, false);
    (if e < 0 then "-" else "+") + (if |digits| < 2 then "0" + digits else digits)
  }

  /** The layout around the point, for nonempty `digits` whose first stands at `10^exponent`. */
  function Layout(digits: string, exponent: int): string
    requires digits != ""
  {
    var count := |digits|;
    if exponent < -4 || exponent > 16 then
      (if count == 1 then digits else digits[..1] + ['.'] + digits[1..]) + "e" + ExponentText(exponent)
    else if exponent < 0 then "0" + ['.'] + (Repeat('0', -exponent - 1) + digits)
    else if exponent >= count - 1 then digits + Repeat('0', exponent - count + 1)
    else digits[..exponent + 1] + ['.'] + digits[exponent + 1..]
  }

  function Shortest(x: Float): string {
    match x
    case Nan => "nan"
    case Infinite(negative) => if negative then "-inf" else "inf"
    case Finite(negative, zero, digits, exponent, _, _) =>
      (if negative then "-" else "") + if zero || digits == "" then "0" else Layout(digits, exponent)
  }

  function Scientific(x: Float, precision: nat, upper: bool): string
    requires x.Finite?
  {
    var (mantissa, exponent) := x.scientific(precision);
    mantissa + (if upper then "E" else "e") + ExponentText(exponent)
  }

  function RenderFinite(x: Float, spec: Spec): string
    requires x.Finite?
  {
    match spec.kind
    case None => if spec.precision.Some? then x.fixed(spec.precision.value) else Shortest(x)
    case Some(Fixed) => x.fixed(spec.precision.GetOr(6))
    case Some(Exp) => Scientific(x, spec.precision.GetOr(6), false)
    case Some(ExpUpper) => Scientific(x, spec.precision.GetOr(6), true)
    case _ => Shortest(x)
  }

  function RenderFloat(x: Float, spec: Spec): string {
    match x
    case Nan => "nan"
    case Infinite(negative) => if negative then "-inf" else if spec.sign then "+inf" else "inf"
    case Finite(negative, _, _, _, _, _) =>
      (if spec.sign && !negative then "+" else "") + RenderFinite(x, spec)
  }

  /** The longest prefix of at most `cap` bytes. */
  function Truncated(s: string, cap: nat): (r: string)
    ensures r <= s
  {
    if ByteLen(s) <= cap then s else Truncated(s[..|s| - 1], cap)
  }

  function Core(spec: Spec, v: FmtValue): string {
    match v
    case Str(s) => if spec.precision.Some? then Truncated(s, spec.precision.value) else s
    case Bool(b) => if b then "true" else "false"
    case Int(n) => RenderInt(n, spec)
    case F64(x) => RenderFloat(x, spec)
  }

  function SignOf(core: string): (s: string)
    ensures s <= core
  {
    if Starts(core, '-') || Starts(core, '+') then core[..1] else ""
  }

  predicate IsFinite(v: FmtValue) {
    v.F64? ==> v.x.Finite?
  }

  function DefaultAlign(v: FmtValue): Align {
    if IsNumeric(ClassOf(v)) then Right else Left
  }

  function Pad(core: string, v: FmtValue, spec: Spec): string {
    var width := spec.width.GetOr(0);
    if width <= ByteLen(core) then core
    else
      var missing := width - ByteLen(core);
      if spec.zero then
        if IsFinite(v) then SignOf(core) + Repeat('0', missing) + core[|SignOf(core)|..]
        else Repeat(' ', missing) + core
      else
        var fill := spec.fill.GetOr(' ');
        match spec.align.GetOr(DefaultAlign(v))
        case Left => core + Repeat(fill, missing)
        case Right => Repeat(fill, missing) + core
        case Center => Repeat(fill, missing / 2) + core + Repeat(fill, missing - missing / 2)
  }

  function Apply(spec: Spec, v: FmtValue): Result<string, Mismatch> {
    match Validate(spec, ClassOf(v))
    case Some(mismatch) => Err(mismatch)
    case None => Ok(Pad(Core(spec, v), v, spec))
  }
}
