/** What a spec asks for, value by value: the holes it fits, the numerals of an integer, the
  notation of a float, the side the fill goes to, and how many bytes a character takes. */
module FmtRules {
  import opened Wrappers
  import opened FmtSpec
  import opened FmtLaws

  // -- bytes ----------------------------------------------------------------------------------

  /** How many bits of a character `n` bytes of UTF-8 carry (section 3 of RFC 3629). */
  function Payload(n: nat): nat {
    if n == 1 then 7 else 5 * n + 1
  }

  function PowerOfTwo(n: nat): nat {
    if n == 0 then 1 else 2 * PowerOfTwo(n - 1)
  }

  lemma Powers()
    ensures PowerOfTwo(7) == 0x80 && PowerOfTwo(11) == 0x800 && PowerOfTwo(16) == 0x10000 && PowerOfTwo(21) == 0x200000
  {
    assert PowerOfTwo(4) == 16;
    assert PowerOfTwo(8) == 256;
    assert PowerOfTwo(12) == 4096;
    assert PowerOfTwo(16) == 0x10000;
    assert PowerOfTwo(20) == 0x100000;
  }

  /** A character takes the fewest bytes that carry it. */
  lemma BytesAreFewest(c: char, n: nat)
    requires 1 <= n <= 4
    ensures CharBytes(c) == n
       <==> c as nat < PowerOfTwo(Payload(n)) && (n > 1 ==> PowerOfTwo(Payload(n - 1)) <= c as nat)
  {
    Powers();
    assert Payload(1) == 7 && Payload(2) == 11 && Payload(3) == 16 && Payload(4) == 21;
  }

  // -- holes -----------------------------------------------------------------------------------

  /** A sign and zeros are for numbers, a precision is for texts and floats, a base for integers and
    a notation for floats. */
  predicate FitsHole(spec: Spec, v: FmtValue) {
    && (spec.sign || spec.zero ==> v.Int? || v.F64?)
    && (spec.precision.Some? ==> v.Str? || v.F64?)
    && (spec.kind.Some? ==> if KindChar(spec.kind.value) in "boxX" then v.Int? else v.F64?)
  }

  /** The first thing about a spec that does not fit. */
  ghost predicate FirstMisfit(spec: Spec, v: FmtValue, e: Mismatch) {
    match e
    case SignOn(c) => c == ClassOf(v) && spec.sign && !v.Int? && !v.F64?
    case ZeroOn(c) => c == ClassOf(v) && !spec.sign && spec.zero && !v.Int? && !v.F64?
    case PrecisionOn(c) =>
      && c == ClassOf(v) && spec.precision.Some? && (v.Bool? || v.Int?)
      && (v.Bool? ==> !spec.sign && !spec.zero)
    case KindOn(kind, c) =>
      && c == ClassOf(v) && spec.kind == Some(kind)
      && !FitsHole(Spec(None, None, false, false, None, None, spec.kind), v)
      && FitsHole(spec.(kind := None), v)
  }

  /** A spec is refused if and only if it does not fit the value, and for the first reason. */
  lemma MisfitsAreRefused(spec: Spec, v: FmtValue, e: Mismatch)
    ensures Apply(spec, v).Ok? <==> FitsHole(spec, v)
    ensures Apply(spec, v) == Err(e) <==> FirstMisfit(spec, v, e)
  {
    hide Pad, Core;
  }

  // -- integers ----------------------------------------------------------------------------------

  const LOWER := "0123456789abcdef"
  const UPPER := "0123456789ABCDEF"

  /** The base a type letter names. */
  function LetterBase(letter: Option<char>): nat {
    match letter
    case Some(c) => if c == 'b' then 2 else if c == 'o' then 8 else if c == 'x' || c == 'X' then 16 else 10
    case None => 10
  }

  function LetterOf(spec: Spec): Option<char> {
    match spec.kind
    case Some(k) => Some(KindChar(k))
    case None => None
  }

  /** Digits of the base, with no zero in front, that stand for `n`. */
  ghost predicate IsNumeral(s: string, digits: string, base: nat, n: nat)
    requires 2 <= base <= |digits|
    decreases |s|
  {
    && s != ""
    && s[|s| - 1] == digits[n % base]
    && if |s| == 1 then n < base else n >= base && IsNumeral(s[..|s| - 1], digits, base, n / base)
  }

  lemma {:induction false} DigitsAreNumerals(n: nat, base: nat, upper: bool)
    requires 2 <= base <= 16
    ensures IsNumeral(Digits(n, base, upper), if upper then UPPER else LOWER, base, n)
    decreases n
  {
    var s := Digits(n, base, upper);
    DigitIsThere(n % base, upper);
    if n < base {
      SmallRemainder(n, base);
    } else {
      DigitsAreNumerals(n / base, base, upper);
      assert s[..|s| - 1] == Digits(n / base, base, upper);
    }
  }

  lemma SmallRemainder(n: nat, base: nat)
    requires n < base
    ensures n % base == n
  {
  }

  lemma DigitIsThere(d: nat, upper: bool)
    requires d < 16
    ensures DigitChar(d, upper) == (if upper then UPPER else LOWER)[d]
  {
  }

  /** An integer is a minus sign for a negative number, or a plus sign if asked for, and the numeral
    of its magnitude in the base of the type letter, in upper case for `X` alone. */
  lemma IntegersAreNumerals(n: int, spec: Spec) returns (sign: string, numeral: string)
    ensures Core(spec, Int(n)) == sign + numeral
    ensures sign == if n < 0 then "-" else if spec.sign then "+" else ""
    ensures 2 <= LetterBase(LetterOf(spec)) <= 16
    ensures IsNumeral(numeral, if LetterOf(spec) == Some('X') then UPPER else LOWER, LetterBase(LetterOf(spec)),
                      if n < 0 then -n else n)
  {
    sign := if n < 0 then "-" else if spec.sign then "+" else "";
    numeral := Digits(Magnitude(n), BaseOf(spec.kind), spec.kind == Some(HexUpper));
    DigitsAreNumerals(Magnitude(n), BaseOf(spec.kind), spec.kind == Some(HexUpper));
  }

  // -- the other values ----------------------------------------------------------------------------

  /** Truth values are words. */
  lemma TruthIsAWord(spec: Spec)
    ensures Core(spec, FmtValue.Bool(true)) == "true" && Core(spec, FmtValue.Bool(false)) == "false"
  {
  }

  /** A power of ten behind its mark: a sign, at least two digits, and the exponent they read as. */
  ghost predicate IsExponentText(s: string, e: int) {
    && |s| >= 3 && (s[0] == '+' || s[0] == '-') && AllDigits(s[1..])
    && e == if s[0] == '-' then -(Num(s[1..]) as int) else Num(s[1..]) as int
  }

  /** A finite float is written as the type letter says: `f`, or a precision alone, as decimal places,
    six if none are given; `e` and `E` as a mantissa and a power of ten behind that letter; and
    else as its shortest digits.  A plus sign is asked for, and no negative number has one. */
  lemma FloatsAreWritten(x: Float, spec: Spec)
    requires x.Finite?
    ensures var core, plus := Core(spec, F64(x)), if spec.sign && !x.negative then "+" else "";
            match LetterOf(spec)
            case Some('f') => core == plus + x.fixed(spec.precision.GetOr(6))
            case Some('e') => IsScientific(core, plus, x, spec.precision.GetOr(6), 'e')
            case Some('E') => IsScientific(core, plus, x, spec.precision.GetOr(6), 'E')
            case None => core == plus + if spec.precision.Some? then x.fixed(spec.precision.value) else Shortest(x)
            case _ => true
  {
    hide Layout;
    if spec.kind == Some(Exp) || spec.kind == Some(ExpUpper) {
      var mark := if spec.kind == Some(Exp) then 'e' else 'E';
      var (mantissa, e) := x.scientific(spec.precision.GetOr(6));
      var plus := if spec.sign && !x.negative then "+" else "";
      ExponentIsText(e);
      assert Core(spec, F64(x)) == plus + (mantissa + [mark] + ExponentText(e));
      assert plus + (mantissa + [mark] + ExponentText(e)) == plus + mantissa + [mark] + ExponentText(e);
    }
  }

  ghost predicate IsScientific(core: string, plus: string, x: Float, precision: nat, mark: char)
    requires x.Finite?
  {
    exists power :: IsExponentText(power, x.scientific(precision).1)
                    && core == plus + x.scientific(precision).0 + [mark] + power
  }

  lemma ExponentIsText(e: int)
    ensures IsExponentText(ExponentText(e), e)
  {
    ExponentReadsBack(e);
  }

  /** What is no number says so, and only infinity has a sign. */
  lemma OddFloatsAreWords(spec: Spec, negative: bool)
    ensures Core(spec, F64(Nan)) == "nan"
    ensures Core(spec, F64(Infinite(negative))) == if negative then "-inf" else if spec.sign then "+inf" else "inf"
  {
  }

  // -- sides ---------------------------------------------------------------------------------------

  /** Where no alignment is given a number stands to the right of its fill, anything else to the
    left of it. */
  lemma NumbersStandRight(spec: Spec, v: FmtValue) returns (missing: nat)
    requires Apply(spec, v).Ok? && !spec.zero && spec.align.None?
    ensures var fill, core := spec.fill.GetOr(' '), Core(spec, v);
            && missing == Wider(spec.width.GetOr(0), ByteLen(core)) - ByteLen(core)
            && Apply(spec, v).value
               == if v.Int? || v.F64? then Repeat(fill, missing) + core else core + Repeat(fill, missing)
  {
    hide Core, Repeat, ByteLen, Validate;
    var left, right := CoreStandsWhole(spec, v);
    missing := left + right;
    NoFill(spec.fill.GetOr(' '), Core(spec, v), missing);
  }

  /** What is no finite number is filled with blanks where zeros are asked for. */
  lemma WordsTakeNoZeros(spec: Spec, x: Float) returns (missing: nat)
    requires Apply(spec, F64(x)).Ok? && spec.zero && !x.Finite?
    ensures var core := Core(spec, F64(x));
            && missing == Wider(spec.width.GetOr(0), ByteLen(core)) - ByteLen(core)
            && Apply(spec, F64(x)).value == Repeat(' ', missing) + core
  {
    hide Core, Repeat, ByteLen, Validate;
    var core := Core(spec, F64(x));
    missing := Wider(spec.width.GetOr(0), ByteLen(core)) - ByteLen(core);
    NoFill(' ', core, 0);
  }
}
