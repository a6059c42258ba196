/** What rendering promises: the width in bytes, the value read back, and specs that survive
  being written out and parsed again. */
module FmtLaws {
  import opened Wrappers
  import opened FmtSpec

  // -- widths -----------------------------------------------------------------------------------

  lemma {:induction false} BytesAppend(a: string, b: string)
    ensures ByteLen(a + b) == ByteLen(a) + ByteLen(b)
    decreases |b|
  {
    if b == "" {
      assert a + b == a;
    } else {
      assert (a + b)[..|a + b| - 1] == a + b[..|b| - 1];
      BytesAppend(a, b[..|b| - 1]);
    }
  }

  lemma {:induction false} RepeatBytes(c: char, n: nat)
    ensures ByteLen(Repeat(c, n)) == n * CharBytes(c)
    decreases n
  {
    if n > 0 {
      assert Repeat(c, n)[..n - 1] == Repeat(c, n - 1);
      RepeatBytes(c, n - 1);
    }
  }

  function Wider(a: nat, b: nat): nat {
    if a < b then b else a
  }

  /** What a parsed spec has: a one-byte fill only beside an alignment, never as an alignment
    itself, no alignment beside the zero flag, no width of zero without it, numbers in range. */
  predicate Canonical(spec: Spec) {
    && (spec.fill.Some? ==> spec.align.Some? && CharBytes(spec.fill.value) == 1 && !IsAlign(spec.fill.value))
    && (spec.zero ==> spec.align.None?)
    && (spec.width == Some(0) ==> spec.zero)
    && (spec.width.Some? ==> spec.width.value <= MAX_WIDTH)
    && (spec.precision.Some? ==> spec.precision.value <= MAX_WIDTH)
  }

  lemma PadWidth(core: string, v: FmtValue, spec: Spec)
    requires spec.fill.Some? ==> CharBytes(spec.fill.value) == 1
    ensures ByteLen(Pad(core, v, spec)) == Wider(spec.width.GetOr(0), ByteLen(core))
  {
    hide ByteLen, CharBytes, Repeat;
    var width := spec.width.GetOr(0);
    if width > ByteLen(core) {
      var missing := width - ByteLen(core);
      var fill := spec.fill.GetOr(' ');
      OneByte(fill, missing, spec);
      var sign := SignOf(core);
      BytesAppend(sign, core[|sign|..]);
      assert sign + core[|sign|..] == core;
      BytesAppend(sign, Repeat('0', missing));
      BytesAppend(sign + Repeat('0', missing), core[|sign|..]);
      BytesAppend(Repeat(' ', missing), core);
      BytesAppend(core, Repeat(fill, missing));
      BytesAppend(Repeat(fill, missing), core);
      BytesAppend(Repeat(fill, missing / 2), core);
      BytesAppend(Repeat(fill, missing / 2) + core, Repeat(fill, missing - missing / 2));
    }
  }

  lemma OneByte(fill: char, missing: nat, spec: Spec)
    requires fill == spec.fill.GetOr(' ') && (spec.fill.Some? ==> CharBytes(spec.fill.value) == 1)
    ensures forall n: nat :: ByteLen(Repeat(fill, n)) == n && ByteLen(Repeat('0', n)) == n && ByteLen(Repeat(' ', n)) == n
  {
    forall n: nat ensures ByteLen(Repeat(fill, n)) == n && ByteLen(Repeat('0', n)) == n && ByteLen(Repeat(' ', n)) == n {
      RepeatBytes(fill, n);
      RepeatBytes('0', n);
      RepeatBytes(' ', n);
    }
  }

  /** A rendering is as many bytes as asked for, or as its core when that is wider. */
  lemma RenderingFillsWidth(spec: Spec, v: FmtValue)
    requires Canonical(spec) && Apply(spec, v).Ok?
    ensures ByteLen(Apply(spec, v).value) == Wider(spec.width.GetOr(0), ByteLen(Core(spec, v)))
  {
    PadWidth(Core(spec, v), v, spec);
  }

  /** Without the zero flag the core stands whole among fill, on the side the alignment says;
    an odd fill goes to the right. */
  lemma CoreStandsWhole(spec: Spec, v: FmtValue) returns (left: nat, right: nat)
    requires Apply(spec, v).Ok? && !spec.zero
    ensures var fill, core := spec.fill.GetOr(' '), Core(spec, v);
            && Apply(spec, v).value == Repeat(fill, left) + core + Repeat(fill, right)
            && left + right == Wider(spec.width.GetOr(0), ByteLen(core)) - ByteLen(core)
            && match spec.align.GetOr(DefaultAlign(v))
               case Left => left == 0
               case Right => right == 0
               case Center => left <= right <= left + 1
  {
    var fill, core := spec.fill.GetOr(' '), Core(spec, v);
    var missing := Wider(spec.width.GetOr(0), ByteLen(core)) - ByteLen(core);
    left := match spec.align.GetOr(DefaultAlign(v)) case Left => 0 case Right => missing case Center => missing / 2;
    right := missing - left;
    hide Repeat, ByteLen, Core, DefaultAlign, Validate;
    NoFill(fill, core, missing);
    PadAround(core, v, spec, left, right);
  }

  lemma NoFill(fill: char, core: string, missing: nat)
    ensures Repeat(fill, 0) == "" && Repeat(fill, 0) + core + Repeat(fill, missing) == core + Repeat(fill, missing)
    ensures Repeat(fill, missing) + core + Repeat(fill, 0) == Repeat(fill, missing) + core
  {
  }

  lemma PadAround(core: string, v: FmtValue, spec: Spec, left: nat, right: nat)
    requires !spec.zero && left + right == Wider(spec.width.GetOr(0), ByteLen(core)) - ByteLen(core)
    requires match spec.align.GetOr(DefaultAlign(v))
             case Left => left == 0
             case Right => right == 0
             case Center => left == (left + right) / 2
    ensures Pad(core, v, spec) == Repeat(spec.fill.GetOr(' '), left) + core + Repeat(spec.fill.GetOr(' '), right)
  {
    hide Repeat, ByteLen, DefaultAlign;
    var fill := spec.fill.GetOr(' ');
    NoFill(fill, core, left + right);
    if left + right == 0 {
      assert core + "" == core && "" + core == core;
    }
  }

  // -- integers read back ---------------------------------------------------------------------------

  function HexValue(c: char): nat {
    if IsDigit(c) then c as int - '0' as int
    else if 'a' <= c <= 'f' then c as int - 'a' as int + 10
    else if 'A' <= c <= 'F' then c as int - 'A' as int + 10
    else 0
  }

  function ReadDigits(s: string, base: nat): nat {
    if s == "" then 0 else ReadDigits(s[..|s| - 1], base) * base + HexValue(s[|s| - 1])
  }

  /** Sign, then digits of the base. */
  function ReadInt(s: string, base: nat): int {
    if Starts(s, '-') then -(ReadDigits(s[1..], base) as int)
    else if Starts(s, '+') then ReadDigits(s[1..], base)
    else ReadDigits(s, base)
  }

  lemma DigitCharReads(d: nat, upper: bool)
    requires d < 16
    ensures HexValue(DigitChar(d, upper)) == d && DigitChar(d, upper) != '-' && DigitChar(d, upper) != '+'
  {
  }

  predicate Unsigned(s: string) {
    forall k :: 0 <= k < |s| ==> s[k] != '-' && s[k] != '+'
  }

  lemma ReadSnoc(s: string, c: char, base: nat)
    ensures ReadDigits(s + [c], base) == ReadDigits(s, base) * base + HexValue(c)
  {
    assert (s + [c])[..|s|] == s;
  }

  lemma DivMod(n: nat, base: nat)
    requires base > 0
    ensures n / base * base + n % base == n
  {
  }

  lemma {:induction false} DigitsReadBack(n: nat, base: nat, upper: bool)
    requires 2 <= base <= 16
    ensures ReadDigits(Digits(n, base, upper), base) == n && Unsigned(Digits(n, base, upper))
    decreases n
  {
    hide HexValue, DigitChar, ReadDigits;
    if n < base {
      DigitCharReads(n, upper);
      ReadSnoc("", DigitChar(n, upper), base);
      NothingReads(base);
      assert "" + [DigitChar(n, upper)] == [DigitChar(n, upper)];
    } else {
      var front := Digits(n / base, base, upper);
      DigitsReadBack(n / base, base, upper);
      DigitCharReads(n % base, upper);
      ReadSnoc(front, DigitChar(n % base, upper), base);
      DivMod(n, base);
    }
  }

  lemma NothingReads(base: nat)
    ensures ReadDigits("", base) * base == 0
  {
  }

  lemma {:induction false} LeadingZeros(zeros: nat, s: string, base: nat)
    ensures ReadDigits(Repeat('0', zeros) + s, base) == ReadDigits(s, base)
    decreases |s|, zeros
  {
    var t := Repeat('0', zeros) + s;
    if s == "" {
      if zeros > 0 {
        assert t[..|t| - 1] == Repeat('0', zeros - 1) + "";
        LeadingZeros(zeros - 1, "", base);
      }
    } else {
      assert t[..|t| - 1] == Repeat('0', zeros) + s[..|s| - 1];
      LeadingZeros(zeros, s[..|s| - 1], base);
    }
  }

  lemma IntReadsBack(n: int, spec: Spec)
    ensures ReadInt(RenderInt(n, spec), BaseOf(spec.kind)) == n
    ensures SignOf(RenderInt(n, spec)) == if n < 0 then "-" else if spec.sign then "+" else ""
  {
    hide ReadDigits, Digits;
    var digits := Digits(Magnitude(n), BaseOf(spec.kind), spec.kind == Some(HexUpper));
    var core := RenderInt(n, spec);
    DigitsReadBack(Magnitude(n), BaseOf(spec.kind), spec.kind == Some(HexUpper));
    if n < 0 || spec.sign {
      assert core[1..] == digits;
    } else {
      assert core == digits;
    }
  }

  /** What the zero flag makes of a finite core: zeros between its sign and the rest. */
  lemma ZeroPadded(core: string, v: FmtValue, spec: Spec) returns (zeros: nat)
    requires spec.zero && IsFinite(v)
    ensures var sign, rest := SignOf(core), core[|SignOf(core)|..];
            && Pad(core, v, spec) == sign + (Repeat('0', zeros) + rest)
            && core == sign + rest && Pad(core, v, spec)[|sign|..] == Repeat('0', zeros) + rest
  {
    hide ByteLen, Repeat;
    zeros := Wider(spec.width.GetOr(0), ByteLen(core)) - ByteLen(core);
    var sign, rest := SignOf(core), core[|SignOf(core)|..];
    if zeros == 0 {
      NoFill('0', rest, 0);
      assert Repeat('0', 0) + rest == rest;
    } else {
      assert sign + Repeat('0', zeros) + rest == sign + (Repeat('0', zeros) + rest);
    }
  }

  /** The sign of a text and what follows it settle what it reads as. */
  lemma SignedReads(sign: string, rest: string, base: nat)
    requires sign == "-" || sign == "+" || (sign == "" && !Starts(rest, '-') && !Starts(rest, '+'))
    ensures ReadInt(sign + rest, base) == (if sign == "-" then -(ReadDigits(rest, base) as int) else ReadDigits(rest, base))
  {
    hide ReadDigits;
    assert (sign + rest)[|sign|..] == rest;
    if sign == "" {
      assert sign + rest == rest;
    }
  }

  /** Zeros go after the sign, so a zero-padded integer still reads back in its base. */
  lemma ZeroPaddedIntReadsBack(n: int, spec: Spec)
    requires spec.zero && Apply(spec, Int(n)).Ok?
    ensures ReadInt(Apply(spec, Int(n)).value, BaseOf(spec.kind)) == n
  {
    hide ReadDigits, ReadInt, Pad, Digits, ByteLen, Repeat;
    var core := RenderInt(n, spec);
    var base := BaseOf(spec.kind);
    IntReadsBack(n, spec);
    var zeros := ZeroPadded(core, Int(n), spec);
    var sign := SignOf(core);
    var rest := core[|sign|..];
    LeadingZeros(zeros, rest, base);
    PlainStart(n, spec, zeros);
    SignedReads(sign, rest, base);
    SignedReads(sign, Repeat('0', zeros) + rest, base);
  }

  /** Only the sign of a rendered integer is a sign. */
  lemma PlainStart(n: int, spec: Spec, zeros: nat)
    ensures var core := RenderInt(n, spec);
            var rest := core[|SignOf(core)|..];
            && !Starts(rest, '-') && !Starts(rest, '+')
            && !Starts(Repeat('0', zeros) + rest, '-') && !Starts(Repeat('0', zeros) + rest, '+')
  {
    hide ReadDigits, Digits;
    var digits := Digits(Magnitude(n), BaseOf(spec.kind), spec.kind == Some(HexUpper));
    DigitsReadBack(Magnitude(n), BaseOf(spec.kind), spec.kind == Some(HexUpper));
    IntReadsBack(n, spec);
    var core := RenderInt(n, spec);
    assert core[|SignOf(core)|..] == digits;
    if zeros > 0 {
      assert (Repeat('0', zeros) + digits)[0] == '0';
    } else {
      assert Repeat('0', zeros) + digits == digits;
    }
  }

  // -- floats read back --------------------------------------------------------------------------------

  function Pow10(e: int): real
    decreases if e < 0 then -e else e
  {
    if e == 0 then 1.0 else if e > 0 then 10.0 * Pow10(e - 1) else Pow10(e + 1) / 10.0
  }

  function Find(s: string, p: char -> bool): (k: nat)
    ensures k <= |s|
    ensures forall j :: 0 <= j < k ==> !p(s[j])
    ensures k < |s| ==> p(s[k])
  {
    if s == "" || p(s[0]) then 0 else 1 + Find(s[1..], p)
  }

  predicate IsPoint(c: char) {
    c == '.'
  }

  predicate IsExponentMark(c: char) {
    c == 'e' || c == 'E'
  }

  /** Digits with at most one point among them. */
  function ReadMantissa(s: string): real {
    var k := Find(s, IsPoint);
    if k == |s| then Num(s) as real
    else Num(s[..k] + s[k + 1..]) as real * Pow10(k + 1 - |s|)
  }

  function ReadExponent(s: string): int {
    if Starts(s, '-') then -(Num(s[1..]) as int)
    else if Starts(s, '+') then Num(s[1..])
    else Num(s)
  }

  function ReadUnsigned(s: string): real {
    var k := Find(s, IsExponentMark);
    if k == |s| then ReadMantissa(s) else ReadMantissa(s[..k]) * Pow10(ReadExponent(s[k + 1..]))
  }

  function ReadReal(s: string): real {
    if Starts(s, '-') then 0.0 - ReadUnsigned(s[1..])
    else if Starts(s, '+') then ReadUnsigned(s[1..])
    else ReadUnsigned(s)
  }

  lemma {:induction false} PowUp(e: int)
    ensures Pow10(e + 1) == 10.0 * Pow10(e)
  {
  }

  lemma {:induction false} PowAdds(a: int, b: int)
    ensures Pow10(a + b) == Pow10(a) * Pow10(b)
    decreases if b < 0 then -b else b
  {
    if b != 0 {
      hide Pow10;
      if b > 0 {
        PowAdds(a, b - 1);
        PowUp(a + b - 1);
        PowUp(b - 1);
        Scale(Pow10(a), Pow10(b - 1));
      } else {
        PowAdds(a, b + 1);
        PowUp(a + b);
        PowUp(b);
        Scale(Pow10(a), Pow10(b));
      }
    }
  }

  lemma Scale(x: real, y: real)
    ensures x * (10.0 * y) == 10.0 * (x * y)
  {
  }

  lemma NumSnoc(s: string, c: char)
    ensures Num(s + [c]) == Num(s) * 10 + DigitValue(c)
  {
    assert (s + [c])[..|s|] == s;
  }

  lemma {:induction false} NumAppendsZeros(s: string, zeros: nat)
    ensures Num(s + Repeat('0', zeros)) as real == Num(s) as real * Pow10(zeros)
    decreases zeros
  {
    if zeros == 0 {
      assert s + Repeat('0', zeros) == s;
    } else {
      hide Num, Pow10;
      var front := s + Repeat('0', zeros - 1);
      assert s + Repeat('0', zeros) == front + ['0'];
      NumAppendsZeros(s, zeros - 1);
      NumSnoc(front, '0');
      PowUp(zeros - 1);
      Scale(Num(s) as real, Pow10(zeros - 1));
    }
  }

  lemma {:induction false} NumDropsZeros(zeros: nat, s: string)
    ensures Num(Repeat('0', zeros) + s) == Num(s)
    decreases |s|, zeros
  {
    var t := Repeat('0', zeros) + s;
    if s == "" {
      if zeros > 0 {
        assert t[..|t| - 1] == Repeat('0', zeros - 1) + "";
        NumDropsZeros(zeros - 1, "");
      }
    } else {
      assert t[..|t| - 1] == Repeat('0', zeros) + s[..|s| - 1];
      NumDropsZeros(zeros, s[..|s| - 1]);
    }
  }

  lemma {:induction false} DecimalReadsBack(n: nat)
    ensures Num(Digits(n, 10, false)) == n && AllDigits(Digits(n, 10, false))
    decreases n
  {
    var s := Digits(n, 10, false);
    if n < 10 {
      assert s[..0] == "";
    } else {
      DecimalReadsBack(n / 10);
      assert s[..|s| - 1] == Digits(n / 10, 10, false);
    }
  }

  lemma ExponentReadsBack(e: int)
    ensures ReadExponent(ExponentText(e)) == e
    ensures |ExponentText(e)| >= 3 && AllDigits(ExponentText(e)[1..])
  {
    var digits := Digits(Magnitude(e), 10, false);
    DecimalReadsBack(Magnitude(e));
    var text := ExponentText(e);
    var shown := if |digits| < 2 then "0" + digits else digits;
    assert text[1..] == shown;
    if |digits| < 2 {
      assert Repeat('0', 1) == "0";
      NumDropsZeros(1, digits);
    }
  }

  /** No sign, point or exponent mark among digits. */
  lemma DigitsAreBare(s: string)
    requires AllDigits(s)
    ensures Find(s, IsPoint) == |s| && Find(s, IsExponentMark) == |s| && !Starts(s, '-') && !Starts(s, '+')
    ensures forall k :: 0 <= k < |s| ==> !IsPoint(s[k]) && !IsExponentMark(s[k])
  {
  }

  lemma FoundAt(a: string, b: string, p: char -> bool)
    requires b != "" && p(b[0]) && forall k :: 0 <= k < |a| ==> !p(a[k])
    ensures Find(a + b, p) == |a|
  {
    assert (a + b)[|a|] == b[0];
    assert forall k :: 0 <= k < |a| ==> (a + b)[k] == a[k];
  }

  lemma SplitsAround(a: string, c: char, b: string)
    ensures var s := a + [c] + b; s == a + ([c] + b) && s[..|a|] == a && s[|a| + 1..] == b && |s| == |a| + 1 + |b|
  {
  }

  lemma PointReads(a: string, b: string)
    requires AllDigits(a) && AllDigits(b)
    ensures ReadMantissa(a + ['.'] + b) == Num(a + b) as real * Pow10(-|b|)
  {
    hide Num, Pow10, Find, AllDigits;
    var s := a + ['.'] + b;
    DigitsAreBare(a);
    assert forall k :: 0 <= k < |a| ==> !IsPoint(a[k]);
    SplitsAround(a, '.', b);
    FoundAt(a, ['.'] + b, IsPoint);
    assert Find(s, IsPoint) == |a|;
    assert |a| + 1 - |s| == -|b|;
  }

  lemma PointHasNoMark(a: string, b: string)
    requires AllDigits(a) && AllDigits(b)
    ensures forall k :: 0 <= k < |a + ['.'] + b| ==> !IsExponentMark((a + ['.'] + b)[k])
    ensures Find(a + ['.'] + b, IsExponentMark) == |a + ['.'] + b|
  {
    var s := a + ['.'] + b;
    forall k | 0 <= k < |s| ensures !IsExponentMark(s[k]) {
      assert s[k] == if k < |a| then a[k] else if k == |a| then '.' else b[k - |a| - 1];
    }
  }

  /** Scientific notation multiplies its mantissa by its power of ten. */
  lemma ScientificReads(mantissa: string, mark: char, e: int)
    requires IsExponentMark(mark) && forall k :: 0 <= k < |mantissa| ==> !IsExponentMark(mantissa[k])
    ensures ReadUnsigned(mantissa + [mark] + ExponentText(e)) == ReadMantissa(mantissa) * Pow10(e)
  {
    hide ExponentText, ReadMantissa, ReadExponent, Pow10, Find, IsExponentMark;
    var tail := ExponentText(e);
    SplitsAround(mantissa, mark, tail);
    FoundAt(mantissa, [mark] + tail, IsExponentMark);
    ExponentReadsBack(e);
  }

  function Denoted(digits: string, exponent: int): real {
    Num(digits) as real * Pow10(exponent - |digits| + 1)
  }

  lemma ScientificDenotes(digits: string, exponent: int)
    requires digits != "" && AllDigits(digits) && (exponent < -4 || exponent > 16)
    ensures ReadUnsigned(Layout(digits, exponent)) == Denoted(digits, exponent)
  {
    hide Num, Pow10, ExponentText, ReadUnsigned, ReadMantissa;
    var head, tail := digits[..1], digits[1..];
    var mantissa := if |digits| == 1 then digits else head + ['.'] + tail;
    assert Layout(digits, exponent) == mantissa + ['e'] + ExponentText(exponent);
    if |digits| == 1 {
      DigitsAreBare(digits);
      BareReads(digits);
    } else {
      PointReads(head, tail);
      PointHasNoMark(head, tail);
      assert head + tail == digits;
      PowAdds(-|tail|, exponent);
      Regroup(Num(digits) as real, Pow10(-|tail|), Pow10(exponent));
    }
    ScientificReads(mantissa, 'e', exponent);
  }

  lemma BareReads(digits: string)
    requires AllDigits(digits)
    ensures ReadMantissa(digits) == Num(digits) as real
    ensures forall k :: 0 <= k < |digits| ==> !IsExponentMark(digits[k])
  {
    hide Num;
    DigitsAreBare(digits);
  }

  lemma Regroup(a: real, b: real, c: real)
    ensures (a * b) * c == a * (b * c)
  {
  }

  lemma SmallDenotes(digits: string, exponent: int)
    requires digits != "" && AllDigits(digits) && -4 <= exponent < 0
    ensures ReadUnsigned(Layout(digits, exponent)) == Denoted(digits, exponent)
  {
    hide Num, Pow10, Repeat, ReadMantissa, Find;
    var zeros := -exponent - 1;
    var tail := Repeat('0', zeros) + digits;
    assert Layout(digits, exponent) == "0" + ['.'] + tail;
    assert AllDigits(tail) by { ZerosAreDigits(zeros, digits); }
    PointReads("0", tail);
    PointHasNoMark("0", tail);
    OneMoreZero(zeros, digits);
    NumDropsZeros(zeros + 1, digits);
  }

  lemma ZerosAreDigits(zeros: nat, digits: string)
    requires AllDigits(digits)
    ensures AllDigits(Repeat('0', zeros) + digits)
  {
  }

  lemma OneMoreZero(zeros: nat, digits: string)
    ensures "0" + (Repeat('0', zeros) + digits) == Repeat('0', zeros + 1) + digits
  {
  }

  lemma WholeDenotes(digits: string, exponent: int)
    requires digits != "" && AllDigits(digits) && |digits| - 1 <= exponent <= 16
    ensures ReadUnsigned(Layout(digits, exponent)) == Denoted(digits, exponent)
  {
    hide Num, Pow10;
    var zeros := exponent - |digits| + 1;
    var s := digits + Repeat('0', zeros);
    DigitsAreBare(s);
    NumAppendsZeros(digits, zeros);
  }

  lemma PointedDenotes(digits: string, exponent: int)
    requires AllDigits(digits) && 0 <= exponent < |digits| - 1 && exponent <= 16
    ensures ReadUnsigned(Layout(digits, exponent)) == Denoted(digits, exponent)
  {
    hide Num, Pow10;
    var head, tail := digits[..exponent + 1], digits[exponent + 1..];
    PointReads(head, tail);
    PointHasNoMark(head, tail);
    assert head + tail == digits;
  }

  /** Wherever the point falls, and in scientific notation too, the layout denotes the given
    digits times the given power of ten. */
  lemma LayoutKeepsValue(digits: string, exponent: int)
    requires digits != "" && AllDigits(digits)
    ensures ReadUnsigned(Layout(digits, exponent)) == Denoted(digits, exponent)
  {
    if exponent < -4 || exponent > 16 {
      ScientificDenotes(digits, exponent);
    } else if exponent < 0 {
      SmallDenotes(digits, exponent);
    } else if exponent >= |digits| - 1 {
      WholeDenotes(digits, exponent);
    } else {
      PointedDenotes(digits, exponent);
    }
  }

  /** A layout begins with a digit, so its sign is the only one. */
  lemma LayoutIsUnsigned(digits: string, exponent: int)
    requires digits != "" && AllDigits(digits)
    ensures Layout(digits, exponent) != "" && IsDigit(Layout(digits, exponent)[0])
  {
    assert IsDigit(digits[0]);
  }

  lemma ShortestKeepsValue(x: Float)
    requires x.Finite? && AllDigits(x.digits) && (x.zero || x.digits != "")
    ensures var size := if x.zero then 0.0 else Denoted(x.digits, x.exponent);
            ReadReal(Shortest(x)) == if x.negative then 0.0 - size else size
  {
    hide Layout, ReadUnsigned, Denoted;
    var body := if x.zero || x.digits == "" then "0" else Layout(x.digits, x.exponent);
    if x.zero {
      ZeroReads();
    } else {
      LayoutKeepsValue(x.digits, x.exponent);
      LayoutIsUnsigned(x.digits, x.exponent);
    }
    assert ("-" + body)[1..] == body;
    assert "" + body == body;
  }

  lemma ZeroReads()
    ensures ReadUnsigned("0") == 0.0
  {
    assert "0"[..0] == "";
    DigitsAreBare("0");
  }

  lemma {:induction false} FindSkipsZeros(zeros: nat, s: string, p: char -> bool)
    requires !p('0')
    ensures Find(Repeat('0', zeros) + s, p) == zeros + Find(s, p)
    decreases zeros
  {
    var t := Repeat('0', zeros) + s;
    if zeros == 0 {
      assert t == s;
    } else {
      assert t[1..] == Repeat('0', zeros - 1) + s;
      FindSkipsZeros(zeros - 1, s, p);
    }
  }

  lemma MantissaSkipsZeros(zeros: nat, s: string)
    ensures ReadMantissa(Repeat('0', zeros) + s) == ReadMantissa(s)
  {
    hide Num, Pow10;
    var pad := Repeat('0', zeros);
    FindSkipsZeros(zeros, s, IsPoint);
    var k := Find(s, IsPoint);
    if k == |s| {
      NumDropsZeros(zeros, s);
    } else {
      SplitsAfterZeros(pad, s, k);
      var whole := s[..k] + s[k + 1..];
      assert (pad + s[..k]) + s[k + 1..] == pad + whole;
      NumDropsZeros(zeros, whole);
    }
  }

  lemma SplitsAfterZeros(pad: string, s: string, k: nat)
    requires k < |s|
    ensures (pad + s)[..|pad| + k] == pad + s[..k] && (pad + s)[|pad| + k + 1..] == s[k + 1..]
  {
  }

  lemma UnsignedSkipsZeros(zeros: nat, s: string)
    ensures ReadUnsigned(Repeat('0', zeros) + s) == ReadUnsigned(s)
  {
    hide ReadMantissa, ReadExponent, Pow10, Find;
    FindSkipsZeros(zeros, s, IsExponentMark);
    var k := Find(s, IsExponentMark);
    if k == |s| {
      MantissaSkipsZeros(zeros, s);
    } else {
      SplitsAfterZeros(Repeat('0', zeros), s, k);
      MantissaSkipsZeros(zeros, s[..k]);
    }
  }

  /** Zeros go after the sign of a finite float too, and change nothing it reads as. */
  lemma ZeroPaddedFloatReadsBack(x: Float, spec: Spec)
    requires spec.zero && x.Finite? && Apply(spec, F64(x)).Ok?
    requires var rest := RenderFloat(x, spec)[|SignOf(RenderFloat(x, spec))|..]; !Starts(rest, '-') && !Starts(rest, '+')
    ensures ReadReal(Apply(spec, F64(x)).value) == ReadReal(RenderFloat(x, spec))
  {
    hide ReadUnsigned, Pad, Repeat, RenderFloat;
    var core := RenderFloat(x, spec);
    var sign := SignOf(core);
    var rest := core[|sign|..];
    var zeros := ZeroPadded(core, F64(x), spec);
    UnsignedSkipsZeros(zeros, rest);
    ZerosStartPlainly(zeros, rest);
    SignedReal(sign, rest);
    SignedReal(sign, Repeat('0', zeros) + rest);
  }

  /** A zero-padded float in the default notation denotes its digits times their power of ten. */
  lemma ZeroPaddedShortestKeepsValue(x: Float, spec: Spec)
    requires spec.zero && spec.kind.None? && spec.precision.None? && Apply(spec, F64(x)).Ok?
    requires x.Finite? && AllDigits(x.digits) && (x.zero || x.digits != "")
    ensures var size := if x.zero then 0.0 else Denoted(x.digits, x.exponent);
            ReadReal(Apply(spec, F64(x)).value) == if x.negative then 0.0 - size else size
  {
    var core := RenderFloat(x, spec);
    var sign, rest := ShortestSplits(x, spec);
    assert ReadReal(core) == ReadReal(Shortest(x)) by {
      hide ReadUnsigned;
      SignedReal(sign, rest);
      SignedReal(if x.negative then "-" else "", rest);
    }
    hide ReadReal, RenderFloat, Apply, Denoted, Shortest;
    ZeroPaddedFloatReadsBack(x, spec);
    ShortestKeepsValue(x);
  }

  lemma ShortestSplits(x: Float, spec: Spec) returns (sign: string, rest: string)
    requires spec.kind.None? && spec.precision.None?
    requires x.Finite? && AllDigits(x.digits) && (x.zero || x.digits != "")
    ensures RenderFloat(x, spec) == sign + rest && Shortest(x) == (if x.negative then "-" else "") + rest
    ensures sign == (if x.negative then "-" else if spec.sign then "+" else "")
    ensures rest != "" && IsDigit(rest[0])
    ensures sign == SignOf(RenderFloat(x, spec)) && rest == RenderFloat(x, spec)[|sign|..]
  {
    hide Layout;
    sign := if x.negative then "-" else if spec.sign then "+" else "";
    rest := if x.zero then "0" else Layout(x.digits, x.exponent);
    if !x.zero {
      LayoutIsUnsigned(x.digits, x.exponent);
    }
    assert "" + Shortest(x) == Shortest(x) && "" + rest == rest;
    assert (sign + rest)[|sign|..] == rest;
  }

  lemma ZerosStartPlainly(zeros: nat, rest: string)
    requires !Starts(rest, '-') && !Starts(rest, '+')
    ensures !Starts(Repeat('0', zeros) + rest, '-') && !Starts(Repeat('0', zeros) + rest, '+')
  {
    if zeros > 0 {
      assert (Repeat('0', zeros) + rest)[0] == '0';
    } else {
      assert Repeat('0', zeros) + rest == rest;
    }
  }

  lemma SignedReal(sign: string, rest: string)
    requires sign == "-" || sign == "+" || (sign == "" && !Starts(rest, '-') && !Starts(rest, '+'))
    ensures ReadReal(sign + rest) == (if sign == "-" then 0.0 - ReadUnsigned(rest) else ReadUnsigned(rest))
  {
    hide ReadUnsigned;
    assert (sign + rest)[|sign|..] == rest;
    if sign == "" {
      assert sign + rest == rest;
    }
  }

  // -- truncation -----------------------------------------------------------------------------------------

  /** The byte cap keeps whole characters, and as many as fit. */
  lemma {:induction false} TruncationIsLongest(s: string, cap: nat)
    ensures ByteLen(Truncated(s, cap)) <= cap
    ensures forall k :: 0 <= k <= |s| && ByteLen(s[..k]) <= cap ==> k <= |Truncated(s, cap)|
    decreases |s|
  {
    if ByteLen(s) > cap {
      var front := s[..|s| - 1];
      TruncationIsLongest(front, cap);
      forall k | 0 <= k <= |s| && ByteLen(s[..k]) <= cap ensures k <= |Truncated(s, cap)| {
        assert s[..|s|] == s;
        assert k < |s| ==> front[..k] == s[..k];
      }
    }
  }

  // -- specs written out ------------------------------------------------------------------------------------

  function AlignChar(a: Align): char {
    match a
    case Left => '<'
    case Center => '^'
    case Right => '>'
  }

  function KindChar(k: Kind): char {
    match k
    case Bin => 'b'
    case Oct => 'o'
    case Hex => 'x'
    case HexUpper => 'X'
    case Exp => 'e'
    case ExpUpper => 'E'
    case Fixed => 'f'
  }

  function ShowKind(k: Option<Kind>): string {
    if k.Some? then [KindChar(k.value)] else ""
  }

  function ShowPrecision(p: Option<nat>, rest: string): string {
    if p.Some? then ['.'] + (Digits(p.value, 10, false) + rest) else rest
  }

  function ShowWidth(w: Option<nat>, rest: string): string {
    if w.Some? then Digits(w.value, 10, false) + rest else rest
  }

  function ShowTail(spec: Spec): string {
    ShowWidth(spec.width, ShowPrecision(spec.precision, ShowKind(spec.kind)))
  }

  function ShowFlags(spec: Spec): string {
    var tail := if spec.zero then ['0'] + ShowTail(spec) else ShowTail(spec);
    if spec.sign then ['+'] + tail else tail
  }

  /** The grammar's spelling of a spec, `[[fill]align][+][0][width][.precision][type]`. */
  function Show(spec: Spec): string {
    if spec.align.None? then ShowFlags(spec)
    else if spec.fill.None? then [AlignChar(spec.align.value)] + ShowFlags(spec)
    else [spec.fill.value, AlignChar(spec.align.value)] + ShowFlags(spec)
  }

  predicate NoDigit(s: string) {
    s == "" || !IsDigit(s[0])
  }

  lemma {:induction false} DigitsStop(digits: string, rest: string)
    requires AllDigits(digits) && NoDigit(rest)
    ensures DigitsOf(digits + rest) == digits
  {
    if digits == "" {
      assert digits + rest == rest;
    } else {
      assert (digits + rest)[1..] == digits[1..] + rest;
      DigitsStop(digits[1..], rest);
      assert [digits[0]] + digits[1..] == digits;
    }
  }

  lemma ShownKindParses(k: Option<Kind>, before: nat)
    ensures ParseKind(ShowKind(k), before) == Ok(k)
  {
  }

  lemma ShownPrecisionParses(p: Option<nat>, rest: string)
    requires (p.Some? ==> p.value <= MAX_WIDTH) && NoDigit(rest) && !Starts(rest, '.')
    ensures ParsePrecision(ShowPrecision(p, rest)) == Ok((p, rest))
  {
    if p.Some? {
      var digits := Digits(p.value, 10, false);
      DecimalReadsBack(p.value);
      DigitsStop(digits, rest);
      var s := ShowPrecision(p, rest);
      assert s[1..] == digits + rest;
      assert s[1 + |digits|..] == rest;
    }
  }

  lemma ShownWidthParses(w: Option<nat>, rest: string)
    requires (w.Some? ==> w.value <= MAX_WIDTH) && NoDigit(rest)
    ensures ParseWidth(ShowWidth(w, rest)) == Ok((w, rest))
  {
    if w.Some? {
      var digits := Digits(w.value, 10, false);
      DecimalReadsBack(w.value);
      DigitsStop(digits, rest);
      assert (digits + rest)[|digits|..] == rest;
    }
  }

  lemma {:induction false} NoLeadingZero(n: nat)
    requires n > 0
    ensures Digits(n, 10, false)[0] != '0'
  {
    if n >= 10 {
      NoLeadingZero(n / 10);
    }
  }

  /** How a tail begins: never with a sign, an alignment, or a zero that is not the flag's. */
  lemma TailBegins(spec: Spec)
    requires Canonical(spec)
    ensures var t := ShowTail(spec);
            && !Starts(t, '+') && (t != "" ==> !IsAlign(t[0])) && (!spec.zero ==> !Starts(t, '0'))
  {
    if spec.width.Some? {
      DecimalReadsBack(spec.width.value);
      assert IsDigit(Digits(spec.width.value, 10, false)[0]);
      if spec.width.value > 0 {
        NoLeadingZero(spec.width.value);
      }
    }
  }

  lemma SecondIsNoAlign(spec: Spec)
    requires Canonical(spec)
    ensures var f := ShowFlags(spec);
            (f != "" ==> !IsAlign(f[0])) && (|f| >= 2 ==> !IsAlign(f[1]))
  {
    TailBegins(spec);
    var t := ShowTail(spec);
    TailIsPlain(spec);
    assert t != "" ==> !IsAlign(t[0]);
    assert |t| > 1 ==> !IsAlign(t[1]);
  }

  lemma TailIsPlain(spec: Spec)
    ensures forall k :: 0 <= k < |ShowTail(spec)| ==> !IsAlign(ShowTail(spec)[k])
  {
    if spec.width.Some? {
      DecimalReadsBack(spec.width.value);
      forall k | 0 <= k < |Digits(spec.width.value, 10, false)| ensures !IsAlign(Digits(spec.width.value, 10, false)[k]) {
        assert IsDigit(Digits(spec.width.value, 10, false)[k]);
      }
    }
    if spec.precision.Some? {
      DecimalReadsBack(spec.precision.value);
      forall k | 0 <= k < |Digits(spec.precision.value, 10, false)|
        ensures !IsAlign(Digits(spec.precision.value, 10, false)[k])
      {
        assert IsDigit(Digits(spec.precision.value, 10, false)[k]);
      }
    }
  }

  lemma ShownHeadParses(spec: Spec)
    requires Canonical(spec)
    ensures ParseHead(Show(spec)) == Ok(Head(spec.fill, spec.align, ShowFlags(spec)))
  {
    hide ShowFlags, CharBytes;
    SecondIsNoAlign(spec);
    var s, f := Show(spec), ShowFlags(spec);
    if spec.align.Some? {
      if spec.fill.None? {
        assert s[1..] == f;
      } else {
        assert s[2..] == f;
      }
    }
  }

  lemma ShownTailParses(s: string, spec: Spec, head: Head)
    requires Canonical(spec) && head.fill == spec.fill && head.align == spec.align
    ensures ParseTail(s, head, spec.sign, spec.zero, ShowTail(spec)) == Ok(spec)
  {
    hide ParseWidth, ParsePrecision, ParseKind, ByteLen;
    var kind := ShowKind(spec.kind);
    var precision := ShowPrecision(spec.precision, kind);
    assert NoDigit(kind) && !Starts(kind, '.');
    ShownPrecisionParses(spec.precision, kind);
    ShownWidthParses(spec.width, precision);
    ShownKindParses(spec.kind, if ByteLen(kind) <= ByteLen(s) then ByteLen(s) - ByteLen(kind) else 0);
  }

  lemma ShownParses(spec: Spec)
    requires Canonical(spec)
    ensures Parse(Show(spec)) == Ok(spec)
  {
    hide ParseHead, ParseTail, Show, ShowTail;
    ShownHeadParses(spec);
    TailBegins(spec);
    var f := ShowFlags(spec);
    var t := ShowTail(spec);
    var z := if spec.zero then ['0'] + t else t;
    assert (['+'] + z)[1..] == z && (['0'] + t)[1..] == t;
    ShownTailParses(Show(spec), spec, Head(spec.fill, spec.align, f));
  }

  lemma ParsedIsCanonical(s: string)
    requires Parse(s).Ok?
    ensures Canonical(Parse(s).value)
  {
    hide ByteLen, DigitsOf, Num, KindOf;
    var head := ParseHead(s).value;
    var sign := Starts(head.rest, '+');
    var afterSign := if sign then head.rest[1..] else head.rest;
    if DigitsOf(afterSign) != "" && Num(DigitsOf(afterSign)) == 0 {
      WidthZeroIsFlagged(afterSign);
    }
  }

  /** Digits worth nothing begin with a zero. */
  lemma WidthZeroIsFlagged(s: string)
    requires DigitsOf(s) != "" && Num(DigitsOf(s)) == 0
    ensures Starts(s, '0')
  {
    ZeroDigits(DigitsOf(s));
  }

  lemma {:induction false} ZeroDigits(d: string)
    requires d != "" && AllDigits(d) && Num(d) == 0
    ensures d[0] == '0'
    decreases |d|
  {
    if |d| > 1 {
      ZeroDigits(d[..|d| - 1]);
    } else {
      assert d[..0] == "";
    }
  }

  /** A spec is the meaning of some text exactly when it is canonical, and its own spelling is
    such a text. */
  lemma SpecsAreTheirSpellings(spec: Spec)
    ensures Canonical(spec) <==> exists s: string :: Parse(s) == Ok(spec)
    ensures Canonical(spec) ==> Parse(Show(spec)) == Ok(spec)
  {
    hide Parse, Show, Canonical;
    if Canonical(spec) {
      ShownParses(spec);
    }
    if s: string :| Parse(s) == Ok(spec) {
      ParsedIsCanonical(s);
    }
  }
}
