/** Which texts are numbers, told without the scanner, and that the scanner takes the longest. */
module LexNumbers {
  import opened Wrappers
  import opened LexModel

  // -- numbers --------------------------------------------------------------------------------

  /** Digits and underscores that begin with a digit. */
  predicate IsDigits(s: string) {
    s != "" && '0' <= s[0] <= '9' && forall k :: 0 <= k < |s| ==> '0' <= s[k] <= '9' || s[k] == '_'
  }

  predicate IsFraction(s: string) {
    s == "" || (s[0] == '.' && IsDigits(s[1..]))
  }

  predicate IsExponent(s: string) {
    s == "" || ((s[0] == 'e' || s[0] == 'E')
                && (IsDigits(s[1..]) || (|s| > 1 && (s[1] == '+' || s[1] == '-') && IsDigits(s[2..]))))
  }

  /** Digits, `a` characters of them, then a fraction up to `b`, then an exponent. */
  predicate DecimalParts(s: string, a: nat, b: nat) {
    a <= b <= |s| && IsDigits(s[..a]) && IsFraction(s[a..b]) && IsExponent(s[b..])
  }

  ghost predicate IsDecimalNumber(s: string) {
    exists a, b :: DecimalParts(s, a, b)
  }

  predicate IsLetterOrDigit(c: char) {
    'a' <= c <= 'z' || 'A' <= c <= 'Z' || '0' <= c <= '9'
  }

  predicate IsPrefixed(s: string) {
    && |s| >= 2 && s[0] == '0' && s[1] in "xXoObB"
    && forall k :: 2 <= k < |s| ==> IsLetterOrDigit(s[k]) || s[k] == '_'
  }

  ghost predicate IsNumber(s: string) {
    IsPrefixed(s) || IsDecimalNumber(s)
  }

  /** A point or an exponent, which no based literal has. */
  predicate HasPointOrExponent(s: string) {
    !IsPrefixed(s) && exists k :: 0 <= k < |s| && (s[k] == '.' || s[k] == 'e' || s[k] == 'E')
  }

  /** The digits of the base that the letter after the zero names. */
  function DigitsOf(letter: char): string {
    if letter == 'x' || letter == 'X' then "0123456789abcdefABCDEF"
    else if letter == 'o' || letter == 'O' then "01234567"
    else "01"
  }

  /** A prefix with nothing behind it, or with something that is no digit of its base. */
  predicate IsIllBased(s: string) {
    IsPrefixed(s) && (|s| == 2 || exists k :: 2 <= k < |s| && s[k] != '_' && s[k] !in DigitsOf(s[1]))
  }

  /** No longer text from `start` on is a number. */
  ghost predicate LongestNumber(text: string, start: nat, end: nat)
    requires start <= end <= |text|
  {
    IsNumber(text[start..end]) && forall to :: start <= to <= |text| && IsNumber(text[start..to]) ==> to <= end
  }

  lemma RunIsDigits(text: string, at: nat)
    requires DigitAt(text, at)
    ensures var end := RunEnd(text, at, IsDecimal); at < end && IsDigits(text[at..end])
  {
    assert IsDecimal(text[at]);
  }

  /** Digits end no later than the run. */
  lemma DigitsFit(text: string, at: nat, to: nat)
    requires at <= to <= |text| && IsDigits(text[at..to])
    ensures DigitAt(text, at) && at < to <= RunEnd(text, at, IsDecimal)
  {
    var s := text[at..to];
    assert forall k :: at <= k < to ==> text[k] == s[k - at];
  }

  lemma FractionIsRead(text: string, at: nat)
    requires at <= |text|
    ensures IsFraction(text[at..FractionEnd(text, at)])
    ensures FractionEnd(text, at) > at ==> text[at] == '.'
  {
    if Sees(text, at, '.') && DigitAt(text, at + 1) {
      RunIsDigits(text, at + 1);
      assert text[at..FractionEnd(text, at)][1..] == text[at + 1..FractionEnd(text, at)];
    }
  }

  lemma ExponentIsRead(text: string, at: nat)
    requires at <= |text|
    ensures IsExponent(text[at..ExponentEnd(text, at)])
    ensures ExponentEnd(text, at) > at ==> text[at] == 'e' || text[at] == 'E'
  {
    var end := ExponentEnd(text, at);
    if end > at {
      var s := text[at..end];
      var digits := if Sees(text, at + 1, '+') || Sees(text, at + 1, '-') then at + 2 else at + 1;
      RunIsDigits(text, digits);
      assert s[digits - at..] == text[digits..end];
    }
  }

  lemma FractionFits(text: string, at: nat, to: nat)
    requires at <= to <= |text| && IsFraction(text[at..to])
    ensures to <= FractionEnd(text, at)
    ensures at < to < FractionEnd(text, at) ==> IsDecimal(text[to])
    ensures at == to < FractionEnd(text, at) ==> text[to] == '.'
  {
    if at < to {
      assert text[at..to][0] == text[at] && text[at..to][1..] == text[at + 1..to];
      DigitsFit(text, at + 1, to);
    }
  }

  lemma ExponentFits(text: string, at: nat, to: nat)
    requires at <= to <= |text| && IsExponent(text[at..to])
    ensures to <= ExponentEnd(text, at)
    ensures at < to ==> text[at] == 'e' || text[at] == 'E'
  {
    if at < to {
      var s := text[at..to];
      assert s[0] == text[at];
      if IsDigits(s[1..]) {
        assert s[1..] == text[at + 1..to];
        DigitsFit(text, at + 1, to);
      } else {
        assert s[1] == text[at + 1] && s[2..] == text[at + 2..to];
        DigitsFit(text, at + 2, to);
      }
    }
  }

  function DecimalEnd(text: string, at: nat): (end: nat)
    requires at <= |text|
    ensures at <= end <= |text|
  {
    ExponentEnd(text, FractionEnd(text, RunEnd(text, at, IsDecimal)))
  }

  lemma DecimalIsRead(text: string, at: nat)
    requires DigitAt(text, at)
    ensures IsDecimalNumber(text[at..DecimalEnd(text, at)])
  {
    var whole := RunEnd(text, at, IsDecimal);
    var fraction := FractionEnd(text, whole);
    var end := DecimalEnd(text, at);
    var s := text[at..end];
    hide RunEnd, FractionEnd, ExponentEnd;
    RunIsDigits(text, at);
    FractionIsRead(text, whole);
    ExponentIsRead(text, fraction);
    assert s[..whole - at] == text[at..whole];
    assert s[whole - at..fraction - at] == text[whole..fraction];
    assert s[fraction - at..] == text[fraction..end];
    assert DecimalParts(s, whole - at, fraction - at);
  }

  /** No decimal number from `at` on is longer. */
  lemma DecimalFits(text: string, at: nat, to: nat)
    requires at <= to <= |text| && IsDecimalNumber(text[at..to])
    ensures DigitAt(text, at) && to <= DecimalEnd(text, at)
  {
    var s := text[at..to];
    var a: nat, b: nat :| DecimalParts(s, a, b);
    hide RunEnd, IsFraction, IsExponent, IsDigits, FractionEnd, ExponentEnd;
    CutInThree(text, at, to, a, b);
    DigitsFit(text, at, at + a);
    PartsFit(text, at, at + a, at + b, to);
  }

  lemma InnerSlice(text: string, at: nat, to: nat, a: nat, b: nat)
    requires at <= to <= |text| && a <= b <= to - at
    ensures text[at..to][a..b] == text[at + a..at + b]
  {
    var s := text[at..to];
    assert |s[a..b]| == |text[at + a..at + b]|;
    assert forall k :: 0 <= k < b - a ==> s[a..b][k] == s[a + k] == text[at + a + k] == text[at + a..at + b][k];
  }

  lemma CutInThree(text: string, at: nat, to: nat, a: nat, b: nat)
    requires at <= to <= |text| && a <= b <= to - at
    ensures var s := text[at..to];
            s[..a] == text[at..at + a] && s[a..b] == text[at + a..at + b] && s[b..] == text[at + b..to]
  {
    var s := text[at..to];
    assert s[..a] == text[at..at + a];
    InnerSlice(text, at, to, a, b);
    assert s[b..] == text[at + b..to];
  }

  lemma WholeIsInside(text: string, at: nat)
    requires at <= |text|
    ensures RunEnd(text, at, IsDecimal) <= DecimalEnd(text, at)
  {
  }

  lemma PartsFit(text: string, at: nat, a: nat, b: nat, to: nat)
    requires at < a <= b <= to <= |text| && a <= RunEnd(text, at, IsDecimal)
    requires IsFraction(text[a..b]) && IsExponent(text[b..to])
    ensures to <= DecimalEnd(text, at)
  {
    hide FractionEnd, ExponentEnd, IsFraction, IsExponent;
    var whole := RunEnd(text, at, IsDecimal);
    PartsStart(text, a, b, to);
    if a == whole {
      FractionFits(text, whole, b);
      ExponentFits(text, b, to);
      if b < FractionEnd(text, whole) {
        assert to == b;
      }
    } else {
      assert IsDecimal(text[a]);
      hide DecimalEnd;
      WholeIsInside(text, at);
    }
  }

  lemma PartsStart(text: string, a: nat, b: nat, to: nat)
    requires a <= b <= to <= |text| && IsFraction(text[a..b]) && IsExponent(text[b..to])
    ensures a < b ==> text[a] == '.'
    ensures b < to ==> text[b] == 'e' || text[b] == 'E'
  {
    assert a < b ==> text[a..b][0] == text[a];
    assert b < to ==> text[b..to][0] == text[b];
  }

  lemma PrefixedFits(text: string, at: nat, to: nat)
    requires at <= to <= |text| && IsPrefixed(text[at..to])
    ensures HasPrefix(text, at) && at + 2 <= to <= RunEnd(text, at + 2, IsBased)
  {
    var s := text[at..to];
    assert forall k :: at <= k < to ==> text[k] == s[k - at];
  }

  lemma PrefixedIsRead(text: string, at: nat)
    requires HasPrefix(text, at)
    ensures var end := RunEnd(text, at + 2, IsBased);
            IsPrefixed(text[at..end]) && !IsDecimalNumber(text[at..end])
  {
    var end := RunEnd(text, at + 2, IsBased);
    var s := text[at..end];
    assert s[0] == text[at] && s[1] == text[at + 1];
    if IsDecimalNumber(s) {
      DecimalOfPrefix(text, at, end);
    }
  }

  /** Of a prefixed literal only the zero is decimal. */
  lemma DecimalOfPrefix(text: string, at: nat, to: nat)
    requires HasPrefix(text, at) && at <= to <= |text| && IsDecimalNumber(text[at..to])
    ensures to <= at + 1
  {
    DecimalFits(text, at, to);
    assert !IsDecimal(text[at + 1]);
  }

  /** The scanner of numbers reads the longest number there is. */
  lemma NumberIsLongest(text: string, at: nat)
    requires DigitAt(text, at)
    ensures HasPrefix(text, at) ==> LongestNumber(text, at, RunEnd(text, at + 2, IsBased))
    ensures !HasPrefix(text, at) ==> LongestNumber(text, at, DecimalEnd(text, at))
  {
    hide DecimalEnd, IsDecimalNumber, IsPrefixed, HasPrefix;
    if HasPrefix(text, at) {
      PrefixedIsRead(text, at);
      var end := RunEnd(text, at + 2, IsBased);
      forall to | at <= to <= |text| && IsNumber(text[at..to]) ensures to <= end {
        if IsPrefixed(text[at..to]) {
          PrefixedFits(text, at, to);
        } else {
          DecimalOfPrefix(text, at, to);
        }
      }
    } else {
      DecimalIsRead(text, at);
      forall to | at <= to <= |text| && IsNumber(text[at..to]) ensures to <= DecimalEnd(text, at) {
        if IsPrefixed(text[at..to]) {
          PrefixedFits(text, at, to);
        } else {
          DecimalFits(text, at, to);
        }
      }
    }
  }

  lemma FloatIsTold(text: string, at: nat)
    requires DigitAt(text, at) && !HasPrefix(text, at)
    ensures HasPointOrExponent(text[at..DecimalEnd(text, at)]) <==> DecimalEnd(text, at) != RunEnd(text, at, IsDecimal)
  {
    var whole := RunEnd(text, at, IsDecimal);
    var fraction := FractionEnd(text, whole);
    var end := DecimalEnd(text, at);
    var s := text[at..end];
    assert IsDecimal(text[at]);
    if IsPrefixed(s) {
      PrefixedFits(text, at, end);
    }
    if end != whole {
      FractionIsRead(text, whole);
      ExponentIsRead(text, fraction);
      assert s[whole - at] == text[whole];
    } else {
      forall k | 0 <= k < |s| ensures IsDecimal(s[k]) {
        assert s[k] == text[at + k];
      }
    }
  }

  lemma BaseIsTold(text: string, at: nat, end: nat)
    requires HasPrefix(text, at) && end == RunEnd(text, at + 2, IsBased)
    ensures IsIllBased(text[at..end]) <==> !WellBased(text[at + 2..end], Radix(text[at + 1]).value)
  {
    hide IsDecimalNumber, InRadix;
    PrefixedIsRead(text, at);
    var s, digits, radix := text[at..end], text[at + 2..end], Radix(text[at + 1]).value;
    assert s[1] == text[at + 1];
    forall k | 2 <= k < |s| ensures s[k] == digits[k - 2] && (s[k] in DigitsOf(s[1]) <==> InRadix(s[k], radix)) {
      DigitInBase(s[k], s[1]);
    }
    if !WellBased(digits, radix) && digits != "" {
      var k :| 0 <= k < |digits| && digits[k] != '_' && !InRadix(digits[k], radix);
      assert s[k + 2] == digits[k];
    }
  }

  lemma DigitInBase(c: char, letter: char)
    requires Radix(letter).Some?
    ensures c in DigitsOf(letter) <==> InRadix(c, Radix(letter).value)
  {
  }
}
