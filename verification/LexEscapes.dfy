/** What escapes and character literals spell, told without the scanner. */
module LexEscapes {
  import opened Wrappers
  import opened LexModel
  import opened LexNumbers

  // -- escapes --------------------------------------------------------------------------------

  const LOWER := "0123456789abcdef"
  const UPPER := "0123456789ABCDEF"

  /** `c` is the hexadecimal digit for `v`. */
  predicate IsDigitFor(c: char, v: nat) {
    v < 16 && (LOWER[v] == c || UPPER[v] == c)
  }

  ghost predicate IsHexDigit(c: char) {
    exists v: nat :: IsDigitFor(c, v)
  }

  /** `digits` stand for `n`, the most significant first. */
  ghost predicate StandsFor(digits: string, n: nat)
    decreases |digits|
  {
    if digits == "" then n == 0
    else IsDigitFor(digits[|digits| - 1], n % 16) && StandsFor(digits[..|digits| - 1], n / 16)
  }

  /** What follows the backslash of an escape of one letter. */
  predicate SpellsShortly(s: string, c: char, literal: bool) {
    || (s == "n" && c == '\n') || (s == "t" && c == '\t') || (s == "r" && c == '\r') || (s == "0" && c == '\0')
    || (s == "\\" && c == '\\') || (s == "\"" && c == '"') || (literal && s == "'" && c == '\'')
  }

  /** `s`, after a backslash, spells `c`: by a letter, by two hexadecimal digits, or by one to six of
    them in braces; an apostrophe is escaped in a character literal alone. */
  ghost predicate SpellsEscape(s: string, c: char, literal: bool) {
    || SpellsShortly(s, c, literal)
    || (|s| == 3 && s[0] == 'x' && StandsFor(s[1..], c as nat))
    || (4 <= |s| <= 9 && s[0] == 'u' && s[1] == '{' && s[|s| - 1] == '}' && StandsFor(s[2..|s| - 1], c as nat))
  }

  lemma DigitStands(c: char, v: nat)
    ensures IsDigitFor(c, v) <==> HexDigit(c) == Some(v)
  {
    if IsDigit(c) {
      assert LOWER[c as int - '0' as int] == c;
    } else if 'a' <= c <= 'f' {
      assert LOWER[c as int - 'a' as int + 10] == c;
    } else if 'A' <= c <= 'F' {
      assert UPPER[c as int - 'A' as int + 10] == c;
    }
  }

  predicate AllHex(digits: string) {
    forall k :: 0 <= k < |digits| ==> IsHex(digits[k])
  }

  lemma {:induction false} NumeralStands(digits: string, n: nat)
    ensures StandsFor(digits, n) <==> AllHex(digits) && HexValue(digits) == n
    decreases |digits|
  {
    hide IsDigitFor, HexDigit;
    if digits != "" {
      var front, last := digits[..|digits| - 1], digits[|digits| - 1];
      assert digits == front + [last];
      NumeralStands(front, n / 16);
      DigitStands(last, n % 16);
      if IsHex(last) {
        HexIsSmall(last);
      }
      if AllHex(digits) {
        assert AllHex(front);
        assert HexValue(digits) == HexValue(front) * 16 + HexDigit(last).value;
      } else if AllHex(front) {
        assert !IsHex(last);
      }
    }
  }

  lemma HexIsSmall(c: char)
    requires IsHex(c)
    ensures HexDigit(c).value < 16
  {
  }

  lemma ShortIsRead(text: string, at: nat, end: nat, c: char, literal: bool)
    requires at < |text| && text[at] != 'x' && text[at] != 'u'
    ensures EscapeAt(text, at, literal) == Escape(end, Ok(c))
       <==> at < end <= |text| && SpellsShortly(text[at..end], c, literal)
  {
    assert text[at..at + 1] == [text[at]];
    if at < end <= |text| {
      assert text[at..end][0] == text[at];
    }
  }

  lemma HexIsRead(text: string, at: nat, end: nat, c: char)
    requires at < |text| && text[at] == 'x'
    ensures HexEscape(text, at + 1) == Escape(end, Ok(c))
       <==> end == at + 3 <= |text| && StandsFor(text[at + 1..end], c as nat)
  {
    hide HexDigit, StandsFor, IsDigitFor;
    if at + 3 <= |text| {
      var s := text[at + 1..at + 3];
      assert s[0] == text[at + 1] && s[1] == text[at + 2];
      NumeralStands(s, c as nat);
      TwoDigits(s);
      if AllHex(s) {
        HexIsSmall(s[0]);
        HexIsSmall(s[1]);
      }
    }
  }

  lemma TwoDigits(s: string)
    requires |s| == 2
    ensures AllHex(s) <==> IsHex(s[0]) && IsHex(s[1])
    ensures AllHex(s) ==> HexValue(s) == HexDigit(s[0]).value * 16 + HexDigit(s[1]).value
  {
    hide HexDigit;
    if AllHex(s) {
      assert s[..1] == [s[0]] && s[..1][..0] == "";
      assert HexValue("") == 0;
      assert HexValue([s[0]]) == HexDigit(s[0]).value;
    }
  }

  lemma HexRun(text: string, at: nat, end: nat)
    requires at <= end < |text| && AllHex(text[at..end]) && !IsHex(text[end])
    ensures RunEnd(text, at, IsHex) == end
  {
    hide HexDigit;
    var s := text[at..end];
    assert forall k :: at <= k < end ==> text[k] == s[k - at];
  }

  lemma BracedIsRead(text: string, at: nat, end: nat, c: char)
    requires at < |text| && text[at] == 'u'
    ensures UnicodeEscape(text, at + 1) == Escape(end, Ok(c))
       <==> at + 4 <= end <= |text| && end <= at + 9 && text[at + 1] == '{' && text[end - 1] == '}'
            && StandsFor(text[at + 2..end - 1], c as nat)
  {
    hide HexDigit, StandsFor, IsDigitFor;
    if Sees(text, at + 1, '{') {
      var run := RunEnd(text, at + 2, IsHex);
      NumeralStands(text[at + 2..run], c as nat);
      RunIsHex(text, at + 2);
      if at + 4 <= end <= |text| && text[end - 1] == '}' {
        NumeralStands(text[at + 2..end - 1], c as nat);
        if AllHex(text[at + 2..end - 1]) {
          BraceIsNoDigit();
          HexRun(text, at + 2, end - 1);
        }
      }
    }
  }

  lemma RunIsHex(text: string, at: nat)
    requires at <= |text|
    ensures AllHex(text[at..RunEnd(text, at, IsHex)])
  {
    hide HexDigit;
  }

  lemma BraceIsNoDigit()
    ensures !IsHex('}')
  {
  }

  /** The scanner of escapes reads `c` up to `end` exactly where the text up to `end` spells `c`. */
  lemma EscapesAreSpelt(text: string, at: nat, end: nat, c: char, literal: bool)
    requires at < |text|
    ensures EscapeAt(text, at, literal) == Escape(end, Ok(c))
       <==> at < end <= |text| && SpellsEscape(text[at..end], c, literal)
  {
    hide HexEscape, UnicodeEscape, StandsFor, SimpleEscape, RunEnd;
    if at < end <= |text| {
      var s := text[at..end];
      assert s[0] == text[at];
      if |s| >= 3 {
        assert s[1] == text[at + 1] && s[|s| - 1] == text[end - 1];
        assert s[1..] == s[1..|s|];
        InnerSlice(text, at, end, 1, |s|);
        InnerSlice(text, at, end, 2, |s| - 1);
      }
    }
    if text[at] == 'x' {
      HexIsRead(text, at, end, c);
    } else if text[at] == 'u' {
      BracedIsRead(text, at, end, c);
    } else {
      ShortIsRead(text, at, end, c, literal);
    }
  }

  // -- character literals -----------------------------------------------------------------------

  /** `s` is an apostrophe, one character or one escape for it, and an apostrophe. */
  ghost predicate SpellsChar(s: string, c: char) {
    && |s| >= 3 && s[0] == '\'' && s[|s| - 1] == '\''
    && ((|s| == 3 && s[1] == c && c != '\'' && c != '\\' && c != '\n')
        || (|s| > 3 && s[1] == '\\' && SpellsEscape(s[2..|s| - 1], c, true)))
  }

  /** Reading on never forgets. */
  lemma {:induction false} BodyGoesOn(text: string, at: nat, g: Glyphs)
    requires at <= |text|
    ensures var (end, read) := CharBody(text, at, g);
            read.Some? ==> && read.value.count >= g.count && (g.bad.Some? ==> read.value.bad.Some?)
                           && (read.value.count == g.count ==>
                                 read.value == g && end == at + 1 <= |text| && text[at] == '\'')
    decreases |text| - at
  {
    hide EscapeAt;
    if at < |text| && text[at] != '\n' && text[at] != '\'' {
      if text[at] != '\\' {
        BodyGoesOn(text, at + 1, Seen(g, text[at]));
      } else if at + 1 == |text| {
        BodyGoesOn(text, at + 1, Spoiled(g, Malformed, Span(at, at + 1)));
      } else {
        var e := EscapeAt(text, at + 1, true);
        BodyGoesOn(text, e.end, AfterEscape(g, at, e));
      }
    }
  }

  /** The scanner of character literals read one scalar, without a fault. */
  predicate ReadsOne(text: string, at: nat, end: nat, c: char)
    requires at < |text|
  {
    CharBody(text, at + 1, Glyphs(0, None, None)) == (end, Some(Glyphs(1, Some(c), None)))
  }

  lemma OneIsSpelt(text: string, at: nat, end: nat, c: char)
    requires at < |text| && text[at] == '\'' && ReadsOne(text, at, end, c)
    ensures at + 3 <= end <= |text| && SpellsChar(text[at..end], c)
  {
    hide EscapeAt, SpellsEscape;
    var none := Glyphs(0, None, None);
    var next := at + 1;
    if text[next] != '\\' {
      BodyGoesOn(text, next + 1, Seen(none, text[next]));
    } else {
      BodyGoesOn(text, next + 1, Spoiled(none, Malformed, Span(next, next + 1)));
      if next + 1 < |text| {
        var e := EscapeAt(text, next + 1, true);
        BodyGoesOn(text, e.end, AfterEscape(none, next, e));
        EscapesAreSpelt(text, next + 1, e.end, c, true);
        InnerSlice(text, at, end, 2, end - at - 1);
      }
    }
  }

  lemma SpeltIsOne(text: string, at: nat, end: nat, c: char)
    requires at + 3 <= end <= |text| && SpellsChar(text[at..end], c)
    ensures text[at] == '\'' && ReadsOne(text, at, end, c)
  {
    hide EscapeAt, SpellsEscape;
    var s := text[at..end];
    assert s[0] == text[at] && s[1] == text[at + 1] && s[|s| - 1] == text[end - 1];
    if |s| > 3 {
      InnerSlice(text, at, end, 2, |s| - 1);
      EscapesAreSpelt(text, at + 2, end - 1, c, true);
      assert CharBody(text, end - 1, Seen(Glyphs(0, None, None), c)) == (end, Some(Glyphs(1, Some(c), None)));
    } else {
      assert CharBody(text, at + 2, Seen(Glyphs(0, None, None), c)) == (end, Some(Glyphs(1, Some(c), None)));
    }
  }

  /** The scanner reads a character literal exactly where one is spelt. */
  lemma CharsAreSpelt(text: string, at: nat, end: nat, c: char)
    requires at < |text| && text[at] == '\''
    ensures ReadsOne(text, at, end, c) <==> at + 3 <= end <= |text| && SpellsChar(text[at..end], c)
  {
    hide ReadsOne, SpellsChar;
    if ReadsOne(text, at, end, c) {
      OneIsSpelt(text, at, end, c);
    } else if at + 3 <= end <= |text| && SpellsChar(text[at..end], c) {
      SpeltIsOne(text, at, end, c);
    }
  }
}
