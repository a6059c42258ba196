/** The grammar of RFC 8259 sections 2 to 7, and the parser measured against it.

  A `Value` is a concrete syntax tree: every blank, escape and digit of a text is in it.
  `Spelt` writes a tree out and `Meaning` reads it, neither knowing of the parser, and
  `ParserMeetsGrammar` says that parsing is exactly reading a proper tree back. */
module JsonGrammar {
  import opened Wrappers
  import opened JsonModel

  // -- concrete syntax ------------------------------------------------------------

  datatype Unit =
    | Plain(c: char)
    | Short(letter: char)
    | Code(hex: string)
    | Pair(high: string, low: string)

  datatype Power = Power(mark: char, sign: string, digits: string)

  datatype Numeral = Numeral(minus: bool, whole: string, fraction: Option<string>, power: Option<Power>)

  datatype Item = Item(before: string, value: Value, after: string)

  datatype Items = LastItem(item: Item) | MoreItems(item: Item, rest: Items)

  datatype Field = Field(before: string, key: seq<Unit>, left: string, right: string,
                         value: Value, after: string)

  datatype Fields = LastField(field: Field) | MoreFields(field: Field, rest: Fields)

  datatype Value =
    | Word(node: Node)
    | Number(numeral: Numeral)
    | Text(units: seq<Unit>)
    | NoItems(gap: string)
    | List(items: Items)
    | NoFields(gap: string)
    | Record(fields: Fields)

  datatype Document = Document(before: string, value: Value, after: string)

  // -- which trees are proper -----------------------------------------------------

  predicate Blank(s: string) {
    forall i :: 0 <= i < |s| ==> IsWs(s[i])
  }

  predicate Digits(s: string) {
    s != "" && AllDigits(s)
  }

  /** Section 7; surrogates must pair, and a code may begin with a plus sign. */
  predicate ProperUnit(u: Unit) {
    match u
    case Plain(c) => c as int >= 0x20 && c != '"' && c != '\\'
    case Short(letter) => ShortEscape(letter).Some?
    case Code(hex) => IsHex4(hex) && !IsHigh(HexValue(hex)) && !IsLow(HexValue(hex))
    case Pair(high, low) => IsHex4(high) && IsHex4(low) && IsHigh(HexValue(high)) && IsLow(HexValue(low))
  }

  predicate ProperUnits(units: seq<Unit>) {
    forall i :: 0 <= i < |units| ==> ProperUnit(units[i])
  }

  /** Section 6. */
  predicate ProperNumeral(n: Numeral) {
    && Digits(n.whole) && (n.whole[0] == '0' ==> |n.whole| == 1)
    && (n.fraction.Some? ==> Digits(n.fraction.value))
    && (n.power.Some? ==> ProperPower(n.power.value))
  }

  predicate ProperPower(p: Power) {
    (p.mark == 'e' || p.mark == 'E') && (p.sign == "" || p.sign == "+" || p.sign == "-") && Digits(p.digits)
  }

  predicate Proper(v: Value) {
    match v
    case Word(node) => node.Bool? || node.Null?
    case Number(numeral) => ProperNumeral(numeral)
    case Text(units) => ProperUnits(units)
    case NoItems(gap) => Blank(gap)
    case List(items) => ProperItems(items)
    case NoFields(gap) => Blank(gap)
    case Record(fields) => ProperFields(fields)
  }

  predicate ProperItems(items: Items) {
    && Blank(items.item.before) && Proper(items.item.value) && Blank(items.item.after)
    && (items.MoreItems? ==> ProperItems(items.rest))
  }

  predicate ProperFields(fields: Fields) {
    && ProperField(fields.field)
    && (fields.MoreFields? ==> ProperFields(fields.rest))
  }

  predicate ProperField(f: Field) {
    && Blank(f.before) && ProperUnits(f.key) && Blank(f.left) && Blank(f.right)
    && Proper(f.value) && Blank(f.after)
  }

  predicate ProperDocument(d: Document) {
    Blank(d.before) && Proper(d.value) && Nesting(d.value) <= MAX_DEPTH && Blank(d.after)
  }

  // -- how deep they nest ---------------------------------------------------------

  function Deeper(a: nat, b: nat): nat {
    if a < b then b else a
  }

  function Nesting(v: Value): nat {
    match v
    case NoItems(_) => 1
    case NoFields(_) => 1
    case List(items) => 1 + ItemsNesting(items)
    case Record(fields) => 1 + FieldsNesting(fields)
    case _ => 0
  }

  function ItemsNesting(items: Items): nat {
    match items
    case LastItem(item) => Nesting(item.value)
    case MoreItems(item, rest) => Deeper(Nesting(item.value), ItemsNesting(rest))
  }

  function FieldsNesting(fields: Fields): nat {
    match fields
    case LastField(f) => Nesting(f.value)
    case MoreFields(f, rest) => Deeper(Nesting(f.value), FieldsNesting(rest))
  }

  // -- their spelling -------------------------------------------------------------
  // Each of these writes a tree out in front of the text that follows it.

  function SpeltUnit(u: Unit, rest: string): string {
    match u
    case Plain(c) => [c] + rest
    case Short(letter) => ['\\', letter] + rest
    case Code(hex) => ['\\', 'u'] + (hex + rest)
    case Pair(high, low) => ['\\', 'u'] + (high + (['\\', 'u'] + (low + rest)))
  }

  function SpeltUnits(units: seq<Unit>, rest: string): string {
    if units == [] then rest else SpeltUnit(units[0], SpeltUnits(units[1..], rest))
  }

  function Quoted(units: seq<Unit>, rest: string): string {
    ['"'] + SpeltUnits(units, ['"'] + rest)
  }

  function SpeltPower(p: Power): string {
    [p.mark] + (p.sign + p.digits)
  }

  function SpeltNumeral(n: Numeral): string {
    (if n.minus then "-" else "") + (n.whole + (SpeltFraction(n.fraction) + SpeltExponent(n.power)))
  }

  function SpeltFraction(f: Option<string>): string {
    if f.Some? then "." + f.value else ""
  }

  function SpeltExponent(p: Option<Power>): string {
    if p.Some? then SpeltPower(p.value) else ""
  }

  function SpeltWord(node: Node): string {
    if node == Bool(true) then "true" else if node == Bool(false) then "false" else "null"
  }

  function Spelt(v: Value, rest: string): string {
    match v
    case Word(node) => SpeltWord(node) + rest
    case Number(numeral) => SpeltNumeral(numeral) + rest
    case Text(units) => Quoted(units, rest)
    case NoItems(gap) => ['['] + (gap + ([']'] + rest))
    case List(items) => ['['] + SpeltItems(items, rest)
    case NoFields(gap) => ['{'] + (gap + (['}'] + rest))
    case Record(fields) => ['{'] + SpeltFields(fields, rest)
  }

  /** Up to and including the closing bracket. */
  function SpeltItems(items: Items, rest: string): string {
    match items
    case LastItem(item) => SpeltItem(item, [']'] + rest)
    case MoreItems(item, more) => SpeltItem(item, [','] + SpeltItems(more, rest))
  }

  function SpeltItem(item: Item, rest: string): string {
    item.before + Spelt(item.value, item.after + rest)
  }

  /** Up to and including the closing brace. */
  function SpeltFields(fields: Fields, rest: string): string {
    match fields
    case LastField(f) => SpeltField(f, ['}'] + rest)
    case MoreFields(f, more) => SpeltField(f, [','] + SpeltFields(more, rest))
  }

  function SpeltField(f: Field, rest: string): string {
    SpeltKey(f, Spelt(f.value, f.after + rest))
  }

  function SpeltKey(f: Field, rest: string): string {
    f.before + Quoted(f.key, f.left + ([':'] + (f.right + rest)))
  }

  function SpeltDocument(d: Document): string {
    d.before + Spelt(d.value, d.after)
  }

  // -- their meaning --------------------------------------------------------------

  function UnitMeaning(u: Unit): char
    requires ProperUnit(u)
  {
    match u
    case Plain(c) => c
    case Short(letter) => ShortEscape(letter).value
    case Code(hex) => HexValue(hex) as char
    case Pair(high, low) => Combined(HexValue(high), HexValue(low))
  }

  function UnitsMeaning(units: seq<Unit>): string
    requires ProperUnits(units)
  {
    if units == [] then "" else [UnitMeaning(units[0])] + UnitsMeaning(units[1..])
  }

  function Meaning(v: Value): Node
    requires Proper(v)
  {
    match v
    case Word(node) => node
    case Number(numeral) => Num(SpeltNumeral(numeral))
    case Text(units) => Str(UnitsMeaning(units))
    case NoItems(_) => Array([])
    case List(items) => Array(ItemsMeaning(items))
    case NoFields(_) => Object([])
    case Record(fields) => Object(PutAll([], FieldsMeaning(fields)))
  }

  function ItemsMeaning(items: Items): seq<Node>
    requires ProperItems(items)
  {
    match items
    case LastItem(item) => [Meaning(item.value)]
    case MoreItems(item, rest) => [Meaning(item.value)] + ItemsMeaning(rest)
  }

  /** The members as written, repeats included. */
  function FieldsMeaning(fields: Fields): (r: seq<Member>)
    requires ProperFields(fields)
    ensures r != []
  {
    match fields
    case LastField(f) => [FieldMeaning(f)]
    case MoreFields(f, rest) => [FieldMeaning(f)] + FieldsMeaning(rest)
  }

  function FieldMeaning(f: Field): Member
    requires ProperField(f)
  {
    Member(UnitsMeaning(f.key), Meaning(f.value))
  }

  function PutAll(members: seq<Member>, raw: seq<Member>): seq<Member>
    decreases |raw|
  {
    if raw == [] then members else PutAll(Put(members, raw[0].key, raw[0].value), raw[1..])
  }

  /** `text` is one value of the grammar, and `node` is what it says. */
  ghost predicate Says(text: string, node: Node) {
    exists d: Document :: ProperDocument(d) && SpeltDocument(d) == text && Meaning(d.value) == node
  }

  // -- blanks and digits ----------------------------------------------------------

  lemma {:induction false} SkipsBlank(gap: string, s: string)
    requires Blank(gap)
    ensures SkipWs(gap + s) == SkipWs(s)
  {
    if gap == "" {
      assert gap + s == s;
    } else {
      assert (gap + s)[1..] == gap[1..] + s;
      SkipsBlank(gap[1..], s);
    }
  }

  lemma {:induction false} SkippedIsBlank(s: string) returns (gap: string)
    ensures Blank(gap) && s == gap + SkipWs(s)
    ensures SkipWs(SkipWs(s)) == SkipWs(s)
  {
    if s != "" && IsWs(s[0]) {
      var tail := SkippedIsBlank(s[1..]);
      gap := [s[0]] + tail;
    } else {
      gap := "";
    }
  }

  predicate NoDigit(s: string) {
    s == "" || !IsDigit(s[0])
  }

  lemma {:induction false} SkipsDigits(digits: string, s: string)
    requires AllDigits(digits) && NoDigit(s)
    ensures SkipDigits(digits + s) == s
  {
    if digits == "" {
      assert digits + s == s;
    } else {
      assert (digits + s)[1..] == digits[1..] + s;
      SkipsDigits(digits[1..], s);
    }
  }

  lemma Prepend(c: char, a: string, b: string)
    ensures [c] + (a + b) == ([c] + a) + b
  {
  }

  lemma {:induction false} SkippedAreDigits(s: string) returns (digits: string)
    ensures AllDigits(digits) && s == digits + SkipDigits(s)
  {
    if s != "" && IsDigit(s[0]) {
      var tail := SkippedAreDigits(s[1..]);
      digits := [s[0]] + tail;
      Prepend(s[0], tail, SkipDigits(s[1..]));
      assert s == [s[0]] + s[1..];
    } else {
      digits := "";
    }
  }

  /** What may stand right after a value. */
  predicate Closed(s: string) {
    s == "" || IsWs(s[0]) || s[0] == ',' || s[0] == ']' || s[0] == '}'
  }

  // -- numbers --------------------------------------------------------------------

  lemma Regroup(a: string, b: string, c: string, d: string, e: string)
    ensures a + (b + (c + (d + e))) == (a + (b + (c + d))) + e
  {
  }

  lemma AfterSign(mark: char, sign: string, tail: string)
    requires |sign| <= 1
    ensures var s := [mark] + (sign + tail); s[1..] == sign + tail && s[1 + |sign|..] == tail
  {
  }

  lemma PowerParses(p: Power, rest: string)
    requires ProperPower(p) && NoDigit(rest)
    ensures Exponent([p.mark] + (p.sign + (p.digits + rest))) == Some(rest)
  {
    hide SkipDigits;
    var tail := p.digits + rest;
    AfterSign(p.mark, p.sign, tail);
    SkipsDigits(p.digits, rest);
    assert tail[0] == p.digits[0] && IsDigit(p.digits[0]);
  }

  lemma ExponentParses(power: Option<Power>, rest: string)
    requires power.Some? ==> ProperPower(power.value)
    requires Closed(rest)
    ensures Exponent(SpeltExponent(power) + rest) == Some(rest)
  {
    hide Exponent, ProperPower;
    if power.Some? {
      var p := power.value;
      assert NoDigit(rest);
      PowerParses(p, rest);
      Prepend(p.mark, p.sign + p.digits, rest);
      assert (p.sign + p.digits) + rest == p.sign + (p.digits + rest);
    } else {
      assert SpeltExponent(power) + rest == rest;
      NoExponent(rest);
    }
  }

  lemma NoExponent(rest: string)
    requires Closed(rest)
    ensures Exponent(rest) == Some(rest)
  {
  }

  lemma FractionParses(fraction: Option<string>, rest: string)
    requires fraction.Some? ==> Digits(fraction.value)
    requires NoDigit(rest) && !Starts(rest, '.')
    ensures Fraction(SpeltFraction(fraction) + rest) == Some(rest)
  {
    if fraction.Some? {
      assert (SpeltFraction(fraction) + rest)[1..] == fraction.value + rest;
      SkipsDigits(fraction.value, rest);
    } else {
      assert SpeltFraction(fraction) + rest == rest;
    }
  }

  lemma WholeParses(whole: string, rest: string)
    requires Digits(whole) && (whole[0] == '0' ==> |whole| == 1) && NoDigit(rest)
    ensures Whole(whole + rest) == Some(rest)
  {
    assert (whole + rest)[1..] == whole[1..] + rest;
    SkipsDigits(whole[1..], rest);
  }

  lemma EasyStarts(n: Numeral, rest: string)
    requires ProperNumeral(n) && Closed(rest)
    ensures var e := SpeltExponent(n.power) + rest;
            NoDigit(e) && !Starts(e, '.') && NoDigit(SpeltFraction(n.fraction) + e)
  {
  }

  lemma SignedNumberEnds(minus: bool, w: string, f: string, e: string, rest: string)
    requires w != "" && w[0] != '-' && Whole(w) == Some(f) && Fraction(f) == Some(e) && Exponent(e) == Some(rest)
    ensures AfterNumber((if minus then "-" else "") + w) == Some(rest)
  {
    hide Whole, Fraction, Exponent;
    var s := (if minus then "-" else "") + w;
    if minus {
      assert s[1..] == w;
    } else {
      assert s == w;
    }
  }

  lemma NumberParses(n: Numeral, rest: string)
    requires ProperNumeral(n) && Closed(rest)
    ensures ParseNumber(SpeltNumeral(n) + rest) == Got(Num(SpeltNumeral(n)), rest)
  {
    hide Whole, Fraction, Exponent, SpeltFraction, SpeltExponent, ProperPower, AfterNumber;
    var s := SpeltNumeral(n) + rest;
    var e := SpeltExponent(n.power) + rest;
    var f := SpeltFraction(n.fraction) + e;
    var w := n.whole + f;
    Regroup(if n.minus then "-" else "", n.whole, SpeltFraction(n.fraction), SpeltExponent(n.power), rest);
    EasyStarts(n, rest);
    ExponentParses(n.power, rest);
    FractionParses(n.fraction, e);
    WholeParses(n.whole, f);
    assert w[0] == n.whole[0] && IsDigit(n.whole[0]);
    SignedNumberEnds(n.minus, w, f, e, rest);
    assert s[..|s| - |rest|] == SpeltNumeral(n);
  }

  lemma ExponentIsSpelt(s: string) returns (power: Option<Power>)
    requires Exponent(s).Some?
    ensures power.Some? ==> ProperPower(power.value)
    ensures s == SpeltExponent(power) + Exponent(s).value
  {
    if Starts(s, 'e') || Starts(s, 'E') {
      var signed := Starts(s[1..], '+') || Starts(s[1..], '-');
      var sign := if signed then [s[1]] else "";
      var t := if signed then s[2..] else s[1..];
      var digits := SkippedAreDigits(t);
      power := Some(Power(s[0], sign, digits));
      assert s == [s[0]] + sign + t;
    } else {
      power := None;
    }
  }

  lemma FractionIsSpelt(s: string) returns (fraction: Option<string>)
    requires Fraction(s).Some?
    ensures fraction.Some? ==> Digits(fraction.value)
    ensures s == SpeltFraction(fraction) + Fraction(s).value
  {
    if Starts(s, '.') {
      var digits := SkippedAreDigits(s[1..]);
      fraction := Some(digits);
      assert s == "." + s[1..];
    } else {
      fraction := None;
    }
  }

  lemma WholeIsSpelt(s: string) returns (whole: string)
    requires Whole(s).Some?
    ensures Digits(whole) && (whole[0] == '0' ==> |whole| == 1)
    ensures s == whole + Whole(s).value
  {
    if s[0] == '0' {
      whole := "0";
    } else {
      var digits := SkippedAreDigits(s[1..]);
      whole := [s[0]] + digits;
    }
  }

  lemma NumberIsSpelt(s: string) returns (n: Numeral)
    requires ParseNumber(s).Got?
    ensures ProperNumeral(n) && ParseNumber(s).value == Num(SpeltNumeral(n))
    ensures s == SpeltNumeral(n) + ParseNumber(s).rest
  {
    hide Whole, Fraction, Exponent, SpeltFraction, SpeltExponent, ProperPower;
    var minus := Starts(s, '-');
    var w := if minus then s[1..] else s;
    var whole := WholeIsSpelt(w);
    var f := Whole(w).value;
    var fraction := FractionIsSpelt(f);
    var e := Fraction(f).value;
    var power := ExponentIsSpelt(e);
    n := Numeral(minus, whole, fraction, power);
    var rest := Exponent(e).value;
    assert s == (if minus then "-" else "") + w;
    Regroup(if minus then "-" else "", whole, SpeltFraction(fraction), SpeltExponent(power), rest);
    assert s[..|s| - |rest|] == SpeltNumeral(n);
  }

  // -- strings --------------------------------------------------------------------

  lemma UnicodeParses(u: Unit, rest: string)
    requires ProperUnit(u) && (u.Code? || u.Pair?)
    ensures SpeltUnit(u, rest)[0] == '\\' && SpeltUnit(u, rest)[1..] != "" && SpeltUnit(u, rest)[1..][0] == 'u'
    ensures ParseUnicode(SpeltUnit(u, rest)[1..][1..]) == Got(UnitMeaning(u), rest)
  {
    var s := SpeltUnit(u, rest)[1..][1..];
    if u.Code? {
      assert s == u.hex + rest;
    } else {
      var t := ['\\', 'u'] + (u.low + rest);
      assert s == u.high + t;
      assert t[2..] == u.low + rest;
    }
  }

  lemma UnitParses(u: Unit, rest: string, out: string)
    requires ProperUnit(u)
    ensures ParseChars(SpeltUnit(u, rest), out) == ParseChars(rest, out + [UnitMeaning(u)])
  {
    var s := SpeltUnit(u, rest);
    match u
    case Plain(c) => assert s[1..] == rest;
    case Short(letter) => assert s[1..] == [letter] + rest && s[1..][1..] == rest;
    case _ => UnicodeParses(u, rest);
  }

  lemma {:induction false} CharsParse(units: seq<Unit>, rest: string, out: string)
    requires ProperUnits(units)
    ensures ParseChars(SpeltUnits(units, ['"'] + rest), out) == Got(out + UnitsMeaning(units), rest)
    decreases |units|
  {
    hide SpeltUnit, UnitMeaning, ParseEscape;
    if units == [] {
      assert (['"'] + rest)[1..] == rest;
      assert out + UnitsMeaning(units) == out;
    } else {
      var u := units[0];
      UnitParses(u, SpeltUnits(units[1..], ['"'] + rest), out);
      CharsParse(units[1..], rest, out + [UnitMeaning(u)]);
      assert out + [UnitMeaning(u)] + UnitsMeaning(units[1..]) == out + UnitsMeaning(units);
    }
  }

  lemma UnicodeIsSpelt(s: string) returns (u: Unit)
    requires ParseUnicode(s).Got?
    ensures ProperUnit(u) && UnitMeaning(u) == ParseUnicode(s).value
    ensures ['\\', 'u'] + s == SpeltUnit(u, ParseUnicode(s).rest)
  {
    var t := s[4..];
    assert s == s[..4] + t;
    if IsHigh(Hex4(s).value) {
      var low := t[2..][..4];
      u := Pair(s[..4], low);
      assert t == ['\\', 'u'] + t[2..];
      assert t[2..] == low + t[2..][4..];
    } else {
      u := Code(s[..4]);
    }
  }

  lemma UnitIsSpelt(s: string, out: string) returns (u: Unit, t: string)
    requires ParseChars(s, out).Got? && s[0] != '"'
    ensures ProperUnit(u) && s == SpeltUnit(u, t) && |t| < |s|
    ensures ParseChars(s, out) == ParseChars(t, out + [UnitMeaning(u)])
  {
    if s[0] == '\\' {
      t := ParseEscape(s[1..]).rest;
      if s[1] == 'u' {
        assert s[1..][1..] == s[2..];
        u := UnicodeIsSpelt(s[2..]);
        assert s == ['\\', 'u'] + s[2..];
      } else {
        u := Short(s[1]);
        assert s == ['\\', s[1]] + t;
      }
    } else {
      u, t := Plain(s[0]), s[1..];
    }
  }

  lemma {:induction false} CharsAreSpelt(s: string, out: string) returns (units: seq<Unit>)
    requires ParseChars(s, out).Got?
    ensures ProperUnits(units) && ParseChars(s, out).value == out + UnitsMeaning(units)
    ensures s == SpeltUnits(units, ['"'] + ParseChars(s, out).rest)
    decreases |s|
  {
    hide SpeltUnit, UnitMeaning, ParseEscape, ProperUnit;
    if s[0] == '"' {
      units := [];
      assert s == ['"'] + s[1..];
    } else {
      var u, t := UnitIsSpelt(s, out);
      var tail := CharsAreSpelt(t, out + [UnitMeaning(u)]);
      units := [u] + tail;
      assert units[1..] == tail;
      assert out + [UnitMeaning(u)] + UnitsMeaning(tail) == out + UnitsMeaning(units);
    }
  }

  // -- every proper tree is read back ----------------------------------------------

  lemma SpeltIsSolid(v: Value, rest: string)
    requires Proper(v)
    ensures Spelt(v, rest) != "" && !IsWs(Spelt(v, rest)[0])
    ensures Spelt(v, rest)[0] != ']' && Spelt(v, rest)[0] != '}'
  {
    if v.Number? {
      assert IsDigit(v.numeral.whole[0]);
    }
  }

  lemma AfterBlank(gap: string, v: Value, rest: string)
    requires Blank(gap) && Proper(v)
    ensures SkipWs(gap + Spelt(v, rest)) == Spelt(v, rest)
  {
    SpeltIsSolid(v, rest);
    SkipsBlank(gap, Spelt(v, rest));
  }

  lemma NumberValueParses(n: Numeral, rest: string, depth: nat)
    requires ProperNumeral(n) && Closed(rest)
    ensures ParseValue(SpeltNumeral(n) + rest, depth) == Got(Num(SpeltNumeral(n)), rest)
  {
    hide ParseNumber;
    NumberParses(n, rest);
    assert IsDigit(n.whole[0]);
    assert (SpeltNumeral(n) + rest)[0] == if n.minus then '-' else n.whole[0];
  }

  lemma WordParses(node: Node, rest: string, depth: nat)
    requires node.Bool? || node.Null?
    ensures ParseValue(SpeltWord(node) + rest, depth) == Got(node, rest)
  {
    var s := SpeltWord(node) + rest;
    assert SpeltWord(node) <= s && s[|SpeltWord(node)|..] == rest;
  }

  lemma TextParses(units: seq<Unit>, rest: string, depth: nat)
    requires ProperUnits(units)
    ensures ParseValue(Quoted(units, rest), depth) == Got(Str(UnitsMeaning(units)), rest)
  {
    hide ParseChars, SpeltUnits, UnitsMeaning, ProperUnits;
    assert Quoted(units, rest)[1..] == SpeltUnits(units, ['"'] + rest);
    CharsParse(units, rest, "");
    assert "" + UnitsMeaning(units) == UnitsMeaning(units);
  }

  lemma EmptyParses(v: Value, rest: string, depth: nat)
    requires Proper(v) && (v.NoItems? || v.NoFields?) && depth + 1 <= MAX_DEPTH
    ensures ParseValue(Spelt(v, rest), depth) == Got(Meaning(v), rest)
  {
    var close := [if v.NoItems? then ']' else '}'];
    assert Spelt(v, rest)[1..] == v.gap + (close + rest);
    SkipsBlank(v.gap, close + rest);
    assert (close + rest)[1..] == rest;
  }

  lemma {:induction false} ValueParses(v: Value, rest: string, depth: nat)
    requires Proper(v) && Closed(rest) && depth + Nesting(v) <= MAX_DEPTH
    ensures ParseValue(Spelt(v, rest), depth) == Got(Meaning(v), rest)
    decreases v
  {
    match v
    case List(items) => ListParses(items, rest, depth);
    case Record(fields) => RecordParses(fields, rest, depth);
    case Word(node) => WordParses(node, rest, depth);
    case Number(n) => NumberValueParses(n, rest, depth);
    case Text(units) => TextParses(units, rest, depth);
    case _ => EmptyParses(v, rest, depth);
  }

  lemma {:induction false} ListParses(items: Items, rest: string, depth: nat)
    requires ProperItems(items) && depth + 1 + ItemsNesting(items) <= MAX_DEPTH
    ensures ParseValue(['['] + SpeltItems(items, rest), depth) == Got(Array(ItemsMeaning(items)), rest)
    decreases items, 1
  {
    hide SpeltItems, ItemsMeaning, ProperItems, ItemsNesting, ParseItems, SkipWs;
    var t := SpeltItems(items, rest);
    ItemsParse(items, rest, depth + 1, []);
    assert (['['] + t)[1..] == t;
    ItemsBegin(items, rest);
    SkipsOnce(t, depth + 1);
    assert [] + ItemsMeaning(items) == ItemsMeaning(items);
  }

  lemma {:induction false} RecordParses(fields: Fields, rest: string, depth: nat)
    requires ProperFields(fields) && depth + 1 + FieldsNesting(fields) <= MAX_DEPTH
    ensures ParseValue(['{'] + SpeltFields(fields, rest), depth)
         == Got(Object(PutAll([], FieldsMeaning(fields))), rest)
    decreases fields, 1
  {
    hide SpeltFields, FieldsMeaning, ProperFields, FieldsNesting, ParseMembers, SkipWs;
    var t := SpeltFields(fields, rest);
    FieldsParse(fields, rest, depth + 1, []);
    assert (['{'] + t)[1..] == t;
    FieldsBegin(fields, rest);
    SkipsOnce(t, depth + 1);
  }

  /** The blanks after an opening bracket may as well be those before its first item. */
  lemma SkipsOnce(s: string, depth: nat)
    ensures ParseItems(SkipWs(s), depth, []) == ParseItems(s, depth, [])
    ensures ParseMembers(SkipWs(s), depth, []) == ParseMembers(s, depth, [])
  {
    var _ := SkippedIsBlank(s);
    assert ParseKey(SkipWs(s)) == ParseKey(s);
    assert ParseMember(SkipWs(s), depth) == ParseMember(s, depth);
  }

  lemma ItemsBegin(items: Items, rest: string)
    requires ProperItems(items)
    ensures !Starts(SkipWs(SpeltItems(items, rest)), ']')
  {
    var item := items.item;
    var tail := if items.LastItem? then [']'] + rest else [','] + SpeltItems(items.rest, rest);
    AfterBlank(item.before, item.value, item.after + tail);
    SpeltIsSolid(item.value, item.after + tail);
  }

  lemma FieldsBegin(fields: Fields, rest: string)
    requires ProperFields(fields)
    ensures !Starts(SkipWs(SpeltFields(fields, rest)), '}')
  {
    hide Spelt, SpeltUnits;
    var f := fields.field;
    var tail := if fields.LastField? then ['}'] + rest else [','] + SpeltFields(fields.rest, rest);
    var key := Quoted(f.key, f.left + ([':'] + (f.right + Spelt(f.value, f.after + tail))));
    assert key[0] == '"';
    SkipsBlank(f.before, key);
  }

  /** One item, given that its value parses. */
  lemma ItemParses(item: Item, rest: string, depth: nat)
    requires Blank(item.before) && Proper(item.value) && Blank(item.after)
    requires ParseValue(Spelt(item.value, item.after + rest), depth) == Got(Meaning(item.value), item.after + rest)
    requires rest != "" && !IsWs(rest[0])
    ensures ParseValue(SkipWs(SpeltItem(item, rest)), depth) == Got(Meaning(item.value), item.after + rest)
    ensures SkipWs(item.after + rest) == rest
  {
    AfterBlank(item.before, item.value, item.after + rest);
    SkipsBlank(item.after, rest);
  }

  lemma {:induction false} ItemsParse(items: Items, rest: string, depth: nat, known: seq<Node>)
    requires ProperItems(items) && depth + ItemsNesting(items) <= MAX_DEPTH
    ensures ParseItems(SpeltItems(items, rest), depth, known) == Got(Array(known + ItemsMeaning(items)), rest)
    decreases items, 0
  {
    hide Spelt, SpeltItem, Meaning, Proper, Nesting, ParseValue, Blank, SkipWs;
    var item := items.item;
    var t := if items.LastItem? then [']'] + rest else [','] + SpeltItems(items.rest, rest);
    ClosedAfter(item.after, t);
    ValueParses(item.value, item.after + t, depth);
    ItemParses(item, t, depth);
    match items
    case LastItem(_) =>
      assert t[1..] == rest;
    case MoreItems(_, more) =>
      assert t[1..] == SpeltItems(more, rest);
      ItemsParse(more, rest, depth, known + [Meaning(item.value)]);
      assert known + [Meaning(item.value)] + ItemsMeaning(more) == known + ItemsMeaning(items);
  }

  lemma ClosedAfter(gap: string, rest: string)
    requires Blank(gap) && Closed(rest)
    ensures Closed(gap + rest)
  {
    if gap == "" {
      assert gap + rest == rest;
    }
  }

  lemma KeyParses(f: Field, rest: string)
    requires ProperField(f) && rest != "" && !IsWs(rest[0])
    ensures ParseKey(SpeltKey(f, rest)) == Got(UnitsMeaning(f.key), rest)
  {
    hide ParseChars, SpeltUnits, UnitsMeaning, ProperUnits, SkipWs, Proper;
    var w := [':'] + (f.right + rest);
    var u := f.left + w;
    var t := Quoted(f.key, u);
    SolidSkips(f.before, t);
    assert t[1..] == SpeltUnits(f.key, ['"'] + u);
    CharsParse(f.key, u, "");
    assert "" + UnitsMeaning(f.key) == UnitsMeaning(f.key);
    SolidSkips(f.left, w);
    assert w[1..] == f.right + rest;
    SolidSkips(f.right, rest);
  }

  lemma SolidSkips(gap: string, s: string)
    requires Blank(gap) && s != "" && !IsWs(s[0])
    ensures SkipWs(gap + s) == s
  {
    SkipsBlank(gap, s);
  }

  /** One member, given that its value parses. */
  lemma MemberParses(f: Field, rest: string, depth: nat)
    requires ProperField(f)
    requires ParseValue(Spelt(f.value, f.after + rest), depth) == Got(Meaning(f.value), f.after + rest)
    requires rest != "" && !IsWs(rest[0])
    ensures ParseMember(SpeltField(f, rest), depth) == Got(FieldMeaning(f), f.after + rest)
    ensures SkipWs(f.after + rest) == rest
  {
    hide Spelt, ParseKey, ParseValue, SpeltKey, Meaning, UnitsMeaning;
    SpeltIsSolid(f.value, f.after + rest);
    KeyParses(f, Spelt(f.value, f.after + rest));
    SolidSkips(f.after, rest);
  }

  lemma {:induction false} FieldsParse(fields: Fields, rest: string, depth: nat, known: seq<Member>)
    requires ProperFields(fields) && depth + FieldsNesting(fields) <= MAX_DEPTH
    ensures ParseMembers(SpeltFields(fields, rest), depth, known)
         == Got(Object(PutAll(known, FieldsMeaning(fields))), rest)
    decreases fields, 0
  {
    hide Spelt, SpeltField, Meaning, FieldMeaning, Proper, Nesting, ParseValue, ParseMember, Blank, SkipWs, Put;
    var f := fields.field;
    var t := if fields.LastField? then ['}'] + rest else [','] + SpeltFields(fields.rest, rest);
    ClosedAfter(f.after, t);
    ValueParses(f.value, f.after + t, depth);
    MemberParses(f, t, depth);
    match fields
    case LastField(_) =>
      assert t[1..] == rest;
      assert FieldsMeaning(fields)[1..] == [];
    case MoreFields(_, more) =>
      assert t[1..] == SpeltFields(more, rest);
      FieldsParse(more, rest, depth, Put(known, FieldMeaning(f).key, FieldMeaning(f).value));
      assert FieldsMeaning(fields)[1..] == FieldsMeaning(more);
  }

  // -- everything read is a proper tree ----------------------------------------------

  lemma ScalarIsSpelt(s: string, depth: nat) returns (v: Value)
    requires ParseValue(s, depth).Got? && s[0] != '{' && s[0] != '['
    ensures Proper(v) && Nesting(v) == 0 && Meaning(v) == ParseValue(s, depth).value
    ensures s == Spelt(v, ParseValue(s, depth).rest)
  {
    hide ParseChars, SpeltUnits, UnitsMeaning, ProperUnits, ParseNumber, SpeltNumeral, ProperNumeral;
    if s[0] == '"' {
      var units := CharsAreSpelt(s[1..], "");
      v := Text(units);
      assert s == ['"'] + s[1..];
      assert "" + UnitsMeaning(units) == UnitsMeaning(units);
    } else if s[0] == '-' || IsDigit(s[0]) {
      var n := NumberIsSpelt(s);
      v := Number(n);
    } else {
      v := Word(ParseValue(s, depth).value);
    }
  }

  lemma {:induction false} ValueIsSpelt(s: string, depth: nat) returns (v: Value)
    requires ParseValue(s, depth).Got? && depth <= MAX_DEPTH
    ensures Proper(v) && depth + Nesting(v) <= MAX_DEPTH && Meaning(v) == ParseValue(s, depth).value
    ensures s == Spelt(v, ParseValue(s, depth).rest)
    decreases |s|, 1
  {
    if s[0] == '[' {
      v := ListIsSpelt(s, depth);
    } else if s[0] == '{' {
      v := RecordIsSpelt(s, depth);
    } else {
      v := ScalarIsSpelt(s, depth);
    }
  }

  lemma {:induction false} ListIsSpelt(s: string, depth: nat) returns (v: Value)
    requires ParseValue(s, depth).Got? && s[0] == '[' && depth <= MAX_DEPTH
    ensures Proper(v) && depth + Nesting(v) <= MAX_DEPTH && Meaning(v) == ParseValue(s, depth).value
    ensures s == Spelt(v, ParseValue(s, depth).rest)
    decreases |s|, 0
  {
    hide ParseItems, SpeltItems, ItemsMeaning, ProperItems, ItemsNesting, SkipWs;
    var gap := SkippedIsBlank(s[1..]);
    var t := SkipWs(s[1..]);
    assert s == ['['] + s[1..];
    if Starts(t, ']') {
      v := NoItems(gap);
      assert t == [']'] + t[1..];
    } else {
      var items := ItemsAreSpelt(t, depth + 1, []);
      items := Indented(gap, items, ParseValue(s, depth).rest);
      v := List(items);
      assert [] + ItemsMeaning(items) == ItemsMeaning(items);
    }
  }

  lemma {:induction false} RecordIsSpelt(s: string, depth: nat) returns (v: Value)
    requires ParseValue(s, depth).Got? && s[0] == '{' && depth <= MAX_DEPTH
    ensures Proper(v) && depth + Nesting(v) <= MAX_DEPTH && Meaning(v) == ParseValue(s, depth).value
    ensures s == Spelt(v, ParseValue(s, depth).rest)
    decreases |s|, 0
  {
    hide ParseMembers, SpeltFields, FieldsMeaning, ProperFields, FieldsNesting, SkipWs;
    var gap := SkippedIsBlank(s[1..]);
    var t := SkipWs(s[1..]);
    assert s == ['{'] + s[1..];
    if Starts(t, '}') {
      v := NoFields(gap);
      assert t == ['}'] + t[1..];
    } else {
      var fields := FieldsAreSpelt(t, depth + 1, []);
      fields := IndentedFields(gap, fields, ParseValue(s, depth).rest);
      v := Record(fields);
    }
  }

  lemma ItemIndented(gap: string, item: Item, rest: string)
    ensures SpeltItem(item.(before := gap + item.before), rest) == gap + SpeltItem(item, rest)
  {
    hide Spelt;
    var tail := Spelt(item.value, item.after + rest);
    assert (gap + item.before) + tail == gap + (item.before + tail);
  }

  lemma Indented(gap: string, items: Items, rest: string) returns (r: Items)
    requires Blank(gap) && ProperItems(items)
    ensures ProperItems(r) && ItemsMeaning(r) == ItemsMeaning(items) && ItemsNesting(r) == ItemsNesting(items)
    ensures SpeltItems(r, rest) == gap + SpeltItems(items, rest)
  {
    hide SpeltItem, Proper, Meaning, Nesting;
    var item := items.item.(before := gap + items.item.before);
    r := if items.LastItem? then LastItem(item) else MoreItems(item, items.rest);
    ItemIndented(gap, items.item, if items.LastItem? then [']'] + rest else [','] + SpeltItems(items.rest, rest));
  }

  lemma FieldIndented(gap: string, f: Field, rest: string)
    ensures SpeltField(f.(before := gap + f.before), rest) == gap + SpeltField(f, rest)
  {
    hide Spelt, Quoted;
    var tail := Quoted(f.key, f.left + ([':'] + (f.right + Spelt(f.value, f.after + rest))));
    assert (gap + f.before) + tail == gap + (f.before + tail);
  }

  lemma IndentedFields(gap: string, fields: Fields, rest: string) returns (r: Fields)
    requires Blank(gap) && ProperFields(fields)
    ensures ProperFields(r) && FieldsMeaning(r) == FieldsMeaning(fields) && FieldsNesting(r) == FieldsNesting(fields)
    ensures SpeltFields(r, rest) == gap + SpeltFields(fields, rest)
  {
    hide SpeltField, Proper, Meaning, Nesting, ProperUnits, UnitsMeaning;
    var f := fields.field.(before := gap + fields.field.before);
    r := if fields.LastField? then LastField(f) else MoreFields(f, fields.rest);
    FieldIndented(gap, fields.field, if fields.LastField? then ['}'] + rest else [','] + SpeltFields(fields.rest, rest));
  }

  lemma {:induction false} ItemsAreSpelt(s: string, depth: nat, known: seq<Node>) returns (items: Items)
    requires ParseItems(s, depth, known).Got? && depth <= MAX_DEPTH
    ensures ProperItems(items) && depth + ItemsNesting(items) <= MAX_DEPTH
    ensures ParseItems(s, depth, known).value == Array(known + ItemsMeaning(items))
    ensures s == SpeltItems(items, ParseItems(s, depth, known).rest)
    decreases |s|, 2
  {
    hide Spelt, Meaning, Proper, Nesting, ParseValue, Blank, SkipWs;
    var before := SkippedIsBlank(s);
    var value := ValueIsSpelt(SkipWs(s), depth);
    var rest := ParseValue(SkipWs(s), depth).rest;
    var after := SkippedIsBlank(rest);
    var t := SkipWs(rest);
    var item := Item(before, value, after);
    assert t == [t[0]] + t[1..];
    if t[0] == ',' {
      var more := ItemsAreSpelt(t[1..], depth, known + [Meaning(value)]);
      items := MoreItems(item, more);
      assert known + [Meaning(value)] + ItemsMeaning(more) == known + ItemsMeaning(items);
    } else {
      items := LastItem(item);
    }
  }

  lemma KeyIsSpelt(s: string) returns (f: Field)
    requires ParseKey(s).Got?
    ensures Blank(f.before) && ProperUnits(f.key) && Blank(f.left) && Blank(f.right)
    ensures ParseKey(s).value == UnitsMeaning(f.key)
    ensures s == SpeltKey(f, ParseKey(s).rest)
  {
    hide ParseChars, SpeltUnits, UnitsMeaning, ProperUnits, SkipWs;
    var before := SkippedIsBlank(s);
    var t := SkipWs(s);
    var key := CharsAreSpelt(t[1..], "");
    assert "" + UnitsMeaning(key) == UnitsMeaning(key);
    var u := ParseChars(t[1..], "").rest;
    var left := SkippedIsBlank(u);
    var w := SkipWs(u);
    var right := SkippedIsBlank(w[1..]);
    f := Field(before, key, left, right, Word(Null), "");
    assert t == ['"'] + t[1..];
    assert w == [':'] + w[1..];
  }

  lemma {:induction false} MemberIsSpelt(s: string, depth: nat) returns (f: Field)
    requires ParseMember(s, depth).Got? && depth <= MAX_DEPTH
    ensures ProperField(f) && depth + Nesting(f.value) <= MAX_DEPTH && f.after == ""
    ensures ParseMember(s, depth).value == FieldMeaning(f)
    ensures s == SpeltKey(f, Spelt(f.value, ParseMember(s, depth).rest))
    decreases |s|, 0
  {
    hide Spelt, Meaning, Proper, Nesting, ParseValue, ParseKey, UnitsMeaning, Quoted;
    f := KeyIsSpelt(s);
    var value := ValueIsSpelt(ParseKey(s).rest, depth);
    f := Field(f.before, f.key, f.left, f.right, value, "");
  }

  lemma {:induction false} FieldsAreSpelt(s: string, depth: nat, known: seq<Member>) returns (fields: Fields)
    requires ParseMembers(s, depth, known).Got? && depth <= MAX_DEPTH
    ensures ProperFields(fields) && depth + FieldsNesting(fields) <= MAX_DEPTH
    ensures ParseMembers(s, depth, known).value == Object(PutAll(known, FieldsMeaning(fields)))
    ensures s == SpeltFields(fields, ParseMembers(s, depth, known).rest)
    decreases |s|, 1
  {
    hide Spelt, Meaning, Proper, Nesting, ParseMember, Blank, SkipWs, UnitsMeaning, Quoted, Put;
    var g := MemberIsSpelt(s, depth);
    var rest := ParseMember(s, depth).rest;
    var after := SkippedIsBlank(rest);
    var t := SkipWs(rest);
    var f := Field(g.before, g.key, g.left, g.right, g.value, after);
    assert FieldMeaning(f) == FieldMeaning(g);
    assert t == [t[0]] + t[1..];
    var now := Put(known, FieldMeaning(f).key, FieldMeaning(f).value);
    if t[0] == ',' {
      var more := FieldsAreSpelt(t[1..], depth, now);
      fields := MoreFields(f, more);
      assert FieldsMeaning(fields)[1..] == FieldsMeaning(more);
    } else {
      fields := LastField(f);
      assert FieldsMeaning(fields)[1..] == [];
    }
  }

  // -- the theorem ------------------------------------------------------------------

  lemma DocumentParses(d: Document)
    requires ProperDocument(d)
    ensures ParseText(SpeltDocument(d)) == Ok(Meaning(d.value))
  {
    hide Spelt, ParseValue, Meaning, Proper, Nesting;
    AfterBlank(d.before, d.value, d.after);
    assert d.after + "" == d.after;
    ClosedAfter(d.after, "");
    ValueParses(d.value, d.after, 0);
    SkipsBlank(d.after, "");
  }

  lemma ParsedIsSpelt(text: string) returns (d: Document)
    requires ParseText(text).Ok?
    ensures ProperDocument(d) && SpeltDocument(d) == text && Meaning(d.value) == ParseText(text).value
  {
    hide Spelt, ParseValue, Meaning, Proper, Nesting, SkipWs;
    var before := SkippedIsBlank(text);
    var value := ValueIsSpelt(SkipWs(text), 0);
    var rest := ParseValue(SkipWs(text), 0).rest;
    var after := SkippedIsBlank(rest);
    assert rest == after;
    d := Document(before, value, after);
  }

  /** `parse` succeeds exactly on the texts of the grammar, nested at most 129 deep, and
    returns what they say; every failure is a parse error. */
  lemma ParserMeetsGrammar(text: string, node: Node)
    ensures ParseText(text) == Ok(node) <==> Says(text, node)
    ensures ParseText(text).Err? ==> ParseText(text) == Err(Parse)
  {
    hide Proper, SpeltDocument, Meaning, ParseValue;
    if ParseText(text) == Ok(node) {
      var d := ParsedIsSpelt(text);
    }
    if Says(text, node) {
      var d: Document :| ProperDocument(d) && SpeltDocument(d) == text && Meaning(d.value) == node;
      DocumentParses(d);
    }
  }
}
