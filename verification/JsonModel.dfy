/** The `json_*` kernels as functions on text.

  A text is a sequence of Unicode scalars and a parse step works on the unread suffix.
  The parser object of `JsonParser` is proved to compute these functions, and
  `JsonGrammar` and `JsonQuery` prove what they mean. */
module JsonModel {
  import opened Wrappers

  datatype Error = Parse | Missing | Kind

  datatype Member = Member(key: string, value: Node)

  /** One parsed value; a number is kept as its source spelling. */
  datatype Node =
    | Object(members: seq<Member>)
    | Array(items: seq<Node>)
    | Str(text: string)
    | Num(spelling: string)
    | Bool(truth: bool)
    | Null

  /** What one parse step makes of the unread text: a value and the text left after it. */
  datatype Step<+T> = Got(value: T, rest: string) | Fail

  const MAX_DEPTH := 129

  // -- characters -----------------------------------------------------------------

  predicate IsWs(c: char) {
    c == ' ' || c == '\t' || c == '\n' || c == '\r'
  }

  predicate IsDigit(c: char) {
    '0' <= c <= '9'
  }

  predicate IsHex(c: char) {
    IsDigit(c) || 'a' <= c <= 'f' || 'A' <= c <= 'F'
  }

  function HexDigit(c: char): (d: nat)
    requires IsHex(c)
    ensures d < 16
  {
    if IsDigit(c) then c as int - '0' as int
    else if 'a' <= c <= 'f' then c as int - 'a' as int + 10
    else c as int - 'A' as int + 10
  }

  function SkipWs(s: string): (r: string)
    ensures |r| <= |s|
  {
    if s != "" && IsWs(s[0]) then SkipWs(s[1..]) else s
  }

  function SkipDigits(s: string): (r: string)
    ensures |r| <= |s|
  {
    if s != "" && IsDigit(s[0]) then SkipDigits(s[1..]) else s
  }

  predicate Starts(s: string, c: char) {
    s != "" && s[0] == c
  }

  // -- numbers --------------------------------------------------------------------

  function Whole(s: string): (r: Option<string>)
    ensures r.Some? ==> |r.value| < |s|
  {
    if Starts(s, '0') then Some(s[1..])
    else if s != "" && IsDigit(s[0]) then Some(SkipDigits(s[1..]))
    else None
  }

  function Fraction(s: string): (r: Option<string>)
    ensures r.Some? ==> |r.value| <= |s|
  {
    if !Starts(s, '.') then Some(s)
    else if |s| > 1 && IsDigit(s[1]) then Some(SkipDigits(s[1..]))
    else None
  }

  function Exponent(s: string): (r: Option<string>)
    ensures r.Some? ==> |r.value| <= |s|
  {
    if !Starts(s, 'e') && !Starts(s, 'E') then Some(s)
    else
      var t := if Starts(s[1..], '+') || Starts(s[1..], '-') then s[2..] else s[1..];
      if t != "" && IsDigit(t[0]) then Some(SkipDigits(t)) else None
  }

  function AfterNumber(s: string): (r: Option<string>)
    ensures r.Some? ==> |r.value| < |s|
  {
    match Whole(if Starts(s, '-') then s[1..] else s)
    case None => None
    case Some(t) =>
      match Fraction(t)
      case None => None
      case Some(u) => Exponent(u)
  }

  function ParseNumber(s: string): (r: Step<Node>)
    ensures r.Got? ==> |r.rest| < |s|
  {
    match AfterNumber(s)
    case None => Fail
    case Some(rest) => Got(Num(s[..|s| - |rest|]), rest)
  }

  // -- strings --------------------------------------------------------------------

  /** Radix-16 reading of four characters; a leading plus sign is let through. */
  predicate IsHex4(h: string) {
    |h| == 4 && (IsHex(h[0]) || h[0] == '+') && IsHex(h[1]) && IsHex(h[2]) && IsHex(h[3])
  }

  function HexValue(h: string): (n: nat)
    requires IsHex4(h)
    ensures n < 0x10000
  {
    (if h[0] == '+' then 0 else HexDigit(h[0])) * 0x1000
    + HexDigit(h[1]) * 0x100 + HexDigit(h[2]) * 0x10 + HexDigit(h[3])
  }

  function Hex4(s: string): (r: Step<nat>)
    ensures r.Got? ==> |r.rest| < |s| && r.value < 0x10000
  {
    if |s| >= 4 && IsHex4(s[..4]) then Got(HexValue(s[..4]), s[4..]) else Fail
  }

  predicate IsHigh(n: nat) {
    0xD800 <= n <= 0xDBFF
  }

  predicate IsLow(n: nat) {
    0xDC00 <= n <= 0xDFFF
  }

  function Combined(high: nat, low: nat): (c: char)
    requires IsHigh(high) && IsLow(low)
  {
    (0x10000 + (high - 0xD800) * 0x400 + (low - 0xDC00)) as char
  }

  /** The character a short escape stands for. */
  function ShortEscape(c: char): Option<char> {
    match c
    case '"' => Some('"')
    case '\\' => Some('\\')
    case '/' => Some('/')
    case 'b' => Some(8 as char)
    case 'f' => Some(12 as char)
    case 'n' => Some('\n')
    case 'r' => Some('\r')
    case 't' => Some('\t')
    case _ => None
  }

  /** The text after `\u`. */
  function ParseUnicode(s: string): (r: Step<char>)
    ensures r.Got? ==> |r.rest| < |s|
  {
    match Hex4(s)
    case Fail => Fail
    case Got(first, t) =>
      if IsLow(first) then Fail
      else if !IsHigh(first) then Got(first as char, t)
      else if !Starts(t, '\\') || !Starts(t[1..], 'u') then Fail
      else
        match Hex4(t[2..])
        case Fail => Fail
        case Got(second, u) => if IsLow(second) then Got(Combined(first, second), u) else Fail
  }

  /** The text after a backslash. */
  function ParseEscape(s: string): (r: Step<char>)
    ensures r.Got? ==> |r.rest| < |s|
  {
    if s == "" then Fail
    else if s[0] == 'u' then ParseUnicode(s[1..])
    else
      match ShortEscape(s[0])
      case Some(c) => Got(c, s[1..])
      case None => Fail
  }

  /** The text after the opening quote, `out` being what is decoded already. */
  function ParseChars(s: string, out: string): (r: Step<string>)
    ensures r.Got? ==> |r.rest| < |s|
    decreases |s|
  {
    if s == "" then Fail
    else if s[0] == '"' then Got(out, s[1..])
    else if s[0] == '\\' then
      match ParseEscape(s[1..])
      case Fail => Fail
      case Got(c, rest) => ParseChars(rest, out + [c])
    else if s[0] as int < 0x20 then Fail
    else ParseChars(s[1..], out + [s[0]])
  }

  // -- values ---------------------------------------------------------------------

  function Literal(s: string, word: string, node: Node): (r: Step<Node>)
    ensures r.Got? ==> |r.rest| == |s| - |word|
  {
    if word <= s then Got(node, s[|word|..]) else Fail
  }

  function Slot(members: seq<Member>, key: string): (r: Option<nat>)
    ensures r.Some? ==> r.value < |members| && members[r.value].key == key
    ensures r.None? ==> forall i :: 0 <= i < |members| ==> members[i].key != key
  {
    if members == [] then None
    else if members[|members| - 1].key == key then Some(|members| - 1)
    else Slot(members[..|members| - 1], key)
  }

  /** Overwrites the value of a known key in place, or appends a new member. */
  function Put(members: seq<Member>, key: string, value: Node): (r: seq<Member>)
  {
    match Slot(members, key)
    case Some(i) => members[i := Member(key, value)]
    case None => members + [Member(key, value)]
  }

  function ParseValue(s: string, depth: nat): (r: Step<Node>)
    ensures r.Got? ==> |r.rest| < |s|
    decreases |s|, 1
  {
    if s == "" then Fail
    else if s[0] == '{' then ParseObject(s, depth + 1)
    else if s[0] == '[' then ParseArray(s, depth + 1)
    else if s[0] == '"' then
      match ParseChars(s[1..], "")
      case Fail => Fail
      case Got(text, rest) => Got(Str(text), rest)
    else if s[0] == 't' then Literal(s, "true", Bool(true))
    else if s[0] == 'f' then Literal(s, "false", Bool(false))
    else if s[0] == 'n' then Literal(s, "null", Null)
    else if s[0] == '-' || IsDigit(s[0]) then ParseNumber(s)
    else Fail
  }

  function ParseObject(s: string, depth: nat): (r: Step<Node>)
    requires s != ""
    ensures r.Got? ==> |r.rest| < |s|
    decreases |s|, 0
  {
    if depth > MAX_DEPTH then Fail
    else
      var t := SkipWs(s[1..]);
      if Starts(t, '}') then Got(Object([]), t[1..]) else ParseMembers(t, depth, [])
  }

  function ParseMembers(s: string, depth: nat, members: seq<Member>): (r: Step<Node>)
    ensures r.Got? ==> |r.rest| < |s|
    decreases |s|, 1
  {
    match ParseMember(s, depth)
    case Fail => Fail
    case Got(m, rest) =>
      var now := Put(members, m.key, m.value);
      var t := SkipWs(rest);
      if Starts(t, ',') then ParseMembers(t[1..], depth, now)
      else if Starts(t, '}') then Got(Object(now), t[1..])
      else Fail
  }

  function ParseMember(s: string, depth: nat): (r: Step<Member>)
    ensures r.Got? ==> |r.rest| < |s|
    decreases |s|, 0
  {
    match ParseKey(s)
    case Fail => Fail
    case Got(key, t) =>
      match ParseValue(t, depth)
      case Fail => Fail
      case Got(value, rest) => Got(Member(key, value), rest)
  }

  /** A member up to the first character of its value. */
  function ParseKey(s: string): (r: Step<string>)
    ensures r.Got? ==> |r.rest| < |s|
  {
    var t := SkipWs(s);
    if !Starts(t, '"') then Fail
    else
      match ParseChars(t[1..], "")
      case Fail => Fail
      case Got(key, u) =>
        var v := SkipWs(u);
        if Starts(v, ':') then Got(key, SkipWs(v[1..])) else Fail
  }

  function ParseArray(s: string, depth: nat): (r: Step<Node>)
    requires s != ""
    ensures r.Got? ==> |r.rest| < |s|
    decreases |s|, 0
  {
    if depth > MAX_DEPTH then Fail
    else
      var t := SkipWs(s[1..]);
      if Starts(t, ']') then Got(Array([]), t[1..]) else ParseItems(t, depth, [])
  }

  function ParseItems(s: string, depth: nat, items: seq<Node>): (r: Step<Node>)
    ensures r.Got? ==> |r.rest| < |s|
    decreases |s|, 2
  {
    match ParseValue(SkipWs(s), depth)
    case Fail => Fail
    case Got(item, rest) =>
      var t := SkipWs(rest);
      if Starts(t, ',') then ParseItems(t[1..], depth, items + [item])
      else if Starts(t, ']') then Got(Array(items + [item]), t[1..])
      else Fail
  }

  /** One value with nothing but whitespace around it. */
  function ParseText(text: string): (r: Result<Node, Error>)
  {
    match ParseValue(SkipWs(text), 0)
    case Fail => Err(Parse)
    case Got(node, rest) => if SkipWs(rest) == "" then Ok(node) else Err(Parse)
  }

  // -- rendering ------------------------------------------------------------------

  function LowerHex(d: nat): (c: char)
    requires d < 16
    ensures IsHex(c) && HexDigit(c) == d && c != '+'
  {
    if d < 10 then ('0' as int + d) as char else ('a' as int + (d - 10)) as char
  }

  function EncodeChar(c: char): string {
    if c == '"' then "\\\""
    else if c == '\\' then "\\\\"
    else if c == '\t' then "\\t"
    else if c == '\n' then "\\n"
    else if c == '\r' then "\\r"
    else if c as int < 0x20 then "\\u00" + [LowerHex(c as int / 16), LowerHex(c as int % 16)]
    else [c]
  }

  function EncodeChars(s: string): string {
    if s == "" then "" else EncodeChar(s[0]) + EncodeChars(s[1..])
  }

  function EncodeStr(s: string): string {
    "\"" + EncodeChars(s) + "\""
  }

  function Compact(node: Node): string
    decreases node, 0
  {
    match node
    case Object(members) => if members == [] then "{}" else "{" + CompactMembers(members) + "}"
    case Array(items) => if items == [] then "[]" else "[" + CompactItems(items) + "]"
    case Str(text) => EncodeStr(text)
    case Num(spelling) => spelling
    case Bool(truth) => if truth then "true" else "false"
    case Null => "null"
  }

  function CompactMember(member: Member): string
    decreases member, 1
  {
    EncodeStr(member.key) + ":" + Compact(member.value)
  }

  function CompactMembers(members: seq<Member>): string
    requires members != []
    decreases members, 2
  {
    if |members| == 1 then CompactMember(members[0])
    else CompactMember(members[0]) + "," + CompactMembers(members[1..])
  }

  function CompactItems(items: seq<Node>): string
    requires items != []
    decreases items, 2
  {
    if |items| == 1 then Compact(items[0])
    else Compact(items[0]) + "," + CompactItems(items[1..])
  }

  // -- paths ----------------------------------------------------------------------

  predicate AllDigits(s: string) {
    forall i :: 0 <= i < |s| ==> IsDigit(s[i])
  }

  function Decimal(s: string): nat
    requires AllDigits(s)
  {
    if s == "" then 0 else Decimal(s[..|s| - 1]) * 10 + (s[|s| - 1] as int - '0' as int)
  }

  const USIZE := 0x1_0000_0000_0000_0000

  /** The array slot a segment names, in a 64-bit index. */
  function Index(segment: string): Option<nat> {
    if segment != "" && AllDigits(segment) && Decimal(segment) < USIZE then Some(Decimal(segment)) else None
  }

  function Find(members: seq<Member>, key: string): (r: Option<Node>)
  {
    if members == [] then None
    else if members[0].key == key then Some(members[0].value)
    else Find(members[1..], key)
  }

  function Child(node: Node, segment: string): (r: Option<Node>)
  {
    match node
    case Array(items) =>
      (match Index(segment)
       case Some(i) => if i < |items| then Some(items[i]) else None
       case None => None)
    case Object(members) => Find(members, segment)
    case _ => None
  }

  /** The dot-separated segments; there is always at least one. */
  function Split(path: string): (r: seq<string>)
    ensures r != []
    decreases |path|
  {
    if path == "" then [""]
    else
      var rest := Split(path[1..]);
      if path[0] == '.' then [""] + rest else [[path[0]] + rest[0]] + rest[1..]
  }

  function Walk(node: Node, segments: seq<string>): Option<Node>
    decreases |segments|
  {
    if segments == [] then Some(node)
    else
      match Child(node, segments[0])
      case None => None
      case Some(next) => Walk(next, segments[1..])
  }

  function Resolve(root: Node, path: string): Result<Node, Error> {
    if path == "" then Ok(root)
    else
      match Walk(root, Split(path))
      case Some(node) => Ok(node)
      case None => Err(Missing)
  }

  function TrimEnd(s: string): string {
    if s != "" && IsWs(s[|s| - 1]) then TrimEnd(s[..|s| - 1]) else s
  }

  function Trim(s: string): string {
    TrimEnd(SkipWs(s))
  }

  predicate IsContainer(node: Node) {
    node.Object? || node.Array?
  }

  function Rendered(node: Node, text: string, path: string): string {
    match node
    case Str(s) => s
    case Num(spelling) => spelling
    case Bool(truth) => if truth then "true" else "false"
    case Null => "null"
    case _ => if path == "" then Trim(text) else Compact(node)
  }

  function Lookup(text: string, path: string): Result<Node, Error> {
    match ParseText(text)
    case Err(e) => Err(e)
    case Ok(root) => Resolve(root, path)
  }

  predicate Valid(text: string) {
    ParseText(text).Ok?
  }

  function Get(text: string, path: string): Result<string, Error> {
    match Lookup(text, path)
    case Err(e) => Err(e)
    case Ok(node) => Ok(Rendered(node, text, path))
  }

  function KindOf(text: string, path: string): Result<string, Error> {
    match Lookup(text, path)
    case Err(e) => Err(e)
    case Ok(node) =>
      Ok(match node
         case Object(_) => "object"
         case Array(_) => "array"
         case Str(_) => "str"
         case Num(_) => "num"
         case Bool(_) => "bool"
         case Null => "null")
  }

  function Len(text: string, path: string): Result<nat, Error> {
    match Lookup(text, path)
    case Err(e) => Err(e)
    case Ok(Object(members)) => Ok(|members|)
    case Ok(Array(items)) => Ok(|items|)
    case Ok(_) => Err(Kind)
  }
}
