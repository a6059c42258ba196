/** The cursor-based JSON parser and the loops that walk and render its trees, each proved
  to compute the function of `JsonModel` that the theorems are about. */
module JsonParser {
  import opened Wrappers
  import opened JsonModel

  /** `slots` locates every key of `members`, each of which occurs once. */
  ghost predicate Locates(slots: map<string, nat>, members: seq<Member>) {
    && (forall k :: k in slots ==> slots[k] < |members| && members[slots[k]].key == k)
    && (forall i :: 0 <= i < |members| ==> members[i].key in slots && slots[members[i].key] == i)
  }

  class Parser {
    const text: string
    var at: nat

    ghost predicate Valid()
      reads this
    {
      at <= |text|
    }

    /** The text not yet read. */
    ghost function Rest(): string
      reads this
      requires Valid()
    {
      text[at..]
    }

    /** `r` is what `step` yields, and the cursor stands where `step` leaves off. */
    ghost predicate Took<T>(r: Result<T, Error>, step: Step<T>)
      reads this
    {
      match step
      case Got(value, rest) => r == Ok(value) && Valid() && Rest() == rest
      case Fail => r == Err(Parse)
    }

    constructor (text: string)
      ensures Valid() && this.text == text && Rest() == text
    {
      this.text := text;
      at := 0;
    }

    predicate Sees(c: char)
      reads this
    {
      at < |text| && text[at] == c
    }

    predicate SeesDigit()
      reads this
    {
      at < |text| && IsDigit(text[at])
    }

    method Skip()
      requires Valid()
      modifies this
      ensures Valid() && Rest() == SkipWs(old(Rest())) && at >= old(at)
    {
      while at < |text| && IsWs(text[at])
        invariant Valid() && at >= old(at)
        invariant SkipWs(Rest()) == SkipWs(old(Rest()))
        decreases |text| - at
      {
        at := at + 1;
      }
    }

    method Eat(c: char) returns (eaten: bool)
      requires Valid()
      modifies this
      ensures Valid() && eaten == Starts(old(Rest()), c)
      ensures Rest() == if eaten then old(Rest())[1..] else old(Rest())
      ensures at == if eaten then old(at) + 1 else old(at)
    {
      eaten := Sees(c);
      if eaten {
        at := at + 1;
      }
    }

    method TakeDigits()
      requires Valid()
      modifies this
      ensures Valid() && Rest() == SkipDigits(old(Rest())) && at >= old(at)
    {
      while SeesDigit()
        invariant Valid() && at >= old(at)
        invariant SkipDigits(Rest()) == SkipDigits(old(Rest()))
        decreases |text| - at
      {
        at := at + 1;
      }
    }

    method TakeLiteral(word: string, node: Node) returns (r: Result<Node, Error>)
      requires Valid()
      modifies this
      ensures Took(r, Literal(old(Rest()), word, node))
    {
      if word <= text[at..] {
        at := at + |word|;
        r := Ok(node);
      } else {
        r := Err(Parse);
      }
    }

    method TakeFraction() returns (ok: bool)
      requires Valid()
      modifies this
      ensures Valid() && at >= old(at) && ok == Fraction(old(Rest())).Some?
      ensures ok ==> Rest() == Fraction(old(Rest())).value
    {
      var dot := Eat('.');
      if dot {
        if !SeesDigit() {
          return false;
        }
        TakeDigits();
      }
      ok := true;
    }

    method TakeExponent() returns (ok: bool)
      requires Valid()
      modifies this
      ensures Valid() && at >= old(at) && ok == Exponent(old(Rest())).Some?
      ensures ok ==> Rest() == Exponent(old(Rest())).value
    {
      hide SkipDigits;
      ghost var s := Rest();
      if Sees('e') || Sees('E') {
        at := at + 1;
        assert Rest() == s[1..];
        if Sees('+') || Sees('-') {
          at := at + 1;
          assert Rest() == s[2..];
        }
        if !SeesDigit() {
          return false;
        }
        TakeDigits();
      }
      ok := true;
    }

    method TakeNumber() returns (r: Result<Node, Error>)
      requires Valid()
      modifies this
      ensures Took(r, ParseNumber(old(Rest())))
    {
      hide SkipDigits, Fraction, Exponent;
      var start := at;
      var minus := Eat('-');
      ghost var s := Rest();
      if Sees('0') {
        at := at + 1;
      } else if SeesDigit() {
        at := at + 1;
        TakeDigits();
      } else {
        return Err(Parse);
      }
      assert Whole(s) == Some(Rest());
      var fraction := TakeFraction();
      if !fraction {
        return Err(Parse);
      }
      var exponent := TakeExponent();
      if !exponent {
        return Err(Parse);
      }
      assert text[start..][..at - start] == text[start..at];
      r := Ok(Num(text[start..at]));
    }

    method TakeHex4() returns (r: Result<nat, Error>)
      requires Valid()
      modifies this
      ensures Took(r, Hex4(old(Rest()))) && at >= old(at)
    {
      var end := at + 4;
      if end > |text| || !IsHex4(text[at..end]) {
        return Err(Parse);
      }
      assert text[at..][..4] == text[at..end];
      r := Ok(HexValue(text[at..end]));
      at := end;
    }

    method TakeUnicode() returns (r: Result<char, Error>)
      requires Valid()
      modifies this
      ensures Took(r, ParseUnicode(old(Rest())))
    {
      hide Hex4;
      var first := TakeHex4();
      if first.Err? || IsLow(first.value) {
        return Err(Parse);
      }
      if !IsHigh(first.value) {
        return Ok(first.value as char);
      }
      var slash := Eat('\\');
      if !slash {
        return Err(Parse);
      }
      var mark := Eat('u');
      if !mark {
        return Err(Parse);
      }
      var second := TakeHex4();
      if second.Err? || !IsLow(second.value) {
        return Err(Parse);
      }
      r := Ok(Combined(first.value, second.value));
    }

    method TakeEscape() returns (r: Result<char, Error>)
      requires Valid()
      modifies this
      ensures Took(r, ParseEscape(old(Rest())))
    {
      if at == |text| {
        return Err(Parse);
      }
      var c := text[at];
      at := at + 1;
      if c == 'u' {
        r := TakeUnicode();
      } else {
        match ShortEscape(c) {
          case Some(plain) => r := Ok(plain);
          case None => r := Err(Parse);
        }
      }
    }

    /** From the opening quote on. */
    method TakeString() returns (r: Result<string, Error>)
      requires Valid() && Sees('"')
      modifies this
      ensures Took(r, ParseChars(old(Rest())[1..], ""))
    {
      hide ParseEscape;
      ghost var start := ParseChars(Rest()[1..], "");
      at := at + 1;
      var out := "";
      while true
        invariant Valid() && ParseChars(Rest(), out) == start
        decreases |text| - at
      {
        if at == |text| {
          return Err(Parse);
        }
        var c := text[at];
        if c == '"' {
          at := at + 1;
          return Ok(out);
        } else if c == '\\' {
          at := at + 1;
          var escaped := TakeEscape();
          if escaped.Err? {
            return Err(Parse);
          }
          out := out + [escaped.value];
        } else if c as int < 0x20 {
          return Err(Parse);
        } else {
          out := out + [c];
          at := at + 1;
        }
      }
    }

    method TakeValue(depth: nat) returns (r: Result<Node, Error>)
      requires Valid()
      modifies this
      ensures Took(r, ParseValue(old(Rest()), depth))
      decreases |text| - at, 1
    {
      hide ParseObject, ParseArray, ParseNumber, ParseChars;
      if at == |text| {
        return Err(Parse);
      }
      var c := text[at];
      if c == '{' {
        r := TakeObject(depth + 1);
      } else if c == '[' {
        r := TakeArray(depth + 1);
      } else if c == '"' {
        var s := TakeString();
        r := if s.Ok? then Ok(Str(s.value)) else Err(Parse);
      } else if c == 't' {
        r := TakeLiteral("true", Bool(true));
      } else if c == 'f' {
        r := TakeLiteral("false", Bool(false));
      } else if c == 'n' {
        r := TakeLiteral("null", Null);
      } else if c == '-' || IsDigit(c) {
        r := TakeNumber();
      } else {
        r := Err(Parse);
      }
    }

    method TakeKey() returns (r: Result<string, Error>)
      requires Valid()
      modifies this
      ensures Took(r, ParseKey(old(Rest())))
    {
      hide ParseChars, SkipWs;
      Skip();
      if !Sees('"') {
        return Err(Parse);
      }
      r := TakeString();
      if r.Err? {
        return;
      }
      Skip();
      var colon := Eat(':');
      if !colon {
        return Err(Parse);
      }
      Skip();
    }

    method TakeObject(depth: nat) returns (r: Result<Node, Error>)
      requires Valid() && Sees('{')
      modifies this
      ensures Took(r, ParseObject(old(Rest()), depth))
      decreases |text| - at, 0
    {
      hide ParseMember, ParseKey, ParseValue, SkipWs, Put, Locates;
      if depth > MAX_DEPTH {
        return Err(Parse);
      }
      at := at + 1;
      var members: seq<Member> := [];
      var slots: map<string, nat> := map[];
      assert Locates(slots, members) by { NothingLocated(); }
      Skip();
      var empty := Eat('}');
      if empty {
        return Ok(Object(members));
      }
      ghost var start := ParseMembers(Rest(), depth, members);
      while true
        invariant Valid() && at > old(at) && Locates(slots, members)
        invariant ParseMembers(Rest(), depth, members) == start
        decreases |text| - at
      {
        ghost var s := Rest();
        var key := TakeKey();
        if key.Err? {
          KeyIsNeeded(s, depth);
          return Err(Parse);
        }
        var value := TakeValue(depth);
        MemberIsKeyThenValue(s, depth);
        if value.Err? {
          return Err(Parse);
        }
        members, slots := Place(members, slots, key.value, value.value);
        Skip();
        var comma := Eat(',');
        if comma {
          continue;
        }
        var close := Eat('}');
        if close {
          return Ok(Object(members));
        }
        return Err(Parse);
      }
    }

    static method Place(members: seq<Member>, slots: map<string, nat>, key: string, value: Node)
        returns (m: seq<Member>, s: map<string, nat>)
      requires Locates(slots, members)
      ensures m == Put(members, key, value) && Locates(s, m)
    {
      if key in slots {
        m, s := members[slots[key] := Member(key, value)], slots;
      } else {
        m, s := members + [Member(key, value)], slots[key := |members|];
      }
    }

    method TakeArray(depth: nat) returns (r: Result<Node, Error>)
      requires Valid() && Sees('[')
      modifies this
      ensures Took(r, ParseArray(old(Rest()), depth))
      decreases |text| - at, 0
    {
      hide ParseValue, SkipWs;
      if depth > MAX_DEPTH {
        return Err(Parse);
      }
      at := at + 1;
      var items: seq<Node> := [];
      Skip();
      var empty := Eat(']');
      if empty {
        return Ok(Array(items));
      }
      ghost var start := ParseItems(Rest(), depth, items);
      while true
        invariant Valid() && at > old(at)
        invariant ParseItems(Rest(), depth, items) == start
        decreases |text| - at
      {
        Skip();
        var item := TakeValue(depth);
        if item.Err? {
          return Err(Parse);
        }
        items := items + [item.value];
        Skip();
        var comma := Eat(',');
        if comma {
          continue;
        }
        var close := Eat(']');
        if close {
          return Ok(Array(items));
        }
        return Err(Parse);
      }
    }
  }

  lemma NothingLocated()
    ensures Locates(map[], [])
  {
  }

  lemma KeyIsNeeded(s: string, depth: nat)
    requires ParseKey(s).Fail?
    ensures ParseMember(s, depth).Fail?
  {
  }

  lemma MemberIsKeyThenValue(s: string, depth: nat)
    requires ParseKey(s).Got?
    ensures ParseMember(s, depth) == match ParseValue(ParseKey(s).rest, depth) {
              case Got(value, rest) => Got(Member(ParseKey(s).value, value), rest)
              case Fail => Fail }
  {
  }

  method ParseAll(text: string) returns (r: Result<Node, Error>)
    ensures r == ParseText(text)
  {
    hide ParseValue, SkipWs;
    var parser := new Parser(text);
    parser.Skip();
    r := parser.TakeValue(0);
    if r.Err? {
      return;
    }
    parser.Skip();
    if parser.at != |text| {
      return Err(Parse);
    }
  }

  /** Follows the segments of a nonempty path from the root. */
  method Follow(root: Node, path: string) returns (r: Result<Node, Error>)
    ensures r == Resolve(root, path)
  {
    if path == "" {
      return Ok(root);
    }
    var node := root;
    var segments := Split(path);
    var i := 0;
    while i < |segments|
      invariant 0 <= i <= |segments|
      invariant Walk(node, segments[i..]) == Walk(root, segments)
    {
      assert segments[i..][1..] == segments[i + 1..];
      match Child(node, segments[i]) {
        case None => return Err(Missing);
        case Some(next) => node := next;
      }
      i := i + 1;
    }
    r := Ok(node);
  }

  lemma {:induction false} EncodeSnoc(s: string, c: char)
    ensures EncodeChars(s + [c]) == EncodeChars(s) + EncodeChar(c)
  {
    if s == "" {
      assert ("" + [c])[1..] == "";
    } else {
      assert (s + [c])[1..] == s[1..] + [c];
      EncodeSnoc(s[1..], c);
    }
  }

  /** Appends `s` to the buffer as a JSON string. */
  method Encode(s: string, out: string) returns (r: string)
    ensures r == out + EncodeStr(s)
  {
    hide EncodeChar;
    r := out + "\"";
    var i := 0;
    while i < |s|
      invariant 0 <= i <= |s|
      invariant r == out + "\"" + EncodeChars(s[..i])
    {
      EncodeSnoc(s[..i], s[i]);
      assert s[..i + 1] == s[..i] + [s[i]];
      r := r + EncodeChar(s[i]);
      i := i + 1;
    }
    assert s[..i] == s;
    r := r + "\"";
  }

  /** Appends `node` to the buffer with no whitespace. */
  method Write(node: Node, out: string) returns (r: string)
    ensures r == out + Compact(node)
    decreases node, 1
  {
    match node
    case Object(members) => r := WriteMembers(members, out + "{");
                            r := r + "}";
    case Array(items) => r := WriteItems(items, out + "[");
                         r := r + "]";
    case Str(text) => r := Encode(text, out);
    case Num(spelling) => r := out + spelling;
    case Bool(truth) => r := out + if truth then "true" else "false";
    case Null => r := out + "null";
  }

  lemma {:induction false} ItemsSnoc(items: seq<Node>, item: Node)
    requires items != []
    ensures CompactItems(items + [item]) == CompactItems(items) + "," + Compact(item)
    decreases |items|
  {
    var all := items + [item];
    assert all[1..] == items[1..] + [item];
    if |items| > 1 {
      ItemsSnoc(items[1..], item);
    }
  }

  lemma {:induction false} MembersSnoc(members: seq<Member>, m: Member)
    requires members != []
    ensures CompactMembers(members + [m]) == CompactMembers(members) + "," + CompactMember(m)
    decreases |members|
  {
    var all := members + [m];
    assert all[1..] == members[1..] + [m];
    if |members| > 1 {
      MembersSnoc(members[1..], m);
    }
  }

  function ItemsText(items: seq<Node>): string {
    if items == [] then "" else CompactItems(items)
  }

  function MembersText(members: seq<Member>): string {
    if members == [] then "" else CompactMembers(members)
  }

  method WriteItems(items: seq<Node>, out: string) returns (r: string)
    ensures r == out + ItemsText(items)
    decreases items, 0
  {
    hide Compact;
    r := out;
    var i := 0;
    while i < |items|
      invariant 0 <= i <= |items|
      invariant r == out + ItemsText(items[..i])
    {
      assert items[..i + 1] == items[..i] + [items[i]];
      if i > 0 {
        ItemsSnoc(items[..i], items[i]);
        r := r + ",";
      }
      r := Write(items[i], r);
      i := i + 1;
    }
    assert items[..i] == items;
  }

  method WriteMembers(members: seq<Member>, out: string) returns (r: string)
    ensures r == out + MembersText(members)
    decreases members, 0
  {
    hide Compact, EncodeStr;
    r := out;
    var i := 0;
    while i < |members|
      invariant 0 <= i <= |members|
      invariant r == out + MembersText(members[..i])
    {
      ghost var m := members[i];
      assert members[..i + 1] == members[..i] + [m];
      if i > 0 {
        MembersSnoc(members[..i], m);
        r := r + ",";
      }
      ghost var before := r;
      r := Encode(members[i].key, r);
      r := r + ":";
      r := Write(members[i].value, r);
      assert r == before + CompactMember(m);
      i := i + 1;
    }
    assert members[..i] == members;
  }

  /** `json_get`: the value at `path`, rendered. */
  method GetAt(text: string, path: string) returns (r: Result<string, Error>)
    ensures r == Get(text, path)
  {
    hide ParseText, Resolve, Compact;
    var root := ParseAll(text);
    if root.Err? {
      return Err(root.error);
    }
    var found := Follow(root.value, path);
    if found.Err? {
      return Err(found.error);
    }
    match found.value
    case Str(s) => r := Ok(s);
    case Num(spelling) => r := Ok(spelling);
    case Bool(truth) => r := Ok(if truth then "true" else "false");
    case Null => r := Ok("null");
    case _ =>
      if path == "" {
        r := Ok(Trim(text));
      } else {
        var out := Write(found.value, "");
        assert "" + Compact(found.value) == Compact(found.value);
        r := Ok(out);
      }
  }

  /** `json_len`: how many elements or distinct keys. */
  method LenAt(text: string, path: string) returns (r: Result<nat, Error>)
    ensures r == Len(text, path)
  {
    hide ParseText, Resolve;
    var root := ParseAll(text);
    if root.Err? {
      return Err(root.error);
    }
    var found := Follow(root.value, path);
    match found
    case Err(e) => r := Err(e);
    case Ok(Array(items)) => r := Ok(|items|);
    case Ok(Object(members)) => r := Ok(|members|);
    case Ok(_) => r := Err(Kind);
  }
}
