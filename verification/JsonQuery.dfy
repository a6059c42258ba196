/** What the `json_*` queries promise: members are keyed once, strings decode what was
  encoded, compact text parses to the tree it renders, and queries compose. */
module JsonQuery {
  import opened Wrappers
  import opened JsonModel
  import opened JsonGrammar

  // -- repeated member names --------------------------------------------------------

  function LastOf(raw: seq<Member>, key: string): Option<Node> {
    if raw == [] then None
    else if raw[|raw| - 1].key == key then Some(raw[|raw| - 1].value)
    else LastOf(raw[..|raw| - 1], key)
  }

  /** Where `key` first appears, or the end. */
  function FirstAt(raw: seq<Member>, key: string): (n: nat)
    ensures n <= |raw| && (n < |raw| ==> raw[n].key == key)
    ensures forall i :: 0 <= i < n ==> raw[i].key != key
  {
    if raw == [] then 0
    else
      var n := FirstAt(raw[..|raw| - 1], key);
      if n < |raw| - 1 || raw[|raw| - 1].key == key then n else |raw|
  }

  predicate DistinctKeys(members: seq<Member>) {
    forall i, j :: 0 <= i < j < |members| ==> members[i].key != members[j].key
  }

  predicate InOrder(members: seq<Member>, raw: seq<Member>) {
    forall i, j :: 0 <= i < j < |members| ==> FirstAt(raw, members[i].key) < FirstAt(raw, members[j].key)
  }

  predicate LastValues(members: seq<Member>, raw: seq<Member>) {
    forall i :: 0 <= i < |members| ==> LastOf(raw, members[i].key) == Some(members[i].value)
  }

  predicate KeepsEvery(members: seq<Member>, raw: seq<Member>) {
    forall k :: 0 <= k < |raw| ==> Slot(members, raw[k].key).Some?
  }

  lemma {:induction false} PutAllSnoc(members: seq<Member>, raw: seq<Member>, m: Member)
    ensures PutAll(members, raw + [m]) == Put(PutAll(members, raw), m.key, m.value)
    decreases |raw|
  {
    if raw == [] {
      assert ([] + [m])[1..] == [];
    } else {
      assert (raw + [m])[1..] == raw[1..] + [m];
      PutAllSnoc(Put(members, raw[0].key, raw[0].value), raw[1..], m);
    }
  }

  lemma {:induction false} LastOfOccurs(raw: seq<Member>, key: string)
    ensures LastOf(raw, key).Some? <==> FirstAt(raw, key) < |raw|
  {
    if raw != [] {
      LastOfOccurs(raw[..|raw| - 1], key);
    }
  }

  /** One entry per distinct key, in the order the keys first appear, each with its last value. */
  lemma {:induction false} RepeatedKeysCollapse(raw: seq<Member>)
    ensures Collapses(PutAll([], raw), raw)
    decreases |raw|
  {
    if raw != [] {
      var done, m := raw[..|raw| - 1], raw[|raw| - 1];
      assert raw == done + [m];
      RepeatedKeysCollapse(done);
      PutAllSnoc([], done, m);
      var members := PutAll([], done);
      if Slot(members, m.key).Some? {
        PutInPlace(members, done, m);
      } else {
        PutAtEnd(members, done, m);
      }
    }
  }

  ghost predicate Collapses(members: seq<Member>, raw: seq<Member>) {
    DistinctKeys(members) && InOrder(members, raw) && LastValues(members, raw) && KeepsEvery(members, raw)
  }

  lemma FirstAtSnoc(raw: seq<Member>, m: Member, key: string)
    ensures FirstAt(raw, key) < |raw| ==> FirstAt(raw + [m], key) == FirstAt(raw, key)
    ensures FirstAt(raw, key) == |raw| && m.key == key ==> FirstAt(raw + [m], key) == |raw|
    ensures LastOf(raw + [m], key) == if m.key == key then Some(m.value) else LastOf(raw, key)
  {
    assert (raw + [m])[..|raw|] == raw;
  }

  lemma SlotSurvives(members: seq<Member>, m: Member, key: string)
    requires key == m.key || Slot(members, key).Some?
    ensures Slot(Put(members, m.key, m.value), key).Some?
  {
    var now := Put(members, m.key, m.value);
    var at := Slot(members, key).GetOr(|members|);
    assert now[at].key == key;
  }

  lemma EveryOneIsKept(members: seq<Member>, raw: seq<Member>, m: Member)
    requires KeepsEvery(members, raw)
    ensures KeepsEvery(Put(members, m.key, m.value), raw + [m])
  {
    hide Put, Slot;
    var all := raw + [m];
    forall k | 0 <= k < |all| ensures Slot(Put(members, m.key, m.value), all[k].key).Some? {
      SlotSurvives(members, m, all[k].key);
    }
  }

  lemma PutInPlace(members: seq<Member>, raw: seq<Member>, m: Member)
    requires Collapses(members, raw) && Slot(members, m.key).Some?
    ensures Collapses(Put(members, m.key, m.value), raw + [m])
  {
    hide FirstAt, LastOf, Slot;
    EveryOneIsKept(members, raw, m);
    forall i | 0 <= i < |members| ensures FirstAt(raw, members[i].key) < |raw| {
      LastOfOccurs(raw, members[i].key);
    }
    forall i | 0 <= i < |members|
      ensures FirstAt(raw + [m], members[i].key) == FirstAt(raw, members[i].key)
      ensures LastOf(raw + [m], members[i].key) == if m.key == members[i].key then Some(m.value) else LastOf(raw, members[i].key)
    {
      FirstAtSnoc(raw, m, members[i].key);
    }
  }

  lemma PutAtEnd(members: seq<Member>, raw: seq<Member>, m: Member)
    requires Collapses(members, raw) && Slot(members, m.key).None?
    ensures Collapses(Put(members, m.key, m.value), raw + [m])
  {
    hide FirstAt, LastOf, Slot;
    EveryOneIsKept(members, raw, m);
    assert FirstAt(raw, m.key) == |raw|;
    FirstAtSnoc(raw, m, m.key);
    forall i | 0 <= i < |members|
      ensures FirstAt(raw + [m], members[i].key) < |raw|
      ensures FirstAt(raw + [m], members[i].key) == FirstAt(raw, members[i].key)
      ensures LastOf(raw + [m], members[i].key) == LastOf(raw, members[i].key)
    {
      LastOfOccurs(raw, members[i].key);
      FirstAtSnoc(raw, m, members[i].key);
    }
  }

  // -- the trees parsing returns -------------------------------------------------------

  /** A tree that nests at most `room` deep, keys each member once and spells its numbers well. */
  ghost predicate Canonical(node: Node, room: nat)
    decreases room, 0
  {
    match node
    case Num(spelling) => exists n: Numeral :: ProperNumeral(n) && SpeltNumeral(n) == spelling
    case Array(items) =>
      room > 0 && forall i :: 0 <= i < |items| ==> Canonical(items[i], room - 1)
    case Object(members) =>
      room > 0 && DistinctKeys(members) && AllCanonical(members, room - 1)
    case _ => true
  }

  ghost predicate AllCanonical(members: seq<Member>, room: nat)
    decreases room, 1
  {
    forall i :: 0 <= i < |members| ==> Canonical(members[i].value, room)
  }

  lemma {:induction false} RoomierIsCanonical(node: Node, room: nat, more: nat)
    requires Canonical(node, room) && room <= more
    ensures Canonical(node, more)
    decreases room
  {
    match node
    case Array(items) =>
      forall i | 0 <= i < |items| ensures Canonical(items[i], more - 1) {
        RoomierIsCanonical(items[i], room - 1, more - 1);
      }
    case Object(members) =>
      forall i | 0 <= i < |members| ensures Canonical(members[i].value, more - 1) {
        assert Canonical(members[i].value, room - 1);
        RoomierIsCanonical(members[i].value, room - 1, more - 1);
      }
    case _ =>
  }

  lemma {:induction false} PutAllIsCanonical(members: seq<Member>, raw: seq<Member>, room: nat)
    requires AllCanonical(members, room) && AllCanonical(raw, room)
    ensures AllCanonical(PutAll(members, raw), room)
    decreases |raw|
  {
    hide Canonical;
    if raw != [] {
      var now := Put(members, raw[0].key, raw[0].value);
      assert Canonical(raw[0].value, room);
      PutAllIsCanonical(now, raw[1..], room);
    }
  }

  lemma {:induction false} MeaningIsCanonical(v: Value, room: nat)
    requires Proper(v) && Nesting(v) <= room
    ensures Canonical(Meaning(v), room)
    decreases v
  {
    match v
    case List(items) => ItemsAreCanonical(items, room - 1);
    case Record(fields) =>
      FieldsAreCanonical(fields, room - 1);
      PutAllIsCanonical([], FieldsMeaning(fields), room - 1);
      RepeatedKeysCollapse(FieldsMeaning(fields));
    case _ =>
  }

  lemma {:induction false} ItemsAreCanonical(items: Items, room: nat)
    requires ProperItems(items) && ItemsNesting(items) <= room
    ensures forall i :: 0 <= i < |ItemsMeaning(items)| ==> Canonical(ItemsMeaning(items)[i], room)
    decreases items
  {
    hide Canonical, Meaning, Nesting;
    MeaningIsCanonical(items.item.value, room);
    if items.MoreItems? {
      ItemsAreCanonical(items.rest, room);
    }
  }

  lemma {:induction false} FieldsAreCanonical(fields: Fields, room: nat)
    requires ProperFields(fields) && FieldsNesting(fields) <= room
    ensures AllCanonical(FieldsMeaning(fields), room)
    decreases fields
  {
    hide Canonical, Meaning, Nesting, UnitsMeaning;
    MeaningIsCanonical(fields.field.value, room);
    if fields.MoreFields? {
      FieldsAreCanonical(fields.rest, room);
    }
  }

  lemma ParsedIsCanonical(text: string)
    requires ParseText(text).Ok?
    ensures Canonical(ParseText(text).value, MAX_DEPTH)
  {
    var d := ParsedIsSpelt(text);
    MeaningIsCanonical(d.value, MAX_DEPTH);
  }

  // -- encoded strings decode ------------------------------------------------------------

  lemma ControlCharParses(c: char, rest: string, out: string)
    requires c as int < 0x20 && c != '\t' && c != '\n' && c != '\r'
    ensures ParseChars(EncodeChar(c) + rest, out) == ParseChars(rest, out + [c])
  {
    var n := c as int;
    var hex := "00" + [LowerHex(n / 16), LowerHex(n % 16)];
    var s := EncodeChar(c) + rest;
    assert s[1..][1..] == hex + rest;
    assert (hex + rest)[..4] == hex && (hex + rest)[4..] == rest;
    assert HexValue(hex) == n;
  }

  lemma EncodedCharParses(c: char, rest: string, out: string)
    ensures ParseChars(EncodeChar(c) + rest, out) == ParseChars(rest, out + [c])
  {
    var s := EncodeChar(c) + rest;
    if |EncodeChar(c)| == 1 {
      assert s[1..] == rest;
    } else if |EncodeChar(c)| == 2 {
      assert s[1..][1..] == rest;
    } else {
      ControlCharParses(c, rest, out);
    }
  }

  lemma {:induction false} EncodedParses(s: string, rest: string, out: string)
    ensures ParseChars(EncodeChars(s) + (['"'] + rest), out) == Got(out + s, rest)
    decreases |s|
  {
    hide EncodeChar, ParseEscape;
    var close := ['"'] + rest;
    if s == "" {
      assert EncodeChars(s) + close == close && close[1..] == rest;
      assert out + s == out;
    } else {
      EncodedCharParses(s[0], EncodeChars(s[1..]) + close, out);
      EncodedParses(s[1..], rest, out + [s[0]]);
      assert EncodeChars(s) + close == EncodeChar(s[0]) + (EncodeChars(s[1..]) + close);
      assert out + [s[0]] + s[1..] == out + s;
    }
  }

  /** Reading an encoded string gives back every character of it, whatever follows. */
  lemma EncodedStringDecodes(s: string, rest: string, depth: nat)
    ensures ParseValue(EncodeStr(s) + rest, depth) == Got(Str(s), rest)
  {
    hide ParseChars, EncodeChars;
    var t := EncodeChars(s) + (['"'] + rest);
    assert EncodeStr(s) + rest == ['"'] + t;
    assert (['"'] + t)[1..] == t;
    EncodedParses(s, rest, "");
    assert "" + s == s;
  }

  // -- compact text parses back ------------------------------------------------------------

  lemma CompactIsSolid(node: Node)
    requires Canonical(node, MAX_DEPTH)
    ensures Compact(node) != "" && !IsWs(Compact(node)[0])
    ensures Compact(node)[0] != ']' && Compact(node)[0] != '}'
  {
    if node.Num? {
      var n: Numeral :| ProperNumeral(n) && SpeltNumeral(n) == node.spelling;
      assert IsDigit(n.whole[0]);
    }
  }

  lemma SolidIsKept(s: string)
    requires s != "" && !IsWs(s[0])
    ensures SkipWs(s) == s
  {
  }

  lemma {:induction false} CompactParses(node: Node, rest: string, depth: nat)
    requires depth <= MAX_DEPTH && Canonical(node, MAX_DEPTH - depth) && Closed(rest)
    ensures ParseValue(Compact(node) + rest, depth) == Got(node, rest)
    decreases node, 3
  {
    match node
    case Object(members) =>
      if members == [] {
        assert ("{}" + rest)[1..] == ['}'] + rest && (['}'] + rest)[1..] == rest;
      } else {
        CompactObjectParses(members, rest, depth);
      }
    case Array(items) =>
      if items == [] {
        assert ("[]" + rest)[1..] == [']'] + rest && ([']'] + rest)[1..] == rest;
      } else {
        CompactArrayParses(items, rest, depth);
      }
    case Str(text) => EncodedStringDecodes(text, rest, depth);
    case Num(spelling) =>
      var n: Numeral :| ProperNumeral(n) && SpeltNumeral(n) == spelling;
      NumberValueParses(n, rest, depth);
    case _ => WordParses(node, rest, depth);
  }

  lemma {:induction false} CompactArrayParses(items: seq<Node>, rest: string, depth: nat)
    requires items != [] && depth < MAX_DEPTH && Closed(rest)
    requires forall i :: 0 <= i < |items| ==> Canonical(items[i], MAX_DEPTH - (depth + 1))
    ensures ParseValue(Compact(Array(items)) + rest, depth) == Got(Array(items), rest)
    decreases items, 1
  {
    hide ParseItems, CompactItems, Canonical;
    var t := CompactItems(items) + ([']'] + rest);
    assert Compact(Array(items)) + rest == ['['] + t;
    assert (['['] + t)[1..] == t;
    CompactItemsParse(items, rest, depth + 1, []);
    assert [] + items == items;
    RoomierIsCanonical(items[0], MAX_DEPTH - (depth + 1), MAX_DEPTH);
    CompactIsSolid(items[0]);
    CompactItemsStart(items);
    SolidIsKept(t);
  }

  lemma CompactItemsStart(items: seq<Node>)
    requires items != []
    ensures Compact(items[0]) <= CompactItems(items)
  {
  }

  lemma {:induction false} CompactItemsParse(items: seq<Node>, rest: string, depth: nat, known: seq<Node>)
    requires items != [] && depth <= MAX_DEPTH
    requires forall i :: 0 <= i < |items| ==> Canonical(items[i], MAX_DEPTH - depth)
    ensures ParseItems(CompactItems(items) + ([']'] + rest), depth, known) == Got(Array(known + items), rest)
    decreases items, 0
  {
    hide ParseValue, Compact, Canonical;
    var item := items[0];
    var close := [']'] + rest;
    var more := if |items| == 1 then close else [','] + (CompactItems(items[1..]) + close);
    assert CompactItems(items) + close == Compact(item) + more;
    CompactParses(item, more, depth);
    RoomierIsCanonical(item, MAX_DEPTH - depth, MAX_DEPTH);
    CompactIsSolid(item);
    SolidIsKept(Compact(item) + more);
    if |items| == 1 {
      assert more[1..] == rest;
      assert items == [item];
    } else {
      assert more[1..] == CompactItems(items[1..]) + close;
      CompactItemsParse(items[1..], rest, depth, known + [item]);
      assert known + [item] + items[1..] == known + items;
    }
  }

  lemma {:induction false} CompactObjectParses(members: seq<Member>, rest: string, depth: nat)
    requires members != [] && depth < MAX_DEPTH && Closed(rest)
    requires DistinctKeys(members) && AllCanonical(members, MAX_DEPTH - (depth + 1))
    ensures ParseValue(Compact(Object(members)) + rest, depth) == Got(Object(members), rest)
    decreases members, 2
  {
    hide ParseMembers, CompactMembers, AllCanonical;
    var t := CompactMembers(members) + (['}'] + rest);
    assert Compact(Object(members)) + rest == ['{'] + t;
    assert (['{'] + t)[1..] == t;
    assert [] + members == members;
    CompactMembersParse(members, rest, depth + 1, []);
    CompactMembersStart(members);
    SolidIsKept(t);
  }

  lemma CompactMembersStart(members: seq<Member>)
    requires members != []
    ensures CompactMembers(members) != "" && CompactMembers(members)[0] == '"'
  {
  }

  lemma CompactKeyParses(key: string, rest: string)
    requires rest != "" && !IsWs(rest[0])
    ensures ParseKey(EncodeStr(key) + ([':'] + rest)) == Got(key, rest)
  {
    hide ParseChars, EncodeChars;
    var u := [':'] + rest;
    var t := EncodeChars(key) + (['"'] + u);
    assert EncodeStr(key) + u == ['"'] + t;
    assert (['"'] + t)[1..] == t && u[1..] == rest;
    SolidIsKept(['"'] + t);
    EncodedParses(key, u, "");
    assert "" + key == key;
    SolidIsKept(u);
    SolidIsKept(rest);
  }

  lemma {:induction false} CompactMemberParses(m: Member, rest: string, depth: nat)
    requires depth <= MAX_DEPTH && Canonical(m.value, MAX_DEPTH - depth) && Closed(rest)
    ensures ParseMember(CompactMember(m) + rest, depth) == Got(m, rest)
    decreases m, 0
  {
    hide ParseValue, ParseKey, EncodeStr, Compact, Canonical;
    var t := Compact(m.value) + rest;
    RoomierIsCanonical(m.value, MAX_DEPTH - depth, MAX_DEPTH);
    CompactIsSolid(m.value);
    CompactKeyParses(m.key, t);
    CompactParses(m.value, rest, depth);
    assert CompactMember(m) + rest == EncodeStr(m.key) + ([':'] + t);
  }

  lemma {:induction false} CompactMembersParse(members: seq<Member>, rest: string, depth: nat, known: seq<Member>)
    requires members != [] && depth <= MAX_DEPTH
    requires DistinctKeys(known + members) && AllCanonical(members, MAX_DEPTH - depth)
    ensures ParseMembers(CompactMembers(members) + (['}'] + rest), depth, known) == Got(Object(known + members), rest)
    decreases members, 1
  {
    hide ParseMember, CompactMember, Canonical;
    var m := members[0];
    var close := ['}'] + rest;
    var more := if |members| == 1 then close else [','] + (CompactMembers(members[1..]) + close);
    assert CompactMembers(members) + close == CompactMember(m) + more;
    CompactMemberParses(m, more, depth);
    SolidIsKept(more);
    NewKeyIsAppended(known, members);
    if |members| == 1 {
      assert more[1..] == rest;
      assert members == [m];
    } else {
      assert more[1..] == CompactMembers(members[1..]) + close;
      assert known + [m] + members[1..] == known + members;
      CompactMembersParse(members[1..], rest, depth, known + [m]);
    }
  }

  lemma NewKeyIsAppended(known: seq<Member>, members: seq<Member>)
    requires members != [] && DistinctKeys(known + members)
    ensures Put(known, members[0].key, members[0].value) == known + [members[0]]
  {
    var all := known + members;
    forall i | 0 <= i < |known| ensures known[i].key != members[0].key {
      assert all[i].key != all[|known|].key;
    }
  }

  /** The compact text of a parsed tree, or of any part of it, is a text that says that tree. */
  lemma CompactReparses(node: Node)
    requires Canonical(node, MAX_DEPTH)
    ensures ParseText(Compact(node)) == Ok(node)
  {
    hide ParseValue, Compact;
    CompactParses(node, "", 0);
    assert Compact(node) + "" == Compact(node);
    CompactIsSolid(node);
    SolidIsKept(Compact(node));
  }

  // -- trimming --------------------------------------------------------------------------------

  lemma {:induction false} SpeltAppends(v: Value, a: string, b: string)
    ensures Spelt(v, a + b) == Spelt(v, a) + b
    decreases v, 1
  {
    match v
    case Word(node) =>
    case Number(n) =>
    case Text(units) =>
      UnitsAppend(units, ['"'] + a, b);
      assert (['"'] + a) + b == ['"'] + (a + b);
    case NoItems(gap) =>
    case NoFields(gap) =>
    case List(items) => ItemsAppend(items, a, b);
    case Record(fields) => FieldsAppend(fields, a, b);
  }

  lemma UnitAppends(u: Unit, a: string, b: string)
    ensures SpeltUnit(u, a + b) == SpeltUnit(u, a) + b
  {
  }

  lemma {:induction false} UnitsAppend(units: seq<Unit>, a: string, b: string)
    ensures SpeltUnits(units, a + b) == SpeltUnits(units, a) + b
    decreases |units|
  {
    hide SpeltUnit;
    if units != [] {
      UnitsAppend(units[1..], a, b);
      UnitAppends(units[0], SpeltUnits(units[1..], a), b);
    }
  }

  lemma {:induction false} ItemAppends(item: Item, a: string, b: string)
    ensures SpeltItem(item, a + b) == SpeltItem(item, a) + b
    decreases item, 0
  {
    hide Spelt;
    assert item.after + (a + b) == (item.after + a) + b;
    SpeltAppends(item.value, item.after + a, b);
  }

  lemma {:induction false} ItemsAppend(items: Items, a: string, b: string)
    ensures SpeltItems(items, a + b) == SpeltItems(items, a) + b
    decreases items, 0
  {
    hide SpeltItem;
    match items
    case LastItem(item) =>
      assert [']'] + (a + b) == ([']'] + a) + b;
      ItemAppends(item, [']'] + a, b);
    case MoreItems(item, more) =>
      ItemsAppend(more, a, b);
      var t := [','] + SpeltItems(more, a);
      assert [','] + (SpeltItems(more, a) + b) == t + b;
      ItemAppends(item, t, b);
  }

  lemma KeyAppends(f: Field, a: string, b: string)
    ensures SpeltKey(f, a + b) == SpeltKey(f, a) + b
  {
    hide SpeltUnits;
    var u := f.left + ([':'] + (f.right + a));
    assert u + b == f.left + ([':'] + (f.right + (a + b)));
    assert (['"'] + u) + b == ['"'] + (u + b);
    UnitsAppend(f.key, ['"'] + u, b);
    assert Quoted(f.key, u + b) == Quoted(f.key, u) + b;
  }

  lemma {:induction false} FieldAppends(f: Field, a: string, b: string)
    ensures SpeltField(f, a + b) == SpeltField(f, a) + b
    decreases f, 0
  {
    hide Spelt, SpeltKey;
    assert f.after + (a + b) == (f.after + a) + b;
    SpeltAppends(f.value, f.after + a, b);
    KeyAppends(f, Spelt(f.value, f.after + a), b);
  }

  lemma {:induction false} FieldsAppend(fields: Fields, a: string, b: string)
    ensures SpeltFields(fields, a + b) == SpeltFields(fields, a) + b
    decreases fields, 0
  {
    hide SpeltField;
    match fields
    case LastField(f) =>
      assert ['}'] + (a + b) == (['}'] + a) + b;
      FieldAppends(f, ['}'] + a, b);
    case MoreFields(f, more) =>
      FieldsAppend(more, a, b);
      var t := [','] + SpeltFields(more, a);
      assert [','] + (SpeltFields(more, a) + b) == t + b;
      FieldAppends(f, t, b);
  }

  predicate EndsSolid(s: string) {
    s != "" && !IsWs(s[|s| - 1])
  }

  lemma {:induction false} ItemsEndSolid(items: Items)
    ensures EndsSolid(SpeltItems(items, ""))
  {
    hide SpeltItem;
    match items
    case LastItem(item) =>
      ItemAppends(item, "", "]");
      assert "" + "]" == "]" && [']'] + "" == "]";
    case MoreItems(item, more) =>
      ItemsEndSolid(more);
      var t := [','] + SpeltItems(more, "");
      ItemAppends(item, "", t);
      assert "" + t == t;
  }

  lemma {:induction false} FieldsEndSolid(fields: Fields)
    ensures EndsSolid(SpeltFields(fields, ""))
  {
    hide SpeltField;
    match fields
    case LastField(f) =>
      FieldAppends(f, "", "}");
      assert "" + "}" == "}" && ['}'] + "" == "}";
    case MoreFields(f, more) =>
      FieldsEndSolid(more);
      var t := [','] + SpeltFields(more, "");
      FieldAppends(f, "", t);
      assert "" + t == t;
  }

  lemma ContainerEndsSolid(v: Value)
    requires v.List? || v.Record? || v.NoItems? || v.NoFields?
    ensures EndsSolid(Spelt(v, ""))
  {
    match v
    case List(items) => ItemsEndSolid(items);
    case Record(fields) => FieldsEndSolid(fields);
    case _ =>
  }

  lemma {:induction false} TrimsBlank(s: string, gap: string)
    requires EndsSolid(s) && Blank(gap)
    ensures TrimEnd(s + gap) == s
    decreases |gap|
  {
    if gap == "" {
      assert s + gap == s;
    } else {
      assert (s + gap)[..|s + gap| - 1] == s + gap[..|gap| - 1];
      TrimsBlank(s, gap[..|gap| - 1]);
    }
  }

  /** A container at the root renders as its own text, which still says the same tree. */
  lemma TrimmedReparses(text: string)
    requires ParseText(text).Ok? && IsContainer(ParseText(text).value)
    ensures ParseText(Trim(text)) == ParseText(text) && Trim(Trim(text)) == Trim(text)
  {
    hide Spelt;
    var d := ParsedIsSpelt(text);
    var s := Spelt(d.value, "");
    assert "" + d.after == d.after;
    SpeltAppends(d.value, "", d.after);
    ContainerEndsSolid(d.value);
    AfterBlank(d.before, d.value, d.after);
    TrimsBlank(s, d.after);
    assert Trim(text) == s;
    DocumentParses(Document("", d.value, ""));
    assert "" + s == s && s + "" == s;
    AfterBlank("", d.value, "");
    TrimsBlank(s, "");
  }

  // -- queries compose ---------------------------------------------------------------------------

  function Join(p: string, q: string): string {
    if p == "" then q else if q == "" then p else p + "." + q
  }

  lemma {:induction false} WalkAppends(node: Node, a: seq<string>, b: seq<string>)
    ensures Walk(node, a + b)
         == match Walk(node, a) { case Some(next) => Walk(next, b) case None => None }
    decreases |a|
  {
    if a == [] {
      assert a + b == b;
    } else {
      assert (a + b)[1..] == a[1..] + b;
      if Child(node, a[0]).Some? {
        WalkAppends(Child(node, a[0]).value, a[1..], b);
      }
    }
  }

  lemma {:induction false} SplitJoins(p: string, q: string)
    ensures Split(p + "." + q) == Split(p) + Split(q)
    decreases |p|
  {
    var path := p + "." + q;
    if p == "" {
      assert path[1..] == q;
    } else {
      assert path[1..] == p[1..] + "." + q;
      SplitJoins(p[1..], q);
    }
  }

  lemma FindIsCanonical(members: seq<Member>, key: string, room: nat)
    requires AllCanonical(members, room) && Find(members, key).Some?
    ensures Canonical(Find(members, key).value, room)
  {
    hide Canonical;
    if members[0].key != key {
      FindIsCanonical(members[1..], key, room);
    }
  }

  lemma {:induction false} WalkIsCanonical(node: Node, segments: seq<string>, room: nat)
    requires Canonical(node, room) && Walk(node, segments).Some?
    ensures Canonical(Walk(node, segments).value, room)
    decreases |segments|
  {
    if segments != [] {
      var next := Child(node, segments[0]).value;
      if node.Object? {
        FindIsCanonical(node.members, segments[0], room - 1);
      }
      RoomierIsCanonical(next, room - 1, room);
      WalkIsCanonical(next, segments[1..], room);
    }
  }

  lemma FoundIsCanonical(text: string, path: string)
    requires Lookup(text, path).Ok?
    ensures Canonical(Lookup(text, path).value, MAX_DEPTH)
  {
    ParsedIsCanonical(text);
    if path != "" {
      WalkIsCanonical(ParseText(text).value, Split(path), MAX_DEPTH);
    }
  }

  lemma ResolveJoins(root: Node, p: string, q: string)
    requires Resolve(root, p).Ok?
    ensures Resolve(root, Join(p, q)) == Resolve(Resolve(root, p).value, q)
  {
    if p != "" && q != "" {
      SplitJoins(p, q);
      WalkAppends(root, Split(p), Split(q));
    }
  }

  lemma CompactIsTrim(node: Node)
    requires IsContainer(node)
    ensures Trim(Compact(node)) == Compact(node)
  {
    var s := Compact(node);
    assert s[0] == if node.Array? then '[' else '{';
    assert s[|s| - 1] == if node.Array? then ']' else '}';
  }

  lemma RenderedIsCompact(node: Node, text: string, path: string)
    requires !node.Str? && (IsContainer(node) ==> path != "")
    ensures Rendered(node, text, path) == Compact(node)
  {
  }

  /** Whatever is found at a path, a string aside, its rendering is a text saying just that. */
  lemma RenderingReparses(text: string, path: string)
    requires Lookup(text, path).Ok? && !Lookup(text, path).value.Str?
    ensures ParseText(Get(text, path).value) == Ok(Lookup(text, path).value)
  {
    hide Compact, Trim, Canonical, ParseText;
    var node := Lookup(text, path).value;
    if IsContainer(node) && path == "" {
      TrimmedReparses(text);
    } else {
      FoundIsCanonical(text, path);
      RenderedIsCompact(node, text, path);
      CompactReparses(node);
    }
  }

  /** Querying what a query returned is querying the joined path, errors included. */
  lemma QueriesCompose(text: string, p: string, q: string)
    requires Lookup(text, p).Ok? && IsContainer(Lookup(text, p).value)
    ensures var part := Get(text, p).value;
            && Get(part, q) == Get(text, Join(p, q))
            && KindOf(part, q) == KindOf(text, Join(p, q))
            && Len(part, q) == Len(text, Join(p, q))
  {
    hide Compact, Trim, ParseText;
    var node := Lookup(text, p).value;
    var part := Get(text, p).value;
    RenderingReparses(text, p);
    ResolveJoins(ParseText(text).value, p, q);
    assert Lookup(part, q) == Lookup(text, Join(p, q));
    if q == "" {
      if p == "" {
        TrimmedReparses(text);
      } else {
        CompactIsTrim(node);
      }
    }
  }

  // -- lengths -----------------------------------------------------------------------------------

  lemma {:induction false} DigitsAreOneSegment(segment: string)
    requires AllDigits(segment)
    ensures Split(segment) == [segment]
  {
    if segment != "" {
      DigitsAreOneSegment(segment[1..]);
      assert [segment[0]] + segment[1..] == segment;
    }
  }

  /** The length of an array is the bound of its indices, however many zeros they lead with. */
  lemma LenBoundsIndices(text: string, path: string, segment: string)
    requires Lookup(text, path).Ok? && Lookup(text, path).value.Array? && Digits(segment)
    ensures Len(text, path).Ok?
    ensures Lookup(text, Join(path, segment)).Ok?
       <==> Decimal(segment) < USIZE && Decimal(segment) < Len(text, path).value
    ensures Lookup(text, Join(path, segment)).Ok? ==>
              Lookup(text, Join(path, segment)).value == Lookup(text, path).value.items[Decimal(segment)]
  {
    hide ParseText;
    DigitsAreOneSegment(segment);
    ResolveJoins(ParseText(text).value, path, segment);
    var node := Lookup(text, path).value;
    assert Walk(node, [segment]) == match Child(node, segment) { case Some(n) => Walk(n, []) case None => None };
  }

  // -- where the parser is laxer than its documentation ------------------------------------------

  /** A code may begin with a plus sign, which section 7 of RFC 8259 has no room for. */
  lemma PlusSignIsRead()
    ensures Get("\"\\u+041\"", "") == Ok("A")
  {
    var units := [Code("+041")];
    var v := Text(units);
    assert ProperUnit(units[0]) && HexValue("+041") == 0x41;
    assert SpeltUnits(units[1..], "\"") == "\"" && UnitsMeaning(units[1..]) == "";
    var d := JsonGrammar.Document("", v, "");
    assert ['"'] + "" == "\"";
    assert SpeltUnits(units, "\"") == "\\u+041\"";
    assert SpeltDocument(d) == "\"\\u+041\"";
    assert UnitsMeaning(units) == "A";
    DocumentParses(d);
  }
}
