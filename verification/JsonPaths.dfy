/** What a path addresses, told without the search: a key selects the member that bears it, digits
  the item they count to, and nothing is found if and only if nothing is addressed. */
module JsonPaths {
  import opened Wrappers
  import opened JsonModel
  import opened JsonQuery

  // -- segments -------------------------------------------------------------------------------

  /** The segments written one after the other with dots between them. */
  function Dotted(segments: seq<string>): string
    requires segments != []
  {
    if |segments| == 1 then segments[0] else segments[0] + "." + Dotted(segments[1..])
  }

  /** `segments` is what `path` consists of between its dots. */
  predicate Consists(path: string, segments: seq<string>) {
    segments != [] && (forall k :: 0 <= k < |segments| ==> '.' !in segments[k]) && Dotted(segments) == path
  }

  lemma DottedFirst(first: string, rest: seq<string>, c: char)
    requires Consists(Dotted([first] + rest), [first] + rest) && c != '.'
    ensures Consists([c] + Dotted([first] + rest), [[c] + first] + rest)
  {
    var a, b := [first] + rest, [[c] + first] + rest;
    assert a[1..] == rest == b[1..];
    forall k | 0 <= k < |b| ensures '.' !in b[k] {
      assert k > 0 ==> b[k] == a[k];
      assert a[0] == first;
    }
    if rest != [] {
      assert [c] + (first + "." + Dotted(rest)) == ([c] + first) + "." + Dotted(rest);
    }
  }

  lemma DottedEmpty(rest: seq<string>)
    requires rest != [] && Consists(Dotted(rest), rest)
    ensures Consists("." + Dotted(rest), [""] + rest)
  {
    var all := [""] + rest;
    assert all[1..] == rest;
    forall k | 0 <= k < |all| ensures '.' !in all[k] {
      assert k > 0 ==> all[k] == rest[k - 1];
    }
    assert Dotted(all) == "" + "." + Dotted(rest);
  }

  lemma {:induction false} SplitConsists(path: string)
    ensures Consists(path, Split(path))
    decreases |path|
  {
    if path != "" {
      var rest := Split(path[1..]);
      SplitConsists(path[1..]);
      assert path == [path[0]] + path[1..];
      if path[0] == '.' {
        DottedEmpty(rest);
      } else {
        assert rest == [rest[0]] + rest[1..];
        DottedFirst(rest[0], rest[1..], path[0]);
      }
    }
  }

  lemma {:induction false} OneSegment(s: string)
    requires '.' !in s
    ensures Split(s) == [s]
    decreases |s|
  {
    if s != "" {
      OneSegment(s[1..]);
      assert [s[0]] + s[1..] == s;
    }
  }

  lemma {:induction false} ConsistsIsSplit(path: string, segments: seq<string>)
    requires Consists(path, segments)
    ensures segments == Split(path)
    decreases |segments|
  {
    OneSegment(segments[0]);
    if |segments| == 1 {
      assert segments == [segments[0]];
    } else {
      var rest := segments[1..];
      forall k | 0 <= k < |rest| ensures '.' !in rest[k] {
        assert rest[k] == segments[k + 1];
      }
      ConsistsIsSplit(Dotted(rest), rest);
      SplitJoins(segments[0], Dotted(rest));
      assert segments == [segments[0]] + rest;
    }
  }

  /** There is one way to cut a path at its dots, and it is the way it is cut. */
  lemma SegmentsAreUnique(path: string, segments: seq<string>)
    ensures Consists(path, segments) <==> segments == Split(path)
  {
    SplitConsists(path);
    if Consists(path, segments) {
      ConsistsIsSplit(path, segments);
    }
  }

  // -- children -----------------------------------------------------------------------------------

  /** The digits count to `n`, however many zeros they lead with. */
  predicate CountsTo(digits: string, n: nat)
    decreases |digits|
  {
    if digits == "" then n == 0
    else
      var last := digits[|digits| - 1];
      '0' <= last <= '9' && last as int - '0' as int == n % 10 && CountsTo(digits[..|digits| - 1], n / 10)
  }

  /** `child` is the member of that key, or the item that the digits count to. */
  ghost predicate IsChild(node: Node, segment: string, child: Node) {
    match node
    case Object(members) => Member(segment, child) in members
    case Array(items) => segment != "" && exists k :: 0 <= k < |items| && k < USIZE && items[k] == child && CountsTo(segment, k)
    case _ => false
  }

  ghost predicate Addresses(node: Node, segments: seq<string>, target: Node)
    decreases |segments|
  {
    if segments == [] then target == node
    else exists child :: IsChild(node, segments[0], child) && Addresses(child, segments[1..], target)
  }

  lemma {:induction false} CountsToDecimal(digits: string, n: nat)
    ensures CountsTo(digits, n) <==> AllDigits(digits) && Decimal(digits) == n
    decreases |digits|
  {
    if digits != "" {
      var front := digits[..|digits| - 1];
      CountsToDecimal(front, n / 10);
      assert digits == front + [digits[|digits| - 1]];
    }
  }

  lemma {:induction false} FindsMember(members: seq<Member>, key: string, child: Node)
    requires DistinctKeys(members)
    ensures Find(members, key) == Some(child) <==> Member(key, child) in members
  {
    if members != [] {
      var rest := members[1..];
      forall j, k | 0 <= j < k < |rest| ensures rest[j].key != rest[k].key {
        assert rest[j] == members[j + 1] && rest[k] == members[k + 1];
      }
      FindsMember(rest, key, child);
      assert members == [members[0]] + rest;
      if Member(key, child) in rest {
        var k :| 0 <= k < |rest| && rest[k] == Member(key, child);
        assert members[k + 1] == rest[k];
      }
    }
  }

  lemma ChildIsFound(node: Node, segment: string, child: Node, room: nat)
    requires Canonical(node, room)
    ensures Child(node, segment) == Some(child) <==> IsChild(node, segment, child)
  {
    match node
    case Object(members) => FindsMember(members, segment, child);
    case Array(items) => ItemIsFound(items, segment, child);
    case _ =>
  }

  lemma ItemIsFound(items: seq<Node>, segment: string, child: Node)
    ensures Child(Array(items), segment) == Some(child) <==> IsChild(Array(items), segment, child)
  {
    hide CountsTo;
    forall k: nat ensures CountsTo(segment, k) <==> AllDigits(segment) && Decimal(segment) == k {
      CountsToDecimal(segment, k);
    }
  }

  lemma ChildIsCanonical(node: Node, segment: string, room: nat)
    requires Canonical(node, room) && Child(node, segment).Some?
    ensures Canonical(Child(node, segment).value, room)
  {
    var child := Child(node, segment).value;
    WalkIsCanonical(node, [segment], room);
    assert Walk(node, [segment]) == Walk(child, []);
  }

  /** The walk reaches just what the segments address. */
  lemma {:induction false} WalkAddresses(node: Node, segments: seq<string>, target: Node, room: nat)
    requires Canonical(node, room)
    ensures Walk(node, segments) == Some(target) <==> Addresses(node, segments, target)
    decreases |segments|
  {
    hide Canonical, IsChild, Child;
    if segments != [] {
      forall child ensures Child(node, segments[0]) == Some(child) <==> IsChild(node, segments[0], child) {
        ChildIsFound(node, segments[0], child, room);
      }
      match Child(node, segments[0])
      case Some(next) =>
        ChildIsCanonical(node, segments[0], room);
        WalkAddresses(next, segments[1..], target, room);
      case None =>
    }
  }

  // -- paths ---------------------------------------------------------------------------------------

  /** `target` is what `path` addresses in the document `root`: the empty path addresses all of it. */
  ghost predicate PathAddresses(root: Node, path: string, target: Node) {
    if path == "" then target == root
    else exists segments :: Consists(path, segments) && Addresses(root, segments, target)
  }

  /** Every query finds exactly what its path addresses: a text that does not parse is a parse
    error, a path that addresses nothing is missing, and nothing else is an error. */
  lemma LookupAddresses(text: string, path: string, target: Node)
    ensures Lookup(text, path) == Ok(target) <==> Valid(text) && PathAddresses(ParseText(text).value, path, target)
    ensures Lookup(text, path) == Err(Error.Parse) <==> !Valid(text)
    ensures Lookup(text, path) == Err(Missing)
       <==> Valid(text) && forall v :: !PathAddresses(ParseText(text).value, path, v)
  {
    hide Addresses, Consists, Canonical, ParseText;
    ParseFailsPlainly(text);
    if Valid(text) {
      ParsedIsCanonical(text);
      var root := ParseText(text).value;
      forall v ensures PathAddresses(root, path, v) <==> Resolve(root, path) == Ok(v) {
        ResolveAddresses(root, path, v);
      }
      if Lookup(text, path).Ok? {
        assert PathAddresses(root, path, Lookup(text, path).value);
      }
    }
  }

  lemma ParseFailsPlainly(text: string)
    ensures ParseText(text).Err? ==> ParseText(text) == Err(Error.Parse)
  {
  }

  lemma ResolveAddresses(root: Node, path: string, v: Node)
    requires Canonical(root, MAX_DEPTH)
    ensures Resolve(root, path) == Ok(v) <==> PathAddresses(root, path, v)
  {
    hide Addresses, Consists, Canonical;
    SegmentsAreUnique(path, Split(path));
    WalkAddresses(root, Split(path), v, MAX_DEPTH);
    forall segments | Consists(path, segments) ensures segments == Split(path) {
      SegmentsAreUnique(path, segments);
    }
  }

  /** In an object a key without dots finds the member that bears it, and else is missing. */
  lemma KeySelectsItsMember(text: string, path: string, key: string, v: Node)
    requires Lookup(text, path).Ok? && Lookup(text, path).value.Object? && '.' !in key && Join(path, key) != path
    ensures var members := Lookup(text, path).value.members;
            && (Lookup(text, Join(path, key)) == Ok(v) <==> Member(key, v) in members)
            && (Lookup(text, Join(path, key)) == Err(Missing) <==> forall m :: m in members ==> m.key != key)
  {
    hide ParseText, Canonical, DistinctKeys;
    var node := Lookup(text, path).value;
    StepFrom(text, path, key);
    FoundIsCanonical(text, path);
    MembersAreDistinct(node);
    FindsMember(node.members, key, v);
    match Child(node, key)
    case Some(w) => FindsMember(node.members, key, w);
    case None =>
      forall m | m in node.members ensures m.key != key {
        FindsMember(node.members, m.key, m.value);
      }
  }

  lemma MembersAreDistinct(node: Node)
    requires node.Object? && Canonical(node, MAX_DEPTH)
    ensures DistinctKeys(node.members)
  {
  }

  /** One segment more is one step more. */
  lemma StepFrom(text: string, path: string, segment: string)
    requires Lookup(text, path).Ok? && '.' !in segment && Join(path, segment) != path
    ensures Lookup(text, Join(path, segment))
         == match Child(Lookup(text, path).value, segment) { case Some(v) => Ok(v) case None => Err(Missing) }
  {
    hide ParseText;
    var node := Lookup(text, path).value;
    ResolveJoins(ParseText(text).value, path, segment);
    OneSegment(segment);
    if segment != "" {
      assert Walk(node, [segment]) == match Child(node, segment) { case Some(v) => Walk(v, []) case None => None };
    }
  }

  predicate OnlyDigits(s: string) {
    s != "" && forall k :: 0 <= k < |s| ==> '0' <= s[k] <= '9'
  }

  /** A segment into a scalar is missing, and so is one into an array unless it is digits. */
  lemma NothingElseSelects(text: string, path: string, segment: string)
    requires Lookup(text, path).Ok? && '.' !in segment && Join(path, segment) != path
    requires var node := Lookup(text, path).value; !node.Object? && (node.Array? ==> !OnlyDigits(segment))
    ensures Lookup(text, Join(path, segment)) == Err(Missing)
  {
    hide ParseText;
    StepFrom(text, path, segment);
  }

  // -- answers ---------------------------------------------------------------------------------------

  ghost predicate IsKindOf(node: Node, name: string) {
    || (node.Object? && name == "object") || (node.Array? && name == "array") || (node.Str? && name == "str")
    || (node.Num? && name == "num") || (node.Bool? && name == "bool") || (node.Null? && name == "null")
  }

  /** The kind is that of what the path addresses, and its errors are those of the path. */
  lemma KindIsTold(text: string, path: string, name: string)
    ensures KindOf(text, path) == Ok(name)
       <==> exists v :: Valid(text) && PathAddresses(ParseText(text).value, path, v) && IsKindOf(v, name)
    ensures KindOf(text, path).Err? ==> Lookup(text, path) == Err(KindOf(text, path).error)
  {
    hide ParseText, PathAddresses;
    forall v ensures Lookup(text, path) == Ok(v) <==> Valid(text) && PathAddresses(ParseText(text).value, path, v) {
      LookupAddresses(text, path, v);
    }
  }

  /** The length is how many members or items the addressed container has; a scalar has none. */
  lemma LenIsTold(text: string, path: string, n: nat)
    ensures Len(text, path) == Ok(n)
       <==> exists v :: Valid(text) && PathAddresses(ParseText(text).value, path, v)
                        && ((v.Array? && |v.items| == n) || (v.Object? && |v.members| == n))
    ensures Len(text, path) == Err(Kind)
       <==> exists v :: Valid(text) && PathAddresses(ParseText(text).value, path, v) && !IsContainer(v)
    ensures Len(text, path).Err? && Len(text, path) != Err(Kind) ==> Lookup(text, path) == Err(Len(text, path).error)
  {
    hide ParseText, PathAddresses;
    forall v ensures Lookup(text, path) == Ok(v) <==> Valid(text) && PathAddresses(ParseText(text).value, path, v) {
      LookupAddresses(text, path, v);
    }
    LookupAddresses(text, path, Null);
  }

  /** A scalar is answered as it is: a string by its characters, a number by its spelling. */
  lemma ScalarsAreAnswered(text: string, path: string, v: Node, s: string)
    requires Valid(text) && PathAddresses(ParseText(text).value, path, v) && !IsContainer(v)
    ensures Get(text, path) == Ok(s)
       <==> v == Str(s) || v == Num(s) || (v == Bool(true) && s == "true") || (v == Bool(false) && s == "false")
            || (v == Null && s == "null")
  {
    hide ParseText, PathAddresses;
    LookupAddresses(text, path, v);
  }

  /** Whatever is an error for the path is that error for the answer, and nothing else is one. */
  lemma ErrorsAreThePaths(text: string, path: string)
    ensures Get(text, path).Err? <==> Lookup(text, path).Err?
    ensures Get(text, path).Err? ==> Get(text, path).error == Lookup(text, path).error
  {
    hide ParseText;
  }
}
