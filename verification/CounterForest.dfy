/** The union-find that collects the evidence: counters in a vector, each pointing at another
  of its class, the class's facts kept at its root.

  Paths are shortened on every look-up; `Tells` says that the roots nevertheless answer
  exactly what the evidence of `NumInfer` answers. */
module CounterForest {
  import opened Wrappers
  import opened NumInfer

  datatype Counter = Counter(parent: nat, decided: Option<Declared>, conflict: bool, leftAlone: bool)

  // -- forests ---------------------------------------------------------------------------------

  /** Every step towards a parent loses height, so every walk ends at a root. */
  ghost predicate Ranked(c: seq<Counter>, height: seq<nat>) {
    && |height| == |c|
    && forall k :: 0 <= k < |c| ==> c[k].parent < |c| && (c[k].parent != k ==> height[c[k].parent] < height[k])
  }

  ghost function RootOf(c: seq<Counter>, height: seq<nat>, id: nat): (r: nat)
    requires Ranked(c, height) && id < |c|
    ensures r < |c| && c[r].parent == r
    decreases height[id]
  {
    if c[id].parent == id then id else RootOf(c, height, c[id].parent)
  }

  /** Same counters, other pointers. */
  predicate Repointed(c: seq<Counter>, d: seq<Counter>) {
    |d| == |c| && forall k :: 0 <= k < |c| ==> d[k] == c[k].(parent := d[k].parent)
  }

  lemma {:induction false} HalvingKeepsRoots(c: seq<Counter>, d: seq<Counter>, height: seq<nat>, id: nat, x: nat)
    requires Ranked(c, height) && id < |c| && x < |c|
    requires d == c[id := c[id].(parent := c[c[id].parent].parent)]
    ensures Ranked(d, height) && RootOf(d, height, x) == RootOf(c, height, x)
    decreases height[x]
  {
    if c[x].parent != x {
      HalvingKeepsRoots(c, d, height, id, c[x].parent);
      if x == id {
        var up := c[id].parent;
        var top := c[up].parent;
        assert height[up] < height[id];
        if top != up {
          HalvingKeepsRoots(c, d, height, id, top);
        }
      }
    }
  }

  /** The heights after the class of `b` is hung under `a`. */
  ghost function Raised(c: seq<Counter>, height: seq<nat>, a: nat, b: nat): (r: seq<nat>)
    requires Ranked(c, height) && a < |c| && b < |c|
    ensures |r| == |height|
    ensures forall k :: 0 <= k < |c| ==> r[k] == height[k] + if RootOf(c, height, k) == b then height[a] + 1 else 0
  {
    seq(|height|, k requires 0 <= k < |height| => height[k] + if RootOf(c, height, k) == b then height[a] + 1 else 0)
  }

  lemma HangingIsRanked(c: seq<Counter>, height: seq<nat>, a: nat, b: nat, d: seq<Counter>)
    requires Ranked(c, height) && a < |c| && b < |c| && a != b && c[a].parent == a && c[b].parent == b
    requires |d| == |c| && d[b].parent == a && forall k :: 0 <= k < |c| && k != b ==> d[k].parent == c[k].parent
    ensures Ranked(d, Raised(c, height, a, b))
  {
  }

  lemma {:induction false} HangingMovesRoots(c: seq<Counter>, height: seq<nat>, a: nat, b: nat, d: seq<Counter>, x: nat)
    requires Ranked(c, height) && a < |c| && b < |c| && a != b && c[a].parent == a && c[b].parent == b && x < |c|
    requires |d| == |c| && d[b].parent == a && forall k :: 0 <= k < |c| && k != b ==> d[k].parent == c[k].parent
    ensures Ranked(d, Raised(c, height, a, b))
    ensures RootOf(d, Raised(c, height, a, b), x)
         == if RootOf(c, height, x) == b then a else RootOf(c, height, x)
    decreases height[x]
  {
    HangingIsRanked(c, height, a, b, d);
    if c[x].parent != x {
      HangingMovesRoots(c, height, a, b, d, c[x].parent);
    }
  }

  // -- what the roots know -------------------------------------------------------------------------

  ghost predicate SameClass(c: seq<Counter>, height: seq<nat>, x: nat, y: nat)
    requires Ranked(c, height) && x < |c| && y < |c|
  {
    RootOf(c, height, x) == RootOf(c, height, y)
  }

  /** Evidence names existing counters only. */
  predicate Scoped(e: Evidence, n: nat) {
    && (forall l :: l in e.links ==> l.0 < n && l.1 < n)
    && (forall m :: m in e.met ==> m.0 < n)
    && (forall i :: i in e.left ==> i < n)
  }

  ghost predicate Classes(c: seq<Counter>, height: seq<nat>, e: Evidence)
    requires Ranked(c, height)
  {
    forall x, y :: 0 <= x < |c| && 0 <= y < |c| ==> (SameClass(c, height, x, y) <==> Connected(e.links, x, y))
  }

  /** Some counter under this root met this spelling. */
  ghost predicate MetUnder(c: seq<Counter>, height: seq<nat>, e: Evidence, root: nat, spelling: string)
    requires Ranked(c, height)
  {
    exists id: nat :: id < |c| && (id, spelling) in e.met && RootOf(c, height, id) == root
  }

  ghost predicate LeftUnder(c: seq<Counter>, height: seq<nat>, e: Evidence, root: nat)
    requires Ranked(c, height)
  {
    exists id: nat :: id < |c| && id in e.left && RootOf(c, height, id) == root
  }

  ghost predicate TwoUnder(c: seq<Counter>, height: seq<nat>, e: Evidence, root: nat)
    requires Ranked(c, height)
  {
    exists x: string, y: string ::
      x != y && MetUnder(c, height, e, root, x) && MetUnder(c, height, e, root, y)
  }

  /** A root holds a decided type iff its class met one, a conflict iff it met two, and the
    left-alone mark iff one of its counters bears it. */
  ghost predicate RootTells(c: seq<Counter>, height: seq<nat>, e: Evidence, root: nat)
    requires Ranked(c, height) && root < |c|
  {
    && (match c[root].decided
        case Some(d) => MetUnder(c, height, e, root, d.spelling)
        case None => forall s: string :: !MetUnder(c, height, e, root, s))
    && (c[root].conflict <==> TwoUnder(c, height, e, root))
    && (c[root].leftAlone <==> LeftUnder(c, height, e, root))
  }

  ghost predicate Tells(c: seq<Counter>, height: seq<nat>, e: Evidence)
    requires Ranked(c, height)
  {
    forall r :: 0 <= r < |c| && c[r].parent == r ==> RootTells(c, height, e, r)
  }

  ghost predicate Sound(c: seq<Counter>, height: seq<nat>, e: Evidence) {
    Ranked(c, height) && Scoped(e, |c|) && Classes(c, height, e) && Tells(c, height, e)
  }

  // -- reading the verdict off a root ----------------------------------------------------------------

  lemma MeetsAtRoot(c: seq<Counter>, height: seq<nat>, e: Evidence, id: nat, spelling: string)
    requires Sound(c, height, e) && id < |c|
    ensures Meets(e, id, spelling) <==> MetUnder(c, height, e, RootOf(c, height, id), spelling)
  {
    hide RootTells;
    if Meets(e, id, spelling) {
      var other: nat :| (other, spelling) in e.met && Connected(e.links, id, other);
      assert (other, spelling).0 < |c|;
      assert SameClass(c, height, id, other);
    }
    if MetUnder(c, height, e, RootOf(c, height, id), spelling) {
      var other: nat :| other < |c| && (other, spelling) in e.met && RootOf(c, height, other) == RootOf(c, height, id);
      assert SameClass(c, height, id, other);
    }
  }

  lemma LeftAtRoot(c: seq<Counter>, height: seq<nat>, e: Evidence, id: nat)
    requires Sound(c, height, e) && id < |c|
    ensures IsLeft(e, id) <==> LeftUnder(c, height, e, RootOf(c, height, id))
  {
    hide RootTells;
    if IsLeft(e, id) {
      var other: nat :| other in e.left && Connected(e.links, id, other);
      assert SameClass(c, height, id, other);
    }
    if LeftUnder(c, height, e, RootOf(c, height, id)) {
      var other: nat :| other < |c| && other in e.left && RootOf(c, height, other) == RootOf(c, height, id);
      assert SameClass(c, height, id, other);
    }
  }

  /** The root's three fields settle the verdict of every counter of its class. */
  lemma RootDecides(c: seq<Counter>, height: seq<nat>, e: Evidence, id: nat, spelling: string)
    requires Sound(c, height, e) && id < |c|
    ensures var root := c[RootOf(c, height, id)];
            Annotated(e, id, spelling) <==>
              root.decided.Some? && root.decided.value.spelling == spelling
              && !root.conflict && !root.leftAlone && IsWrapping(spelling)
  {
    hide MetUnder, Meets, LeftUnder, IsLeft, Connected;
    var r := RootOf(c, height, id);
    assert RootTells(c, height, e, r);
    forall s: string ensures Meets(e, id, s) <==> MetUnder(c, height, e, r, s) {
      MeetsAtRoot(c, height, e, id, s);
    }
    LeftAtRoot(c, height, e, id);
    if c[r].decided.Some? && Meets(e, id, spelling) && c[r].decided.value.spelling != spelling {
      assert Meets(e, id, c[r].decided.value.spelling);
      assert Conflicted(e, id);
    }
  }

  // -- what each operation keeps ------------------------------------------------------------------------

  /** Pointers may move under a class as long as its root stays. */
  lemma RepointingIsSound(c: seq<Counter>, d: seq<Counter>, height: seq<nat>, e: Evidence)
    requires Sound(c, height, e) && Repointed(c, d) && Ranked(d, height)
    requires forall x :: 0 <= x < |c| ==> RootOf(d, height, x) == RootOf(c, height, x)
    ensures Sound(d, height, e)
  {
    forall x, y | 0 <= x < |d| && 0 <= y < |d|
      ensures SameClass(d, height, x, y) <==> Connected(e.links, x, y)
    {
      assert SameClass(c, height, x, y) <==> Connected(e.links, x, y);
    }
    forall r | 0 <= r < |d| && d[r].parent == r ensures RootTells(d, height, e, r) {
      assert RootOf(d, height, r) == r;
      assert RootTells(c, height, e, r);
      UnderAgrees(c, d, height, e, r);
    }
  }

  lemma UnderAgrees(c: seq<Counter>, d: seq<Counter>, height: seq<nat>, e: Evidence, r: nat)
    requires Ranked(c, height) && Ranked(d, height) && |d| == |c|
    requires forall x :: 0 <= x < |c| ==> RootOf(d, height, x) == RootOf(c, height, x)
    ensures forall s: string :: MetUnder(d, height, e, r, s) == MetUnder(c, height, e, r, s)
    ensures TwoUnder(d, height, e, r) == TwoUnder(c, height, e, r)
    ensures LeftUnder(d, height, e, r) == LeftUnder(c, height, e, r)
  {
    forall s: string ensures MetUnder(d, height, e, r, s) == MetUnder(c, height, e, r, s) {
      if MetUnder(c, height, e, r, s) {
        var id: nat :| id < |c| && (id, s) in e.met && RootOf(c, height, id) == r;
        assert RootOf(d, height, id) == r;
      }
    }
    if LeftUnder(c, height, e, r) {
      var id: nat :| id < |c| && id in e.left && RootOf(c, height, id) == r;
      assert RootOf(d, height, id) == r;
    }
  }

  lemma {:induction false} SamePointersSameRoots(c: seq<Counter>, d: seq<Counter>, height: seq<nat>, x: nat)
    requires Ranked(c, height) && |d| == |c| && x < |c|
    requires forall k :: 0 <= k < |c| ==> d[k].parent == c[k].parent
    ensures Ranked(d, height) && RootOf(d, height, x) == RootOf(c, height, x)
    decreases height[x]
  {
    if c[x].parent != x {
      SamePointersSameRoots(c, d, height, c[x].parent);
    }
  }

  lemma AllSameRoots(c: seq<Counter>, d: seq<Counter>, height: seq<nat>)
    requires Ranked(c, height) && |d| == |c|
    requires forall k :: 0 <= k < |c| ==> d[k].parent == c[k].parent
    ensures Ranked(d, height) && forall x :: 0 <= x < |c| ==> RootOf(d, height, x) == RootOf(c, height, x)
  {
    forall x | 0 <= x < |c| ensures Ranked(d, height) && RootOf(d, height, x) == RootOf(c, height, x) {
      SamePointersSameRoots(c, d, height, x);
    }
  }

  /** A root that meets a declared type. */
  function Met(g: Counter, d: Declared): Counter {
    match g.decided
    case Some(have) => if have.spelling != d.spelling then g.(conflict := true) else g
    case None => g.(decided := Some(d))
  }

  /** Evidence with one more meeting. */
  function WithMet(e: Evidence, id: nat, spelling: string): Evidence {
    e.(met := e.met + {(id, spelling)})
  }

  lemma MetGrows(c: seq<Counter>, d: seq<Counter>, height: seq<nat>, e: Evidence, id: nat, spelling: string, r: nat, s: string)
    requires Ranked(c, height) && Ranked(d, height) && |d| == |c| && id < |c|
    requires forall x :: 0 <= x < |c| ==> RootOf(d, height, x) == RootOf(c, height, x)
    ensures MetUnder(d, height, WithMet(e, id, spelling), r, s)
       <==> MetUnder(c, height, e, r, s) || (s == spelling && r == RootOf(c, height, id))
  {
    var more := WithMet(e, id, spelling);
    if MetUnder(c, height, e, r, s) {
      var x: nat :| x < |c| && (x, s) in e.met && RootOf(c, height, x) == r;
      assert (x, s) in more.met && RootOf(d, height, x) == r;
    }
    if s == spelling && r == RootOf(c, height, id) {
      assert (id, s) in more.met && RootOf(d, height, id) == r;
    }
  }

  lemma LeftSame(c: seq<Counter>, d: seq<Counter>, height: seq<nat>, e: Evidence, f: Evidence, r: nat)
    requires Ranked(c, height) && Ranked(d, height) && |d| == |c| && f.left == e.left
    requires forall x :: 0 <= x < |c| ==> RootOf(d, height, x) == RootOf(c, height, x)
    ensures LeftUnder(d, height, f, r) == LeftUnder(c, height, e, r)
  {
    if LeftUnder(c, height, e, r) {
      var id: nat :| id < |c| && id in e.left && RootOf(c, height, id) == r;
      assert RootOf(d, height, id) == r;
    }
  }

  lemma ClassesSame(c: seq<Counter>, d: seq<Counter>, height: seq<nat>, e: Evidence, f: Evidence)
    requires Ranked(c, height) && Ranked(d, height) && |d| == |c| && f.links == e.links && Classes(c, height, e)
    requires forall x :: 0 <= x < |c| ==> RootOf(d, height, x) == RootOf(c, height, x)
    ensures Classes(d, height, f)
  {
    hide Connected;
    forall x, y | 0 <= x < |d| && 0 <= y < |d| ensures SameClass(d, height, x, y) <==> Connected(f.links, x, y) {
      assert SameClass(c, height, x, y) <==> Connected(e.links, x, y);
    }
  }

  /** Two spellings met before, or one before and another now. */
  lemma TwoGrows(c: seq<Counter>, d: seq<Counter>, height: seq<nat>, e: Evidence, f: Evidence, r: nat, now?: bool, s: string)
    requires Ranked(c, height) && Ranked(d, height)
    requires forall t: string :: MetUnder(d, height, f, r, t) <==> MetUnder(c, height, e, r, t) || (now? && t == s)
    ensures TwoUnder(d, height, f, r)
       <==> TwoUnder(c, height, e, r) || (now? && exists t: string :: t != s && MetUnder(c, height, e, r, t))
  {
    hide MetUnder;
    if TwoUnder(d, height, f, r) {
      var x: string, y: string :| x != y && MetUnder(d, height, f, r, x) && MetUnder(d, height, f, r, y);
      if !(MetUnder(c, height, e, r, x) && MetUnder(c, height, e, r, y)) {
        assert x == s || y == s;
        assert MetUnder(c, height, e, r, if x == s then y else x);
      }
    }
    if now? {
      assert MetUnder(d, height, f, r, s);
    }
  }

  /** `settle` for one counter. */
  lemma SettleIsSound(c: seq<Counter>, height: seq<nat>, e: Evidence, id: nat, declared: Declared)
    requires Sound(c, height, e) && id < |c|
    ensures var r := RootOf(c, height, id);
            Sound(c[r := Met(c[r], declared)], height, WithMet(e, id, declared.spelling))
  {
    hide MetUnder, TwoUnder, LeftUnder, Connected;
    var root := RootOf(c, height, id);
    var d := c[root := Met(c[root], declared)];
    var s := declared.spelling;
    var f := WithMet(e, id, s);
    AllSameRoots(c, d, height);
    ClassesSame(c, d, height, e, f);
    forall r | 0 <= r < |d| && d[r].parent == r ensures RootTells(d, height, f, r) {
      assert RootTells(c, height, e, r);
      forall t: string
        ensures MetUnder(d, height, f, r, t) <==> MetUnder(c, height, e, r, t) || (r == root && t == s)
      {
        MetGrows(c, d, height, e, id, s, r, t);
      }
      TwoGrows(c, d, height, e, f, r, r == root, s);
      LeftSame(c, d, height, e, f, r);
      if r == root {
        RootMeets(c, height, e, r, declared);
      }
    }
  }

  /** Whether the new spelling differs from one met before is visible at the root. */
  lemma RootMeets(c: seq<Counter>, height: seq<nat>, e: Evidence, r: nat, declared: Declared)
    requires Ranked(c, height) && r < |c| && RootTells(c, height, e, r)
    ensures Met(c[r], declared).conflict
       <==> c[r].conflict || exists t: string :: t != declared.spelling && MetUnder(c, height, e, r, t)
  {
    hide MetUnder;
    var s := declared.spelling;
    if c[r].decided.Some? {
      var have := c[r].decided.value.spelling;
      if have == s && (exists t: string :: t != s && MetUnder(c, height, e, r, t)) {
        var t: string :| t != s && MetUnder(c, height, e, r, t);
        assert TwoUnder(c, height, e, r);
      }
    }
  }

  /** Evidence with one more counter left alone. */
  function WithLeft(e: Evidence, id: nat): Evidence {
    e.(left := e.left + {id})
  }

  /** `leave_alone` for one counter. */
  lemma LeaveIsSound(c: seq<Counter>, height: seq<nat>, e: Evidence, id: nat)
    requires Sound(c, height, e) && id < |c|
    ensures var r := RootOf(c, height, id);
            Sound(c[r := c[r].(leftAlone := true)], height, WithLeft(e, id))
  {
    hide Connected, MetUnder, TwoUnder, LeftUnder;
    var root := RootOf(c, height, id);
    var d := c[root := c[root].(leftAlone := true)];
    var f := WithLeft(e, id);
    AllSameRoots(c, d, height);
    ClassesSame(c, d, height, e, f);
    forall r | 0 <= r < |d| && d[r].parent == r ensures RootTells(d, height, f, r) {
      assert RootTells(c, height, e, r);
      UnderAgrees(c, d, height, e, r);
      MetIgnoresLeft(d, height, e, f, r);
      LeftGrows(c, d, height, e, id, r);
    }
  }

  lemma MetIgnoresLeft(c: seq<Counter>, height: seq<nat>, e: Evidence, f: Evidence, r: nat)
    requires Ranked(c, height) && f.met == e.met
    ensures forall s: string :: MetUnder(c, height, f, r, s) == MetUnder(c, height, e, r, s)
    ensures TwoUnder(c, height, f, r) == TwoUnder(c, height, e, r)
  {
    forall s: string ensures MetUnder(c, height, f, r, s) == MetUnder(c, height, e, r, s) {
    }
  }

  lemma LeftGrows(c: seq<Counter>, d: seq<Counter>, height: seq<nat>, e: Evidence, id: nat, r: nat)
    requires Ranked(c, height) && Ranked(d, height) && |d| == |c| && id < |c|
    requires forall x :: 0 <= x < |c| ==> RootOf(d, height, x) == RootOf(c, height, x)
    ensures LeftUnder(d, height, WithLeft(e, id), r) <==> LeftUnder(c, height, e, r) || r == RootOf(c, height, id)
  {
    var f := WithLeft(e, id);
    if LeftUnder(c, height, e, r) {
      var x: nat :| x < |c| && x in e.left && RootOf(c, height, x) == r;
      assert x in f.left && RootOf(d, height, x) == r;
    }
    if r == RootOf(c, height, id) {
      assert id in f.left && RootOf(d, height, id) == r;
    }
  }

  // -- linking -----------------------------------------------------------------------------------------

  function WithLink(e: Evidence, first: nat, id: nat): Evidence {
    e.(links := e.links + {(first, id)})
  }

  /** The root `a` once the class of `b` hangs under it. */
  function Merged(a: Counter, b: Counter): Counter {
    var both := a.(conflict := a.conflict || b.conflict, leftAlone := a.leftAlone || b.leftAlone);
    match (both.decided, b.decided)
    case (Some(x), Some(y)) => if x.spelling != y.spelling then both.(conflict := true) else both
    case (None, Some(y)) => both.(decided := Some(y))
    case _ => both
  }

  function Hung(c: seq<Counter>, a: nat, b: nat): (d: seq<Counter>)
    requires a < |c| && b < |c| && a != b
    ensures |d| == |c|
  {
    c[b := c[b].(parent := a, decided := None)][a := Merged(c[a], c[b])]
  }

  /** Linking within a class adds nothing. */
  lemma LinkWithinIsSound(c: seq<Counter>, height: seq<nat>, e: Evidence, first: nat, id: nat)
    requires Sound(c, height, e) && first < |c| && id < |c| && SameClass(c, height, first, id)
    ensures Sound(c, height, WithLink(e, first, id))
  {
    hide Connected;
    var f := WithLink(e, first, id);
    forall x, y | 0 <= x < |c| && 0 <= y < |c| ensures SameClass(c, height, x, y) <==> Connected(f.links, x, y) {
      LinkJoins(e.links, first, id, x, y);
      assert SameClass(c, height, x, y) <==> Connected(e.links, x, y);
      assert SameClass(c, height, x, first) <==> Connected(e.links, x, first);
      assert SameClass(c, height, id, y) <==> Connected(e.links, id, y);
      assert SameClass(c, height, x, id) <==> Connected(e.links, x, id);
      assert SameClass(c, height, first, y) <==> Connected(e.links, first, y);
    }
    forall r | 0 <= r < |c| && c[r].parent == r ensures RootTells(c, height, f, r) {
      assert RootTells(c, height, e, r);
      MetIgnoresLeft(c, height, e, f, r);
    }
  }

  lemma HungRoots(c: seq<Counter>, height: seq<nat>, a: nat, b: nat)
    requires Ranked(c, height) && a < |c| && b < |c| && a != b && c[a].parent == a && c[b].parent == b
    ensures var d, h := Hung(c, a, b), Raised(c, height, a, b);
            && Ranked(d, h)
            && forall x :: 0 <= x < |c| ==> RootOf(d, h, x) == if RootOf(c, height, x) == b then a else RootOf(c, height, x)
  {
    var d, h := Hung(c, a, b), Raised(c, height, a, b);
    HangingIsRanked(c, height, a, b, d);
    forall x | 0 <= x < |c|
      ensures RootOf(d, h, x) == if RootOf(c, height, x) == b then a else RootOf(c, height, x)
    {
      HangingMovesRoots(c, height, a, b, d, x);
    }
  }

  lemma HungClasses(c: seq<Counter>, height: seq<nat>, e: Evidence, first: nat, id: nat)
    requires Sound(c, height, e) && first < |c| && id < |c| && !SameClass(c, height, first, id)
    ensures var a, b := RootOf(c, height, first), RootOf(c, height, id);
            Ranked(Hung(c, a, b), Raised(c, height, a, b))
            && Classes(Hung(c, a, b), Raised(c, height, a, b), WithLink(e, first, id))
  {
    hide Connected, Tells;
    var a, b := RootOf(c, height, first), RootOf(c, height, id);
    HungRoots(c, height, a, b);
    var d, h, f := Hung(c, a, b), Raised(c, height, a, b), WithLink(e, first, id);
    forall x, y | 0 <= x < |d| && 0 <= y < |d| ensures SameClass(d, h, x, y) <==> Connected(f.links, x, y) {
      LinkJoins(e.links, first, id, x, y);
      assert SameClass(c, height, x, y) <==> Connected(e.links, x, y);
      assert SameClass(c, height, x, first) <==> Connected(e.links, x, first);
      assert SameClass(c, height, id, y) <==> Connected(e.links, id, y);
      assert SameClass(c, height, x, id) <==> Connected(e.links, x, id);
      assert SameClass(c, height, first, y) <==> Connected(e.links, first, y);
    }
  }

  /** What is under a root once `b` hangs under `a`. */
  lemma HungUnder(c: seq<Counter>, height: seq<nat>, e: Evidence, a: nat, b: nat, f: Evidence, r: nat)
    requires Ranked(c, height) && a < |c| && b < |c| && a != b && c[a].parent == a && c[b].parent == b
    requires f.met == e.met && f.left == e.left && r < |c| && r != b
    ensures var d, h := Hung(c, a, b), Raised(c, height, a, b);
            && Ranked(d, h)
            && (forall s: string :: MetUnder(d, h, f, r, s)
                  <==> MetUnder(c, height, e, r, s) || (r == a && MetUnder(c, height, e, b, s)))
            && (LeftUnder(d, h, f, r) <==> LeftUnder(c, height, e, r) || (r == a && LeftUnder(c, height, e, b)))
  {
    HungRoots(c, height, a, b);
    var d, h := Hung(c, a, b), Raised(c, height, a, b);
    forall s: string
      ensures MetUnder(d, h, f, r, s) <==> MetUnder(c, height, e, r, s) || (r == a && MetUnder(c, height, e, b, s))
    {
      if MetUnder(c, height, e, r, s) {
        var id: nat :| id < |c| && (id, s) in e.met && RootOf(c, height, id) == r;
        assert RootOf(d, h, id) == r;
      }
      if r == a && MetUnder(c, height, e, b, s) {
        var id: nat :| id < |c| && (id, s) in e.met && RootOf(c, height, id) == b;
        assert RootOf(d, h, id) == a;
      }
    }
    if LeftUnder(c, height, e, r) {
      var id: nat :| id < |c| && id in e.left && RootOf(c, height, id) == r;
      assert RootOf(d, h, id) == r;
    }
    if r == a && LeftUnder(c, height, e, b) {
      var id: nat :| id < |c| && id in e.left && RootOf(c, height, id) == b;
      assert RootOf(d, h, id) == a;
    }
  }

  /** The merged root tells the truth about the merged class. */
  lemma MergedTells(c: seq<Counter>, height: seq<nat>, e: Evidence, a: nat, b: nat, f: Evidence)
    requires Ranked(c, height) && a < |c| && b < |c| && a != b && c[a].parent == a && c[b].parent == b
    requires f.met == e.met && f.left == e.left && RootTells(c, height, e, a) && RootTells(c, height, e, b)
    ensures Ranked(Hung(c, a, b), Raised(c, height, a, b))
    ensures RootTells(Hung(c, a, b), Raised(c, height, a, b), f, a)
  {
    hide MetUnder, LeftUnder;
    HungUnder(c, height, e, a, b, f, a);
    var d, h := Hung(c, a, b), Raised(c, height, a, b);
    assert d[a] == Merged(c[a], c[b]);
    if c[a].decided.Some? && c[b].decided.Some? {
      var x, y := c[a].decided.value.spelling, c[b].decided.value.spelling;
      assert MetUnder(d, h, f, a, x) && MetUnder(d, h, f, a, y);
    }
    TwoMerge(c, height, e, a, b, f);
  }

  lemma TwoMerge(c: seq<Counter>, height: seq<nat>, e: Evidence, a: nat, b: nat, f: Evidence)
    requires Ranked(c, height) && a < |c| && b < |c| && a != b && c[a].parent == a && c[b].parent == b
    requires f.met == e.met && f.left == e.left && RootTells(c, height, e, a) && RootTells(c, height, e, b)
    ensures Ranked(Hung(c, a, b), Raised(c, height, a, b))
    ensures TwoUnder(Hung(c, a, b), Raised(c, height, a, b), f, a) <==> Merged(c[a], c[b]).conflict
  {
    hide MetUnder, LeftUnder;
    HungUnder(c, height, e, a, b, f, a);
    var d, h := Hung(c, a, b), Raised(c, height, a, b);
    var whole := Merged(c[a], c[b]).conflict;
    if TwoUnder(d, h, f, a) && !whole {
      var x: string, y: string :| x != y && MetUnder(d, h, f, a, x) && MetUnder(d, h, f, a, y);
      OneSpelling(c, height, e, a, x);
      OneSpelling(c, height, e, a, y);
      OneSpelling(c, height, e, b, x);
      OneSpelling(c, height, e, b, y);
      assert false;
    }
    if whole {
      if c[a].conflict {
        var x: string, y: string :| x != y && MetUnder(c, height, e, a, x) && MetUnder(c, height, e, a, y);
        assert MetUnder(d, h, f, a, x) && MetUnder(d, h, f, a, y);
      } else if c[b].conflict {
        var x: string, y: string :| x != y && MetUnder(c, height, e, b, x) && MetUnder(c, height, e, b, y);
        assert MetUnder(d, h, f, a, x) && MetUnder(d, h, f, a, y);
      } else {
        var x, y := c[a].decided.value.spelling, c[b].decided.value.spelling;
        assert MetUnder(d, h, f, a, x) && MetUnder(d, h, f, a, y);
      }
    }
  }

  /** Without a conflict, what a class met is what its root holds. */
  lemma OneSpelling(c: seq<Counter>, height: seq<nat>, e: Evidence, r: nat, s: string)
    requires Ranked(c, height) && r < |c| && RootTells(c, height, e, r)
    ensures !c[r].conflict && MetUnder(c, height, e, r, s) ==>
              c[r].decided.Some? && c[r].decided.value.spelling == s
  {
    hide MetUnder;
  }

  /** `link` for one pair of different classes. */
  lemma HangIsSound(c: seq<Counter>, height: seq<nat>, e: Evidence, first: nat, id: nat)
    requires Sound(c, height, e) && first < |c| && id < |c| && !SameClass(c, height, first, id)
    ensures var a, b := RootOf(c, height, first), RootOf(c, height, id);
            Sound(Hung(c, a, b), Raised(c, height, a, b), WithLink(e, first, id))
  {
    hide Connected, MetUnder, LeftUnder, Classes;
    var a, b := RootOf(c, height, first), RootOf(c, height, id);
    HungClasses(c, height, e, first, id);
    var d, h, f := Hung(c, a, b), Raised(c, height, a, b), WithLink(e, first, id);
    assert RootTells(c, height, e, a) && RootTells(c, height, e, b);
    MergedTells(c, height, e, a, b, f);
    forall r | 0 <= r < |d| && d[r].parent == r ensures RootTells(d, h, f, r) {
      if r != a {
        assert c[r].parent == r && r != b;
        assert RootTells(c, height, e, r);
        HungUnder(c, height, e, a, b, f, r);
      }
    }
  }

  // -- new counters ------------------------------------------------------------------------------------

  lemma {:induction false} RootsAppend(c: seq<Counter>, height: seq<nat>, born: Counter, x: nat)
    requires Ranked(c, height) && born.parent == |c| && x < |c|
    ensures Ranked(c + [born], height + [0]) && RootOf(c + [born], height + [0], x) == RootOf(c, height, x)
    decreases height[x]
  {
    if c[x].parent != x {
      RootsAppend(c, height, born, c[x].parent);
    }
  }

  lemma LinkedAreOld(links: set<(nat, nat)>, path: seq<nat>, n: nat)
    requires IsPath(links, path) && forall l :: l in links ==> l.0 < n && l.1 < n
    ensures |path| > 1 ==> path[0] < n && path[|path| - 1] < n
  {
    if |path| > 1 {
      var last := |path| - 2;
      assert Step(links, path[0], path[1]) && Step(links, path[last], path[last + 1]);
    }
  }

  lemma NewIsAlone(e: Evidence, n: nat, x: nat)
    requires Scoped(e, n) && Connected(e.links, x, n)
    ensures x == n
  {
    var path: seq<nat> :| IsPath(e.links, path) && path[0] == x && path[|path| - 1] == n;
    LinkedAreOld(e.links, path, n);
  }

  lemma RankedAppend(c: seq<Counter>, height: seq<nat>, born: Counter)
    requires Ranked(c, height) && born.parent == |c|
    ensures Ranked(c + [born], height + [0])
  {
  }

  /** A new counter is a class of its own, with nothing known of it. */
  lemma CreateIsSound(c: seq<Counter>, height: seq<nat>, e: Evidence)
    requires Sound(c, height, e)
    ensures Sound(c + [Counter(|c|, None, false, false)], height + [0], e)
  {
    hide Connected, MetUnder, LeftUnder;
    var d, h := c + [Counter(|c|, None, false, false)], height + [0];
    var n := |c|;
    RankedAppend(c, height, Counter(n, None, false, false));
    forall x | 0 <= x < n ensures Ranked(d, h) && RootOf(d, h, x) == RootOf(c, height, x) {
      RootsAppend(c, height, Counter(n, None, false, false), x);
    }
    forall x, y | 0 <= x < |d| && 0 <= y < |d| ensures SameClass(d, h, x, y) <==> Connected(e.links, x, y) {
      NewClass(c, height, e, x, y);
    }
    forall r | 0 <= r < |d| && d[r].parent == r ensures RootTells(d, h, e, r) {
      NewTells(c, height, e, r);
    }
  }

  lemma NewClass(c: seq<Counter>, height: seq<nat>, e: Evidence, x: nat, y: nat)
    requires Sound(c, height, e) && x <= |c| && y <= |c|
    requires forall z :: 0 <= z < |c| ==>
               Ranked(c + [Counter(|c|, None, false, false)], height + [0])
               && RootOf(c + [Counter(|c|, None, false, false)], height + [0], z) == RootOf(c, height, z)
    ensures Ranked(c + [Counter(|c|, None, false, false)], height + [0])
    ensures SameClass(c + [Counter(|c|, None, false, false)], height + [0], x, y) <==> Connected(e.links, x, y)
  {
    hide Connected, Tells;
    var n := |c|;
    if x < n && y < n {
      assert SameClass(c, height, x, y) <==> Connected(e.links, x, y);
    } else {
      if x == y {
        SelfConnected(e.links, x);
      }
      if Connected(e.links, x, y) {
        ConnectedBack(e.links, x, y);
        NewIsAlone(e, n, if y == n then x else y);
      }
    }
  }

  lemma NewTells(c: seq<Counter>, height: seq<nat>, e: Evidence, r: nat)
    requires Sound(c, height, e) && r <= |c|
    requires Ranked(c + [Counter(|c|, None, false, false)], height + [0])
    requires forall z :: 0 <= z < |c| ==>
               RootOf(c + [Counter(|c|, None, false, false)], height + [0], z) == RootOf(c, height, z)
    requires r < |c| ==> c[r].parent == r
    ensures RootTells(c + [Counter(|c|, None, false, false)], height + [0], e, r)
  {
    var d, h := c + [Counter(|c|, None, false, false)], height + [0];
    assert forall m :: m in e.met ==> m.0 < |c|;
    assert forall i :: i in e.left ==> i < |c|;
    if r < |c| {
      assert RootTells(c, height, e, r);
      forall s: string ensures MetUnder(d, h, e, r, s) == MetUnder(c, height, e, r, s) {
        if MetUnder(c, height, e, r, s) {
          var id: nat :| id < |c| && (id, s) in e.met && RootOf(c, height, id) == r;
          assert RootOf(d, h, id) == r;
        }
        if MetUnder(d, h, e, r, s) {
          var id: nat :| id < |d| && (id, s) in e.met && RootOf(d, h, id) == r;
          assert (id, s).0 < |c|;
        }
      }
      assert LeftUnder(d, h, e, r) == LeftUnder(c, height, e, r) by {
        if LeftUnder(c, height, e, r) {
          var id: nat :| id < |c| && id in e.left && RootOf(c, height, id) == r;
          assert RootOf(d, h, id) == r;
        }
      }
    } else {
      forall s: string ensures !MetUnder(d, h, e, r, s) {
        NothingUnderNew(c, height, e, s);
      }
      assert !LeftUnder(d, h, e, r);
    }
  }

  lemma NothingUnderNew(c: seq<Counter>, height: seq<nat>, e: Evidence, s: string)
    requires Sound(c, height, e) && Ranked(c + [Counter(|c|, None, false, false)], height + [0])
    requires forall z :: 0 <= z < |c| ==>
               RootOf(c + [Counter(|c|, None, false, false)], height + [0], z) == RootOf(c, height, z)
    ensures !MetUnder(c + [Counter(|c|, None, false, false)], height + [0], e, |c|, s)
  {
    forall id: nat | (id, s) in e.met ensures id < |c| {
      assert (id, s).0 < |c|;
    }
  }
}
