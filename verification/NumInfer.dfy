/** What decides a counter's type, stated without any union-find.

  The evidence of a function body is a set: which counters were linked, which met a value
  of a declared type, and which were used where nothing can be told.  A counter's verdict
  is a function of that set alone, so no order of collecting it matters. */
module NumInfer {
  import opened Wrappers

  /** A declared integer type, by its spelling and its node in the program. */
  datatype Declared = Declared(spelling: string, node: nat)

  datatype Op =
    | Create
    | Link(ids: seq<nat>)
    | Settle(ids: seq<nat>, declared: Declared)
    | LeaveAlone(ids: seq<nat>)

  /** Undirected links, spellings met, and counters used opaquely. */
  datatype Evidence = Evidence(links: set<(nat, nat)>, met: set<(nat, string)>, left: set<nat>)

  const NOTHING := Evidence({}, {}, {})

  // -- collecting evidence -------------------------------------------------------------------

  function Spokes(first: nat, rest: seq<nat>): set<(nat, nat)> {
    set k | 0 <= k < |rest| :: (first, rest[k])
  }

  function Adds(op: Op): Evidence {
    match op
    case Create => NOTHING
    case Link(ids) => Evidence(if ids == [] then {} else Spokes(ids[0], ids[1..]), {}, {})
    case Settle(ids, d) => Evidence({}, set k | 0 <= k < |ids| :: (ids[k], d.spelling), {})
    case LeaveAlone(ids) => Evidence({}, {}, set k | 0 <= k < |ids| :: ids[k])
  }

  function Plus(a: Evidence, b: Evidence): Evidence {
    Evidence(a.links + b.links, a.met + b.met, a.left + b.left)
  }

  function EvidenceOf(ops: seq<Op>): Evidence {
    if ops == [] then NOTHING else Plus(EvidenceOf(ops[..|ops| - 1]), Adds(ops[|ops| - 1]))
  }

  // -- verdicts ----------------------------------------------------------------------------------

  predicate Step(links: set<(nat, nat)>, a: nat, b: nat) {
    (a, b) in links || (b, a) in links
  }

  predicate IsPath(links: set<(nat, nat)>, path: seq<nat>) {
    path != [] && forall k :: 0 <= k < |path| - 1 ==> Step(links, path[k], path[k + 1])
  }

  ghost predicate Connected(links: set<(nat, nat)>, a: nat, b: nat) {
    exists path: seq<nat> :: IsPath(links, path) && path[0] == a && path[|path| - 1] == b
  }

  /** Some counter of `id`'s class met a value of this spelling. */
  ghost predicate Meets(e: Evidence, id: nat, spelling: string) {
    exists other: nat :: (other, spelling) in e.met && Connected(e.links, id, other)
  }

  ghost predicate IsLeft(e: Evidence, id: nat) {
    exists other: nat :: other in e.left && Connected(e.links, id, other)
  }

  ghost predicate Conflicted(e: Evidence, id: nat) {
    exists x: string, y: string :: x != y && Meets(e, id, x) && Meets(e, id, y)
  }

  predicate IsWrapping(spelling: string) {
    "wrapping[" <= spelling
  }

  /** The counter is annotated with a type of this spelling. */
  ghost predicate Annotated(e: Evidence, id: nat, spelling: string) {
    Meets(e, id, spelling) && !Conflicted(e, id) && !IsLeft(e, id) && IsWrapping(spelling)
  }

  lemma {:induction false} EvidenceHas(ops: seq<Op>)
    ensures forall l :: l in EvidenceOf(ops).links <==> exists k :: 0 <= k < |ops| && l in Adds(ops[k]).links
    ensures forall m :: m in EvidenceOf(ops).met <==> exists k :: 0 <= k < |ops| && m in Adds(ops[k]).met
    ensures forall i :: i in EvidenceOf(ops).left <==> exists k :: 0 <= k < |ops| && i in Adds(ops[k]).left
  {
    hide Adds;
    if ops != [] {
      var front, last := ops[..|ops| - 1], |ops| - 1;
      EvidenceHas(front);
      forall l ensures l in EvidenceOf(ops).links <==> exists k :: 0 <= k < |ops| && l in Adds(ops[k]).links {
        if l in EvidenceOf(front).links {
          var k :| 0 <= k < |front| && l in Adds(front[k]).links;
          assert l in Adds(ops[k]).links;
        }
        if k :| 0 <= k < |ops| && l in Adds(ops[k]).links {
          assert k < last ==> l in Adds(front[k]).links;
        }
      }
      forall m ensures m in EvidenceOf(ops).met <==> exists k :: 0 <= k < |ops| && m in Adds(ops[k]).met {
        if m in EvidenceOf(front).met {
          var k :| 0 <= k < |front| && m in Adds(front[k]).met;
          assert m in Adds(ops[k]).met;
        }
        if k :| 0 <= k < |ops| && m in Adds(ops[k]).met {
          assert k < last ==> m in Adds(front[k]).met;
        }
      }
      forall i ensures i in EvidenceOf(ops).left <==> exists k :: 0 <= k < |ops| && i in Adds(ops[k]).left {
        if i in EvidenceOf(front).left {
          var k :| 0 <= k < |front| && i in Adds(front[k]).left;
          assert i in Adds(ops[k]).left;
        }
        if k :| 0 <= k < |ops| && i in Adds(ops[k]).left {
          assert k < last ==> i in Adds(front[k]).left;
        }
      }
    }
  }

  lemma SameOps(a: seq<Op>, b: seq<Op>)
    requires forall op :: op in a ==> op in b
    ensures EvidenceOf(a).links <= EvidenceOf(b).links
    ensures EvidenceOf(a).met <= EvidenceOf(b).met
    ensures EvidenceOf(a).left <= EvidenceOf(b).left
  {
    hide Adds, EvidenceOf;
    EvidenceHas(a);
    EvidenceHas(b);
    forall l | l in EvidenceOf(a).links ensures l in EvidenceOf(b).links {
      var k :| 0 <= k < |a| && l in Adds(a[k]).links;
      assert a[k] in b;
      var j :| 0 <= j < |b| && b[j] == a[k];
    }
    forall m | m in EvidenceOf(a).met ensures m in EvidenceOf(b).met {
      var k :| 0 <= k < |a| && m in Adds(a[k]).met;
      assert a[k] in b;
      var j :| 0 <= j < |b| && b[j] == a[k];
    }
    forall i | i in EvidenceOf(a).left ensures i in EvidenceOf(b).left {
      var k :| 0 <= k < |a| && i in Adds(a[k]).left;
      assert a[k] in b;
      var j :| 0 <= j < |b| && b[j] == a[k];
    }
  }

  /** Operations performed in another order, or more than once, decide the same counters. */
  lemma OrderDoesNotMatter(a: seq<Op>, b: seq<Op>, id: nat, spelling: string)
    requires forall op :: op in a <==> op in b
    ensures EvidenceOf(a) == EvidenceOf(b)
    ensures Annotated(EvidenceOf(a), id, spelling) <==> Annotated(EvidenceOf(b), id, spelling)
  {
    SameOps(a, b);
    SameOps(b, a);
  }

  // -- connection -----------------------------------------------------------------------------------

  lemma SelfConnected(links: set<(nat, nat)>, a: nat)
    ensures Connected(links, a, a)
  {
    assert IsPath(links, [a]) && [a][0] == a;
  }

  lemma PathReversed(links: set<(nat, nat)>, path: seq<nat>) returns (back: seq<nat>)
    requires IsPath(links, path)
    ensures IsPath(links, back) && back[0] == path[|path| - 1] && back[|back| - 1] == path[0]
  {
    var n := |path|;
    back := seq(n, k requires 0 <= k < n => path[n - 1 - k]);
    forall k | 0 <= k < n - 1 ensures Step(links, back[k], back[k + 1]) {
      var j := n - 2 - k;
      assert Step(links, path[j], path[j + 1]);
    }
  }

  lemma ConnectedBack(links: set<(nat, nat)>, a: nat, b: nat)
    requires Connected(links, a, b)
    ensures Connected(links, b, a)
  {
    var path: seq<nat> :| IsPath(links, path) && path[0] == a && path[|path| - 1] == b;
    var back := PathReversed(links, path);
  }

  lemma ConnectedThrough(links: set<(nat, nat)>, a: nat, b: nat, c: nat)
    requires Connected(links, a, b) && Connected(links, b, c)
    ensures Connected(links, a, c)
  {
    var p: seq<nat> :| IsPath(links, p) && p[0] == a && p[|p| - 1] == b;
    var q: seq<nat> :| IsPath(links, q) && q[0] == b && q[|q| - 1] == c;
    var path := p + q[1..];
    forall k | 0 <= k < |path| - 1 ensures Step(links, path[k], path[k + 1]) {
      if k < |p| - 1 {
        assert Step(links, p[k], p[k + 1]);
      } else {
        var j := k - (|p| - 1);
        assert Step(links, q[j], q[j + 1]);
      }
    }
    assert IsPath(links, path) && path[|path| - 1] == c;
  }

  lemma ConnectedStays(links: set<(nat, nat)>, more: set<(nat, nat)>, a: nat, b: nat)
    requires links <= more && Connected(links, a, b)
    ensures Connected(more, a, b)
  {
    var path: seq<nat> :| IsPath(links, path) && path[0] == a && path[|path| - 1] == b;
    forall k | 0 <= k < |path| - 1 ensures Step(more, path[k], path[k + 1]) {
      assert Step(links, path[k], path[k + 1]);
    }
    assert IsPath(more, path);
  }

  /** Connected through the new link, in either direction, or without it. */
  ghost predicate Joined(links: set<(nat, nat)>, a: nat, b: nat, x: nat, y: nat) {
    || Connected(links, x, y)
    || (Connected(links, x, a) && Connected(links, b, y))
    || (Connected(links, x, b) && Connected(links, a, y))
  }

  lemma JoinedStep(links: set<(nat, nat)>, a: nat, b: nat, x: nat, y: nat, z: nat)
    requires Joined(links, a, b, x, y) && Step(links + {(a, b)}, y, z)
    ensures Joined(links, a, b, x, z)
  {
    SelfConnected(links, a);
    SelfConnected(links, b);
    if Step(links, y, z) {
      assert IsPath(links, [y, z]) && [y, z][0] == y && [y, z][|[y, z]| - 1] == z;
      if Connected(links, x, y) {
        ConnectedThrough(links, x, y, z);
      } else if Connected(links, x, a) && Connected(links, b, y) {
        ConnectedThrough(links, b, y, z);
      } else {
        ConnectedThrough(links, a, y, z);
      }
    } else {
      TakesNewLink(links, a, b, x, y, z);
    }
  }

  lemma TakesNewLink(links: set<(nat, nat)>, a: nat, b: nat, x: nat, y: nat, z: nat)
    requires Joined(links, a, b, x, y) && ((y == a && z == b) || (y == b && z == a))
    ensures Joined(links, a, b, x, z)
  {
    SelfConnected(links, a);
    SelfConnected(links, b);
    if Connected(links, x, y) {
    } else if Connected(links, x, a) && Connected(links, b, y) {
      if y == a {
        ConnectedBack(links, b, a);
        ConnectedThrough(links, x, a, b);
      }
    } else {
      if y == b {
        ConnectedBack(links, a, b);
        ConnectedThrough(links, x, b, a);
      }
    }
  }

  lemma {:induction false} PathIsJoined(links: set<(nat, nat)>, a: nat, b: nat, path: seq<nat>)
    requires IsPath(links + {(a, b)}, path)
    ensures Joined(links, a, b, path[0], path[|path| - 1])
    decreases |path|
  {
    hide Connected, Joined;
    if |path| == 1 {
      SelfIsJoined(links, a, b, path[0]);
    } else {
      var front := path[..|path| - 1];
      var n := |path| - 2;
      assert IsPath(links + {(a, b)}, front);
      PathIsJoined(links, a, b, front);
      assert Step(links + {(a, b)}, path[n], path[n + 1]);
      JoinedStep(links, a, b, path[0], path[n], path[n + 1]);
    }
  }

  lemma SelfIsJoined(links: set<(nat, nat)>, a: nat, b: nat, x: nat)
    ensures Joined(links, a, b, x, x)
  {
    SelfConnected(links, x);
  }

  /** What one more link connects. */
  lemma LinkJoins(links: set<(nat, nat)>, a: nat, b: nat, x: nat, y: nat)
    ensures Connected(links + {(a, b)}, x, y) <==> Joined(links, a, b, x, y)
  {
    var more := links + {(a, b)};
    if Connected(more, x, y) {
      var path: seq<nat> :| IsPath(more, path) && path[0] == x && path[|path| - 1] == y;
      PathIsJoined(links, a, b, path);
    }
    if Joined(links, a, b, x, y) {
      assert Step(more, a, b) && IsPath(more, [a, b]) && [a, b][0] == a && [a, b][|[a, b]| - 1] == b;
      ConnectedBack(more, a, b);
      if Connected(links, x, y) {
        ConnectedStays(links, more, x, y);
      } else if Connected(links, x, a) && Connected(links, b, y) {
        ConnectedStays(links, more, x, a);
        ConnectedStays(links, more, b, y);
        ConnectedThrough(more, x, a, b);
        ConnectedThrough(more, x, b, y);
      } else {
        ConnectedStays(links, more, x, b);
        ConnectedStays(links, more, a, y);
        ConnectedThrough(more, x, b, a);
        ConnectedThrough(more, x, a, y);
      }
    }
  }
}
