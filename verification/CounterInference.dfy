/** The pass's own object: it creates, links, settles and leaves counters alone as the walk
  of a body tells it to, and reads every counter's type off its root at the end. */
module CounterInference {
  import opened Wrappers
  import opened NumInfer
  import opened CounterForest
  import opened CounterMeets

  /** What an expression is, to the pass. */
  datatype Info = Open(ids: seq<nat>) | Known(declared: Declared) | Other

  /** Two operands of one type. */
  function MetInfo(left: Info, right: Info): Info {
    match (left, right)
    case (Open(a), Open(b)) => Open(a + b)
    case (Open(_), Known(d)) => Known(d)
    case (Known(d), Open(_)) => Known(d)
    case (Known(d), Known(_)) => Known(d)
    case _ => Other
  }

  function MetAdds(left: Info, right: Info): Evidence {
    match (left, right)
    case (Open(a), Open(b)) => Adds(Link(a + b))
    case (Open(a), Known(d)) => Adds(Settle(a, d))
    case (Known(d), Open(a)) => Adds(Settle(a, d))
    case (Open(a), Other) => Adds(LeaveAlone(a))
    case (Other, Open(a)) => Adds(LeaveAlone(a))
    case _ => NOTHING
  }

  /** No class, no spelling met and no counter left alone is new. */
  ghost predicate Unchanged(e: Evidence, after: Evidence) {
    && (forall x: nat, y: nat :: Connected(after.links, x, y) <==> Connected(e.links, x, y))
    && (forall x: nat, s :: Meets(after, x, s) <==> Meets(e, x, s))
    && (forall x: nat :: IsLeft(after, x) <==> IsLeft(e, x))
  }

  /** What comes of two operands that must be of one type.  Two open ones are of one class from then
    on and open still; an open one beside a declared type meets it, and that is the type; an open
    one beside anything else is left alone; and nothing comes of the other pairs but that a
    declared type, the left one's, is the type of two. */
  ghost predicate ComesOf(e: Evidence, after: Evidence, left: Info, right: Info, met: Info) {
    match left
    case Open(a) =>
      (match right
       case Open(b) => Joins(e, after, a + b) && met.Open? && met.ids == a + b
       case Known(d) => Settles(e, after, a, d.spelling) && met == right
       case Other => Leaves(e, after, a) && met == Other)
    case Known(d) =>
      (match right
       case Open(b) => Settles(e, after, b, d.spelling) && met == left
       case Known(_) => Unchanged(e, after) && met == left
       case Other => Unchanged(e, after) && met == Other)
    case Other =>
      (match right
       case Open(b) => Leaves(e, after, b) && met == Other
       case _ => Unchanged(e, after) && met == Other)
  }

  lemma MeetingComes(e: Evidence, left: Info, right: Info)
    ensures ComesOf(e, Plus(e, MetAdds(left, right)), left, right, MetInfo(left, right))
  {
    hide Joins, Settles, Leaves, Adds;
    match (left, right)
    case (Open(a), Open(b)) => LinkJoinsAll(e, a + b);
    case (Open(a), Known(d)) => SettleSettles(e, a, d);
    case (Known(d), Open(a)) => SettleSettles(e, a, d);
    case (Open(a), Other) => LeaveLeaves(e, a);
    case (Other, Open(a)) => LeaveLeaves(e, a);
    case _ => NothingAdded(e);
  }

  predicate Below(ids: seq<nat>, n: nat) {
    forall k :: 0 <= k < |ids| ==> ids[k] < n
  }

  predicate InfoBelow(info: Info, n: nat) {
    info.Open? ==> Below(info.ids, n)
  }

  class Decide {
    var counters: seq<Counter>
    ghost var height: seq<nat>
    ghost var evidence: Evidence

    ghost predicate Valid()
      reads this
    {
      Sound(counters, height, evidence)
    }

    constructor ()
      ensures Valid() && counters == [] && evidence == NOTHING
    {
      counters, height, evidence := [], [], NOTHING;
    }

    method Create() returns (id: nat)
      requires Valid()
      modifies this
      ensures Valid() && evidence == old(evidence) && id == |old(counters)| && |counters| == id + 1
    {
      CreateIsSound(counters, height, evidence);
      id := |counters|;
      counters, height := counters + [Counter(id, None, false, false)], height + [0];
    }

    /** The root of `id`'s class, shortening the path to it. */
    method Root(id: nat) returns (r: nat)
      requires Valid() && id < |counters|
      modifies this`counters
      ensures Valid() && Ranked(counters, height) && Repointed(old(counters), counters)
      ensures r == RootOf(old(counters), height, id)
      ensures forall x :: 0 <= x < |counters| ==> RootOf(counters, height, x) == RootOf(old(counters), height, x)
    {
      hide Tells, Classes;
      r := id;
      while counters[r].parent != r
        invariant Valid() && r < |counters| && Repointed(old(counters), counters)
        invariant RootOf(counters, height, r) == RootOf(old(counters), height, id)
        invariant forall x :: 0 <= x < |counters| ==> RootOf(counters, height, x) == RootOf(old(counters), height, x)
        decreases height[r]
      {
        ghost var before := counters;
        var up := counters[r].parent;
        counters := counters[r := counters[r].(parent := counters[up].parent)];
        forall x | 0 <= x < |counters|
          ensures Ranked(counters, height) && RootOf(counters, height, x) == RootOf(before, height, x)
        {
          HalvingKeepsRoots(before, counters, height, r, x);
        }
        RepointingIsSound(before, counters, height, evidence);
        r := up;
      }
    }

    /** Joins the classes of the counters listed. */
    method LinkAll(ids: seq<nat>)
      requires Valid() && Below(ids, |counters|)
      modifies this
      ensures Valid() && |counters| == |old(counters)| && evidence == Plus(old(evidence), Adds(Link(ids)))
    {
      hide Sound;
      if ids == [] {
        return;
      }
      ghost var n := |counters|;
      ghost var first, rest := ids[0], ids[1..];
      var a := Root(ids[0]);
      var k := 1;
      assert Spokes(first, rest[..0]) == {} by { NoSpokes(first); }
      SoundIsRanked(counters, height, evidence);
      while k < |ids|
        invariant 1 <= k <= |ids| && Valid() && |counters| == n && Ranked(counters, height)
        invariant a < n && a == RootOf(counters, height, first)
        invariant evidence == Plus(old(evidence), Evidence(Spokes(first, rest[..k - 1]), {}, {}))
      {
        SpokesGrow(first, rest, k - 1);
        LinkOne(a, first, ids[k]);
        k := k + 1;
      }
      assert rest[..k - 1] == rest;
    }

    /** `id` joins the class of `first`, whose root is `a`. */
    method LinkOne(a: nat, ghost first: nat, id: nat)
      requires Valid() && Ranked(counters, height) && first < |counters| && id < |counters|
      requires a == RootOf(counters, height, first)
      modifies this
      ensures Valid() && Ranked(counters, height) && |counters| == |old(counters)|
      ensures evidence == WithLink(old(evidence), first, id) && a == RootOf(counters, height, first)
    {
      hide Sound, Ranked, RootOf, WithLink, Raised;
      var b := Root(id);
      assert a == RootOf(counters, height, first) && b == RootOf(counters, height, id);
      if a == b {
        LinkWithinIsSound(counters, height, evidence, first, id);
      } else {
        HangIsSound(counters, height, evidence, first, id);
        HungRoots(counters, height, a, b);
        height := Raised(counters, height, a, b);
        counters := counters[b := counters[b].(parent := a, decided := None)][a := Merged(counters[a], counters[b])];
      }
      evidence := WithLink(evidence, first, id);
    }

    /** The counters meet a value of a declared type. */
    method SettleAll(ids: seq<nat>, declared: Declared)
      requires Valid() && Below(ids, |counters|)
      modifies this
      ensures Valid() && |counters| == |old(counters)| && evidence == Plus(old(evidence), Adds(Settle(ids, declared)))
    {
      hide Sound;
      ghost var n := |counters|;
      var k := 0;
      while k < |ids|
        invariant 0 <= k <= |ids| && Valid() && |counters| == n
        invariant evidence == Plus(old(evidence), Evidence({}, set j | 0 <= j < k :: (ids[j], declared.spelling), {}))
      {
        ghost var id := ids[k];
        var r := Root(ids[k]);
        SettleIsSound(counters, height, evidence, id, declared);
        counters := counters[r := Met(counters[r], declared)];
        evidence := WithMet(evidence, id, declared.spelling);
        k := k + 1;
      }
    }

    /** The counters were used where nothing tells what decides them. */
    method LeaveAll(ids: seq<nat>)
      requires Valid() && Below(ids, |counters|)
      modifies this
      ensures Valid() && |counters| == |old(counters)| && evidence == Plus(old(evidence), Adds(LeaveAlone(ids)))
    {
      hide Sound;
      ghost var n := |counters|;
      var k := 0;
      while k < |ids|
        invariant 0 <= k <= |ids| && Valid() && |counters| == n
        invariant evidence == Plus(old(evidence), Evidence({}, {}, set j | 0 <= j < k :: ids[j]))
      {
        ghost var id := ids[k];
        var r := Root(ids[k]);
        LeaveIsSound(counters, height, evidence, id);
        counters := counters[r := counters[r].(leftAlone := true)];
        evidence := WithLeft(evidence, id);
        k := k + 1;
      }
    }

    method Meet(left: Info, right: Info) returns (met: Info)
      requires Valid() && InfoBelow(left, |counters|) && InfoBelow(right, |counters|)
      modifies this
      ensures Valid() && |counters| == |old(counters)|
      ensures met == MetInfo(left, right) && evidence == Plus(old(evidence), MetAdds(left, right))
      ensures ComesOf(old(evidence), evidence, left, right, met)
      ensures InfoBelow(met, |counters|)
    {
      hide Sound, ComesOf;
      MeetingComes(evidence, left, right);
      match (left, right) {
        case (Open(a), Open(b)) =>
          LinkAll(a + b);
          met := Open(a + b);
        case (Open(a), Known(d)) =>
          SettleAll(a, d);
          met := Known(d);
        case (Known(d), Open(a)) =>
          SettleAll(a, d);
          met := Known(d);
        case (Known(d), Known(_)) =>
          met := Known(d);
        case (Open(a), Other) =>
          LeaveAll(a);
          met := Other;
        case (Other, Open(a)) =>
          LeaveAll(a);
          met := Other;
        case _ =>
          met := Other;
      }
    }

    /** The type each counter is annotated with, if any: exactly its verdict. */
    method Annotations() returns (out: seq<Option<Declared>>)
      requires Valid()
      modifies this`counters
      ensures Valid() && |out| == |counters| == |old(counters)|
      ensures forall id :: 0 <= id < |out| ==> Tagged(evidence, id, out[id])
    {
      hide Sound;
      out := [];
      var id := 0;
      while id < |counters|
        invariant 0 <= id <= |counters| && Valid() && |out| == id && |counters| == |old(counters)|
        invariant forall k :: 0 <= k < id ==> Tagged(evidence, k, out[k])
      {
        var r := Root(id);
        var group := counters[r];
        var tag := if group.decided.Some? && !group.conflict && !group.leftAlone
                      && IsWrapping(group.decided.value.spelling)
                   then group.decided else None;
        TagIsVerdict(counters, height, evidence, id, tag);
        out := out + [tag];
        id := id + 1;
      }
    }
  }

  /** `tag` is the annotation the evidence calls for. */
  ghost predicate Tagged(e: Evidence, id: nat, tag: Option<Declared>) {
    match tag
    case Some(d) => Annotated(e, id, d.spelling)
    case None => forall s: string :: !Annotated(e, id, s)
  }

  lemma TagIsVerdict(c: seq<Counter>, height: seq<nat>, e: Evidence, id: nat, tag: Option<Declared>)
    requires Sound(c, height, e) && id < |c|
    requires var g := c[RootOf(c, height, id)];
             tag == if g.decided.Some? && !g.conflict && !g.leftAlone && IsWrapping(g.decided.value.spelling)
                    then g.decided else None
    ensures Tagged(e, id, tag)
  {
    hide Annotated, IsWrapping;
    forall s: string
      ensures var g := c[RootOf(c, height, id)];
              Annotated(e, id, s) <==>
                g.decided.Some? && g.decided.value.spelling == s && !g.conflict && !g.leftAlone && IsWrapping(s)
    {
      RootDecides(c, height, e, id, s);
    }
  }

  lemma SoundIsRanked(c: seq<Counter>, height: seq<nat>, e: Evidence)
    requires Sound(c, height, e)
    ensures Ranked(c, height)
  {
  }

  lemma NoSpokes(first: nat)
    ensures Spokes(first, []) == {}
  {
  }

  lemma SpokesGrow(first: nat, rest: seq<nat>, k: nat)
    requires k < |rest|
    ensures Spokes(first, rest[..k + 1]) == Spokes(first, rest[..k]) + {(first, rest[k])}
  {
    var more := rest[..k + 1];
    assert more[k] == rest[k];
    assert forall j :: 0 <= j < k ==> more[j] == rest[..k][j];
    assert forall l :: l in Spokes(first, rest[..k]) ==> l in Spokes(first, more) by {
      forall l | l in Spokes(first, rest[..k]) ensures l in Spokes(first, more) {
        var j :| 0 <= j < k && l == (first, rest[..k][j]);
        assert l == (first, more[j]);
      }
    }
    assert (first, more[k]) in Spokes(first, more);
  }

  // -- whole runs -----------------------------------------------------------------------------------------

  function Created(ops: seq<Op>): nat {
    if ops == [] then 0 else Created(ops[..|ops| - 1]) + if ops[|ops| - 1].Create? then 1 else 0
  }

  predicate Uses(op: Op, n: nat) {
    match op
    case Create => true
    case Link(ids) => Below(ids, n)
    case Settle(ids, _) => Below(ids, n)
    case LeaveAlone(ids) => Below(ids, n)
  }

  /** Every operation names counters created before it. */
  predicate WellScoped(ops: seq<Op>) {
    ops == [] || (WellScoped(ops[..|ops| - 1]) && Uses(ops[|ops| - 1], Created(ops[..|ops| - 1])))
  }

  lemma {:induction false} ScopedPrefix(ops: seq<Op>, k: nat)
    requires WellScoped(ops) && k < |ops|
    ensures WellScoped(ops[..k]) && Uses(ops[k], Created(ops[..k]))
  {
    var front := ops[..|ops| - 1];
    if k < |front| {
      ScopedPrefix(front, k);
      assert front[..k] == ops[..k];
    }
  }

  lemma NothingAdded(e: Evidence)
    ensures Plus(e, NOTHING) == e
  {
  }

  /** After any sequence of operations each counter is annotated by its verdict on the
    evidence, however the classes were linked and the paths shortened on the way. */
  method DecideAll(ops: seq<Op>) returns (out: seq<Option<Declared>>)
    requires WellScoped(ops)
    ensures |out| == Created(ops)
    ensures forall id :: 0 <= id < |out| ==> Tagged(EvidenceOf(ops), id, out[id])
  {
    hide Sound, Adds, Tagged;
    var pass := new Decide();
    var k := 0;
    while k < |ops|
      invariant 0 <= k <= |ops| && fresh(pass) && pass.Valid()
      invariant |pass.counters| == Created(ops[..k]) && pass.evidence == EvidenceOf(ops[..k])
    {
      ScopedPrefix(ops, k);
      assert ops[..k + 1][..k] == ops[..k];
      match ops[k] {
        case Create =>
          var _ := pass.Create();
          NothingAdded(pass.evidence);
          assert Adds(Create) == NOTHING by { CreateAddsNothing(); }
        case Link(ids) => pass.LinkAll(ids);
        case Settle(ids, declared) => pass.SettleAll(ids, declared);
        case LeaveAlone(ids) => pass.LeaveAll(ids);
      }
      k := k + 1;
    }
    assert ops[..k] == ops;
    out := pass.Annotations();
  }

  lemma CreateAddsNothing()
    ensures Adds(Create) == NOTHING
  {
  }
}
