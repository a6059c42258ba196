/** What each operation of the pass does to classes, spellings met and counters left alone, in the
  words the verdicts are given in. */
module CounterMeets {
  import opened Wrappers
  import opened NumInfer

  // -- more links -----------------------------------------------------------------------------

  /** `x` is in the class of one of the counters listed. */
  ghost predicate Touches(links: set<(nat, nat)>, ids: seq<nat>, x: nat) {
    exists k :: 0 <= k < |ids| && Connected(links, x, ids[k])
  }

  /** The classes are those there were, but that those of the counters listed are now one. */
  ghost predicate Links(links: set<(nat, nat)>, more: set<(nat, nat)>, ids: seq<nat>) {
    forall x: nat, y: nat ::
      Connected(more, x, y) <==> Connected(links, x, y) || (Touches(links, ids, x) && Touches(links, ids, y))
  }

  lemma OneTouches(links: set<(nat, nat)>, a: nat, x: nat)
    ensures Touches(links, [a], x) <==> Connected(links, x, a)
  {
    if Connected(links, x, a) {
      assert [a][0] == a;
    }
  }

  lemma MoreTouch(links: set<(nat, nat)>, ids: seq<nat>, b: nat, x: nat)
    ensures Touches(links, ids + [b], x) <==> Touches(links, ids, x) || Connected(links, x, b)
  {
    hide Connected;
    var more := ids + [b];
    if Touches(links, ids, x) {
      var k :| 0 <= k < |ids| && Connected(links, x, ids[k]);
      assert more[k] == ids[k];
    }
    assert more[|ids|] == b;
  }

  lemma SpokesAppend(first: nat, rest: seq<nat>, b: nat)
    ensures Spokes(first, rest + [b]) == Spokes(first, rest) + {(first, b)}
  {
    var more := rest + [b];
    forall l | l in Spokes(first, rest) + {(first, b)} ensures l in Spokes(first, more) {
      if l in Spokes(first, rest) {
        var k :| 0 <= k < |rest| && l == (first, rest[k]);
        assert l == (first, more[k]);
      } else {
        assert l == (first, more[|rest|]);
      }
    }
  }

  /** The counters listed are connected to the first of them, and so to one another. */
  lemma {:induction false} SpokesLink(links: set<(nat, nat)>, first: nat, rest: seq<nat>)
    ensures Links(links, links + Spokes(first, rest), [first] + rest)
    decreases |rest|
  {
    hide Connected;
    if rest == [] {
      assert Spokes(first, rest) == {} && links + {} == links && [first] + rest == [first];
      forall x: nat, y: nat
        ensures Connected(links, x, y) <==> Connected(links, x, y) || (Touches(links, [first], x) && Touches(links, [first], y))
      {
        OneTouches(links, first, x);
        OneTouches(links, first, y);
        if Connected(links, x, first) && Connected(links, y, first) {
          ThroughOne(links, first, x, y);
        }
      }
    } else {
      var n := |rest| - 1;
      var before, b := links + Spokes(first, rest[..n]), rest[n];
      SpokesLink(links, first, rest[..n]);
      assert rest == rest[..n] + [b];
      SpokesAppend(first, rest[..n], b);
      assert links + Spokes(first, rest) == before + {(first, b)};
      assert [first] + rest == ([first] + rest[..n]) + [b];
      forall x: nat, y: nat
        ensures Connected(before + {(first, b)}, x, y)
           <==> Connected(links, x, y) || (Touches(links, [first] + rest, x) && Touches(links, [first] + rest, y))
      {
        OneMoreSpoke(links, before, [first] + rest[..n], b, x, y);
      }
    }
  }

  lemma ThroughOne(links: set<(nat, nat)>, a: nat, x: nat, y: nat)
    requires Connected(links, x, a) && Connected(links, y, a)
    ensures Connected(links, x, y)
  {
    ConnectedBack(links, y, a);
    ConnectedThrough(links, x, a, y);
  }

  lemma OneMoreSpoke(links: set<(nat, nat)>, before: set<(nat, nat)>, ids: seq<nat>, b: nat, x: nat, y: nat)
    requires ids != [] && Links(links, before, ids)
    ensures Connected(before + {(ids[0], b)}, x, y)
       <==> Connected(links, x, y) || (Touches(links, ids + [b], x) && Touches(links, ids + [b], y))
  {
    hide Connected;
    var first := ids[0];
    LinkJoins(before, first, b, x, y);
    MoreTouch(links, ids, b, x);
    MoreTouch(links, ids, b, y);
    FirstTouches(links, before, ids, x);
    FirstTouches(links, before, ids, y);
    Symmetric(links, b, x);
    Symmetric(links, b, y);
    Symmetric(links, x, y);
    Symmetric(before, first, x);
    Symmetric(before, first, y);
    Symmetric(before, b, x);
    Symmetric(before, b, y);
    Reaches(links, before, ids, b, x);
    Reaches(links, before, ids, b, y);
    if Connected(links, x, b) && Connected(links, y, b) {
      ThroughOne(links, b, x, y);
    }
    if Touches(links, ids, x) && Touches(links, ids, y) {
      assert Connected(before, x, y);
    }
  }

  lemma Symmetric(links: set<(nat, nat)>, a: nat, b: nat)
    ensures Connected(links, a, b) <==> Connected(links, b, a)
  {
    if Connected(links, a, b) {
      ConnectedBack(links, a, b);
    }
    if Connected(links, b, a) {
      ConnectedBack(links, b, a);
    }
  }

  lemma FirstTouches(links: set<(nat, nat)>, before: set<(nat, nat)>, ids: seq<nat>, x: nat)
    requires ids != [] && Links(links, before, ids)
    ensures Connected(before, x, ids[0]) <==> Touches(links, ids, x)
  {
    hide Connected;
    SelfConnected(links, ids[0]);
    assert Touches(links, ids, ids[0]);
  }

  lemma Reaches(links: set<(nat, nat)>, before: set<(nat, nat)>, ids: seq<nat>, b: nat, x: nat)
    requires Links(links, before, ids)
    ensures Connected(before, x, b) <==> Connected(links, x, b) || (Touches(links, ids, x) && Touches(links, ids, b))
  {
    hide Connected, Touches;
  }

  // -- operations ---------------------------------------------------------------------------------

  /** Nothing but what a member of `ids`' classes met is new: `spelling`, if any. */
  ghost predicate Settles(e: Evidence, after: Evidence, ids: seq<nat>, spelling: string) {
    && (forall x: nat, y: nat :: Connected(after.links, x, y) <==> Connected(e.links, x, y))
    && (forall x: nat, s :: Meets(after, x, s) <==> Meets(e, x, s) || (s == spelling && Touches(e.links, ids, x)))
    && (forall x: nat :: IsLeft(after, x) <==> IsLeft(e, x))
  }

  ghost predicate Leaves(e: Evidence, after: Evidence, ids: seq<nat>) {
    && (forall x: nat, y: nat :: Connected(after.links, x, y) <==> Connected(e.links, x, y))
    && (forall x: nat, s :: Meets(after, x, s) <==> Meets(e, x, s))
    && (forall x: nat :: IsLeft(after, x) <==> IsLeft(e, x) || Touches(e.links, ids, x))
  }

  /** The classes of `ids` become one, and it has met, and is left alone for, whatever they were. */
  ghost predicate Joins(e: Evidence, after: Evidence, ids: seq<nat>) {
    && Links(e.links, after.links, ids)
    && (forall x: nat, s :: Meets(after, x, s) <==>
          Meets(e, x, s) || (Touches(e.links, ids, x) && exists k :: 0 <= k < |ids| && Meets(e, ids[k], s)))
    && (forall x: nat :: IsLeft(after, x) <==>
          IsLeft(e, x) || (Touches(e.links, ids, x) && exists k :: 0 <= k < |ids| && IsLeft(e, ids[k])))
  }

  lemma SettleSettles(e: Evidence, ids: seq<nat>, d: Declared)
    ensures Settles(e, Plus(e, Adds(Settle(ids, d))), ids, d.spelling)
  {
    hide Connected;
    var after := Plus(e, Adds(Settle(ids, d)));
    assert after.links == e.links && after.left == e.left;
    forall x: nat, s ensures Meets(after, x, s) <==> Meets(e, x, s) || (s == d.spelling && Touches(e.links, ids, x)) {
      if Meets(e, x, s) {
        var other: nat :| (other, s) in e.met && Connected(e.links, x, other);
        assert (other, s) in after.met;
      }
      if s == d.spelling && Touches(e.links, ids, x) {
        var k :| 0 <= k < |ids| && Connected(e.links, x, ids[k]);
        assert (ids[k], s) in after.met;
      }
    }
    forall x: nat ensures IsLeft(after, x) <==> IsLeft(e, x) {
    }
  }

  lemma LeaveLeaves(e: Evidence, ids: seq<nat>)
    ensures Leaves(e, Plus(e, Adds(LeaveAlone(ids))), ids)
  {
    hide Connected;
    var after := Plus(e, Adds(LeaveAlone(ids)));
    assert after.links == e.links && after.met == e.met;
    forall x: nat ensures IsLeft(after, x) <==> IsLeft(e, x) || Touches(e.links, ids, x) {
      if IsLeft(e, x) {
        var other: nat :| other in e.left && Connected(e.links, x, other);
        assert other in after.left;
      }
      if Touches(e.links, ids, x) {
        var k :| 0 <= k < |ids| && Connected(e.links, x, ids[k]);
        assert ids[k] in after.left;
      }
    }
  }

  lemma LinkLinks(e: Evidence, ids: seq<nat>)
    ensures var after := Plus(e, Adds(Link(ids)));
            Links(e.links, after.links, ids) && after.met == e.met && after.left == e.left
  {
    hide Connected;
    var after := Plus(e, Adds(Link(ids)));
    if ids == [] {
      assert after.links == e.links;
    } else {
      assert ids == [ids[0]] + ids[1..];
      SpokesLink(e.links, ids[0], ids[1..]);
    }
  }

  /** A counter of the class of one of `ids` joins the class of another. */
  lemma LinkJoinsAll(e: Evidence, ids: seq<nat>)
    ensures Joins(e, Plus(e, Adds(Link(ids))), ids)
  {
    hide Connected, Links;
    var after := Plus(e, Adds(Link(ids)));
    LinkLinks(e, ids);
    forall x: nat, s
      ensures Meets(after, x, s) <==>
                Meets(e, x, s) || (Touches(e.links, ids, x) && exists k :: 0 <= k < |ids| && Meets(e, ids[k], s))
    {
      JoinedMeets(e, after, ids, x, s);
    }
    forall x: nat
      ensures IsLeft(after, x) <==>
                IsLeft(e, x) || (Touches(e.links, ids, x) && exists k :: 0 <= k < |ids| && IsLeft(e, ids[k]))
    {
      JoinedLeft(e, after, ids, x);
    }
  }

  lemma JoinedMeets(e: Evidence, after: Evidence, ids: seq<nat>, x: nat, s: string)
    requires Links(e.links, after.links, ids) && after.met == e.met
    ensures Meets(after, x, s) <==>
              Meets(e, x, s) || (Touches(e.links, ids, x) && exists k :: 0 <= k < |ids| && Meets(e, ids[k], s))
  {
    hide Connected;
    if other: nat :| (other, s) in e.met && Connected(after.links, x, other) {
      if !Connected(e.links, x, other) {
        var k :| 0 <= k < |ids| && Connected(e.links, other, ids[k]);
        Symmetric(e.links, other, ids[k]);
        assert Meets(e, ids[k], s);
      }
    }
    if Meets(e, x, s) {
      var other: nat :| (other, s) in e.met && Connected(e.links, x, other);
      assert Connected(after.links, x, other);
    }
    if Touches(e.links, ids, x) && exists k :: 0 <= k < |ids| && Meets(e, ids[k], s) {
      var k :| 0 <= k < |ids| && Meets(e, ids[k], s);
      var other: nat :| (other, s) in e.met && Connected(e.links, ids[k], other);
      Symmetric(e.links, ids[k], other);
      assert Touches(e.links, ids, other);
      assert Connected(after.links, x, other);
    }
  }

  lemma JoinedLeft(e: Evidence, after: Evidence, ids: seq<nat>, x: nat)
    requires Links(e.links, after.links, ids) && after.left == e.left
    ensures IsLeft(after, x) <==>
              IsLeft(e, x) || (Touches(e.links, ids, x) && exists k :: 0 <= k < |ids| && IsLeft(e, ids[k]))
  {
    hide Connected;
    if other: nat :| other in e.left && Connected(after.links, x, other) {
      if !Connected(e.links, x, other) {
        var k :| 0 <= k < |ids| && Connected(e.links, other, ids[k]);
        Symmetric(e.links, other, ids[k]);
        assert IsLeft(e, ids[k]);
      }
    }
    if IsLeft(e, x) {
      var other: nat :| other in e.left && Connected(e.links, x, other);
      assert Connected(after.links, x, other);
    }
    if Touches(e.links, ids, x) && exists k :: 0 <= k < |ids| && IsLeft(e, ids[k]) {
      var k :| 0 <= k < |ids| && IsLeft(e, ids[k]);
      var other: nat :| other in e.left && Connected(e.links, ids[k], other);
      Symmetric(e.links, ids[k], other);
      assert Touches(e.links, ids, other);
      assert Connected(after.links, x, other);
    }
  }
}
