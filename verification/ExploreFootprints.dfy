/** When a slice's footprint is fixed by the choices that led to it.

  Operations are filed under the last `Task` decision, so an arm taken inside a slice may
  change what the slice touches.  It does not exactly when every arm met inside a slice is
  followed by the same touches whichever alternative is taken. */
module ExploreFootprints {
  import opened Wrappers
  import opened Scheduler

  function Touches(ops: seq<Op>): Footprint {
    if ops == [] then [] else Touches(ops[..|ops| - 1]) + [(ops[|ops| - 1].obj, ops[|ops| - 1].write)]
  }

  predicate ArmAt(m: Machine, p: seq<nat>) {
    var e := m.event(p);
    e.Decide? && e.kind.Arm?
  }

  /** What is touched after `p` up to the next `Task` decision, first alternatives taken at arms. */
  function Tail(m: Machine, p: seq<nat>): Footprint
    decreases m.depth - |p|
  {
    Touches(m.ops(p)) + if ArmAt(m, p) then Tail(m, p + [0]) else []
  }

  /** The footprint the choices `p` then `i` fix, where they fix one. */
  function SliceOf(m: Machine, p: seq<nat>, i: nat): Footprint {
    var e := m.event(p);
    if e.Decide? && e.kind.Task? then Tail(m, p + [i]) else []
  }

  /** Schedules that agree up to and including a decision have the same footprint there. */
  ghost predicate Determined(m: Machine) {
    forall c, d, k: nat ::
      Leaf(m, c) && Leaf(m, d) && k < |c| && k < |d| && c[..k + 1] == d[..k + 1] ==>
        FootprintOf(Log(m, c), k) == FootprintOf(Log(m, d), k)
  }

  /** Whichever arm is taken after `p`, the same is touched up to the next `Task` decision. */
  ghost predicate ArmAgrees(m: Machine, p: seq<nat>) {
    ArmAt(m, p) ==> forall i: nat :: i < |m.event(p).candidates| ==> Tail(m, p + [i]) == Tail(m, p + [0])
  }

  /** So it is at every arm met inside a task's slice. */
  ghost predicate ArmsAgree(m: Machine) {
    forall p :: Legal(m, p) && SliceAfter(m, p, |p|).Some? ==> ArmAgrees(m, p)
  }

  // -- taking a log apart -----------------------------------------------------------------------

  lemma {:induction false} FootprintAppends(a: seq<OpRecord>, b: seq<OpRecord>, k: nat)
    ensures FootprintOf(a + b, k) == FootprintOf(a, k) + FootprintOf(b, k)
  {
    if b == [] {
      assert a + b == a;
    } else {
      var l := |b| - 1;
      assert (a + b)[..|a + b| - 1] == a + b[..l];
      FootprintAppends(a, b[..l], k);
    }
  }

  lemma {:induction false} FootprintStamped(ops: seq<Op>, s: Option<nat>, k: nat)
    ensures FootprintOf(Stamp(ops, s), k) == if s == Some(k) then Touches(ops) else []
  {
    if ops != [] {
      var l := |ops| - 1;
      assert Stamp(ops, s)[..l] == Stamp(ops[..l], s);
      FootprintStamped(ops[..l], s, k);
    }
  }

  /** What the operations right after `c[..a]` add to the footprint of slice `k`. */
  function Share(m: Machine, c: seq<nat>, a: nat, k: nat): Footprint
    requires a <= |c|
  {
    if SliceAfter(m, c, a) == Some(k) then Touches(m.ops(c[..a])) else []
  }

  lemma LogSplits(m: Machine, c: seq<nat>, a: nat, k: nat)
    requires a <= |c|
    ensures FootprintOf(LogFrom(m, c, a), k)
            == Share(m, c, a, k) + if a == |c| then [] else FootprintOf(LogFrom(m, c, a + 1), k)
  {
    assert FootprintOf([], k) == [];
    hide Touches, FootprintOf, SliceAfter;
    var here, s := m.ops(c[..a]), SliceAfter(m, c, a);
    FootprintStamped(here, s, k);
    FootprintAppends(Stamp(here, s), if a == |c| then [] else LogFrom(m, c, a + 1), k);
  }

  /** The shares from `a` up to, but without, `b`. */
  function Shares(m: Machine, c: seq<nat>, a: nat, b: nat, k: nat): Footprint
    requires a <= b <= |c|
    decreases b - a
  {
    if a == b then [] else Share(m, c, a, k) + Shares(m, c, a + 1, b, k)
  }

  lemma {:induction false} SharesThenRest(m: Machine, c: seq<nat>, a: nat, b: nat, k: nat)
    requires a <= b <= |c|
    ensures FootprintOf(LogFrom(m, c, a), k) == Shares(m, c, a, b, k) + FootprintOf(LogFrom(m, c, b), k)
    decreases b - a
  {
    hide Share, FootprintOf, LogFrom;
    if a < b {
      LogSplits(m, c, a, k);
      SharesThenRest(m, c, a + 1, b, k);
    }
  }

  lemma ShareAgrees(m: Machine, c: seq<nat>, d: seq<nat>, a: nat, k: nat)
    requires a <= |c| && a <= |d| && c[..a] == d[..a]
    ensures Share(m, c, a, k) == Share(m, d, a, k)
  {
    hide SliceAfter, Touches;
    SliceExtends(m, c, d, a);
  }

  lemma {:induction false} SharesAgree(m: Machine, c: seq<nat>, d: seq<nat>, a: nat, b: nat, k: nat)
    requires a <= b + 1 && b < |c| && b < |d| && c[..b] == d[..b]
    ensures Shares(m, c, a, b + 1, k) == Shares(m, d, a, b + 1, k)
    decreases b + 1 - a
  {
    hide Share;
    if a <= b {
      assert c[..a] == c[..b][..a] == d[..b][..a] == d[..a];
      ShareAgrees(m, c, d, a, k);
      SharesAgree(m, c, d, a + 1, b, k);
    }
  }

  /** Nothing is filed under a slice before its decision. */
  lemma {:induction false} NothingBefore(m: Machine, c: seq<nat>, a: nat, k: nat)
    requires a <= k + 1 <= |c|
    ensures Shares(m, c, a, k + 1, k) == []
    decreases k + 1 - a
  {
    if a <= k {
      NothingBefore(m, c, a + 1, k);
    }
  }

  /** And nothing once a later task has been scheduled. */
  lemma {:induction false} NothingAfter(m: Machine, c: seq<nat>, a: nat, k: nat)
    requires a <= |c| && SliceAfter(m, c, a).Some? && SliceAfter(m, c, a).value > k
    ensures FootprintOf(LogFrom(m, c, a), k) == []
    decreases |c| - a
  {
    hide FootprintOf, LogFrom;
    LogSplits(m, c, a, k);
    if a < |c| {
      NothingAfter(m, c, a + 1, k);
    }
  }

  /** An arm has no slice of its own. */
  lemma {:induction false} NothingForArms(m: Machine, c: seq<nat>, a: nat, k: nat)
    requires k < |c| && a <= |c| && !TaskAt(m, c, k)
    ensures FootprintOf(LogFrom(m, c, a), k) == []
    decreases |c| - a
  {
    hide FootprintOf, LogFrom;
    LogSplits(m, c, a, k);
    if a < |c| {
      NothingForArms(m, c, a + 1, k);
    }
  }

  // -- from arms that agree to footprints that are fixed -----------------------------------------

  /** Arm `a` of slice `k` was taken as if its first alternative had been. */
  ghost predicate AsFirst(m: Machine, c: seq<nat>, a: nat, k: nat)
    requires a < |c|
  {
    ArmAt(m, c[..a]) && SliceAfter(m, c, a) == Some(k) ==> Tail(m, c[..a + 1]) == Tail(m, c[..a] + [0])
  }

  lemma {:induction false} TailIsLogged(m: Machine, c: seq<nat>, a: nat, k: nat)
    requires Leaf(m, c) && a <= |c| && SliceAfter(m, c, a) == Some(k)
    requires forall b :: a <= b < |c| ==> AsFirst(m, c, b, k)
    ensures FootprintOf(LogFrom(m, c, a), k) == Tail(m, c[..a])
    decreases |c| - a
  {
    hide FootprintOf, LogFrom, Touches, SliceAfter;
    LogSplits(m, c, a, k);
    if a == |c| {
      assert c[..a] == c;
    } else {
      SliceGoesOn(m, c, a);
      if TaskAt(m, c, a) {
        NothingAfter(m, c, a + 1, k);
      } else {
        assert ArmAt(m, c[..a]) && AsFirst(m, c, a, k);
        TailIsLogged(m, c, a + 1, k);
      }
    }
  }

  lemma SliceGoesOn(m: Machine, c: seq<nat>, a: nat)
    requires a < |c|
    ensures SliceAfter(m, c, a + 1) == if TaskAt(m, c, a) then Some(a) else SliceAfter(m, c, a)
    ensures SliceAfter(m, c, a).Some? ==> SliceAfter(m, c, a).value < a
  {
  }

  lemma AgreedFootprint(m: Machine, c: seq<nat>, k: nat)
    requires ArmsAgree(m) && Leaf(m, c) && k < |c|
    ensures FootprintOf(Log(m, c), k) == SliceOf(m, c[..k], c[k])
  {
    hide ArmsAgree, Tail, FootprintOf, SliceAfter, LogFrom;
    if TaskAt(m, c, k) {
      SharesThenRest(m, c, 0, k + 1, k);
      NothingBefore(m, c, 0, k);
      SliceGoesOn(m, c, k);
      forall b | k + 1 <= b < |c|
        ensures AsFirst(m, c, b, k)
      {
        TakenAsFirst(m, c, b, k);
      }
      TailIsLogged(m, c, k + 1, k);
      assert c[..k + 1] == c[..k] + [c[k]];
    } else {
      NothingForArms(m, c, 0, k);
    }
  }

  lemma LegalPrefix(m: Machine, p: seq<nat>, k: nat)
    requires Legal(m, p) && k <= |p|
    ensures Legal(m, p[..k])
  {
    assert forall i :: 0 <= i < k ==> p[..k][..i] == p[..i];
  }

  lemma TakenAsFirst(m: Machine, c: seq<nat>, a: nat, k: nat)
    requires ArmsAgree(m) && Legal(m, c) && a < |c|
    ensures AsFirst(m, c, a, k)
  {
    hide Tail, SliceAfter, Legal;
    if ArmAt(m, c[..a]) && SliceAfter(m, c, a) == Some(k) {
      var p := c[..a];
      PickIsLegal(m, c, a);
      LegalPrefix(m, c, a);
      SliceExtends(m, p, c, a);
      assert ArmAgrees(m, p);
      assert c[..a + 1] == p + [c[a]];
    }
  }

  lemma PickIsLegal(m: Machine, q: seq<nat>, k: nat)
    requires Legal(m, q) && k < |q|
    ensures m.event(q[..k]).Decide? && q[k] < |m.event(q[..k]).candidates|
  {
  }

  // -- and back -----------------------------------------------------------------------------------

  /** Every legal prefix goes on to a complete schedule, by first alternatives. */
  lemma Extended(m: Machine, p: seq<nat>) returns (c: seq<nat>)
    requires Legal(m, p)
    ensures Leaf(m, c) && Follows(c, p)
  {
    var expected := seq(|p|, i requires 0 <= i < |p| => (m.event(p[..i]).kind, m.event(p[..i]).candidates));
    ReplayIsExact(m, Plan(p, expected));
    c := Chosen(Run(m, Plan(p, expected)).decisions);
  }

  lemma Appended(m: Machine, p: seq<nat>, i: nat)
    requires Legal(m, p) && m.event(p).Decide? && i < |m.event(p).candidates|
    ensures Legal(m, p + [i])
  {
    var q := p + [i];
    assert q[..|p|] == p && forall k :: 0 <= k < |p| ==> q[..k] == p[..k];
  }

  /** Arm `i` after `p` in slice `k`, as a complete schedule logs it. */
  lemma ArmIsLogged(m: Machine, p: seq<nat>, i: nat, k: nat) returns (c: seq<nat>)
    requires Legal(m, p) && ArmAt(m, p) && i < |m.event(p).candidates| && SliceAfter(m, p, |p|) == Some(k)
    ensures Leaf(m, c) && p < c
    ensures FootprintOf(Log(m, c), k) == Shares(m, c, 0, |p| + 1, k) + Tail(m, p + [i])
  {
    var n := |p|;
    Appended(m, p, i);
    c := Extended(m, p + [i]);
    assert c[..n] == p == p[..n] && c[..n + 1] == p + [i];
    SliceExtends(m, p, c, n);
    hide SliceAfter, Tail, FootprintOf, LogFrom, Shares, Legal;
    SliceGoesOn(m, c, n);
    forall b | n + 1 <= b < |c|
      ensures AsFirst(m, c, b, k)
    {
      assert c[..b + 1] == c[..b] + [0];
    }
    TailIsLogged(m, c, n + 1, k);
    SharesThenRest(m, c, 0, n + 1, k);
  }

  lemma SameRest(h: Footprint, a: Footprint, b: Footprint)
    requires h + a == h + b
    ensures a == b
  {
    assert a == (h + a)[|h|..] && b == (h + b)[|h|..];
  }

  lemma ArmMustAgree(m: Machine, p: seq<nat>, i: nat)
    requires Determined(m) && Legal(m, p) && ArmAt(m, p) && SliceAfter(m, p, |p|).Some?
    requires i < |m.event(p).candidates|
    ensures Tail(m, p + [i]) == Tail(m, p + [0])
  {
    hide Tail, FootprintOf, Log, Shares, Leaf;
    var k := SliceAfter(m, p, |p|).value;
    var c := ArmIsLogged(m, p, i, k);
    var d := ArmIsLogged(m, p, 0, k);
    assert c[..|p|] == p == d[..|p|];
    assert c[..k + 1] == p[..k + 1] == d[..k + 1];
    SharesAgree(m, c, d, 0, |p|, k);
    SameRest(Shares(m, c, 0, |p| + 1, k), Tail(m, p + [i]), Tail(m, p + [0]));
  }

  /** Footprints are fixed by the choices up to the slice's own, if and only if every arm met
    inside a slice is followed by the same touches whichever alternative is taken. */
  lemma DeterminedMeansArmsAgree(m: Machine)
    ensures Determined(m) <==> ArmsAgree(m)
  {
    hide Tail, FootprintOf, Log, SliceAfter;
    if ArmsAgree(m) {
      forall c, d, k: nat | Leaf(m, c) && Leaf(m, d) && k < |c| && k < |d| && c[..k + 1] == d[..k + 1]
        ensures FootprintOf(Log(m, c), k) == FootprintOf(Log(m, d), k)
      {
        AgreedFootprint(m, c, k);
        AgreedFootprint(m, d, k);
        assert c[..k] == c[..k + 1][..k] == d[..k] && c[k] == c[..k + 1][k] == d[k];
      }
    }
    if Determined(m) {
      forall p | Legal(m, p) && SliceAfter(m, p, |p|).Some?
        ensures ArmAgrees(m, p)
      {
        if ArmAt(m, p) {
          forall i: nat | i < |m.event(p).candidates|
            ensures Tail(m, p + [i]) == Tail(m, p + [0])
          {
            ArmMustAgree(m, p, i);
          }
        }
      }
    }
  }

  /** Where footprints are fixed, they are what taking first alternatives at arms would show. */
  lemma FootprintIsDetermined(m: Machine, c: seq<nat>, k: nat)
    requires Determined(m) && Leaf(m, c) && k < |c|
    ensures FootprintOf(Log(m, c), k) == SliceOf(m, c[..k], c[k])
  {
    hide *;
    DeterminedMeansArmsAgree(m);
    AgreedFootprint(m, c, k);
  }
}
