/** What a justified sleeper is worth: where footprints are fixed by the choices, no slice on
  the path conflicts with it; and where such slices commute, every schedule the skipped
  alternative begins is equivalent to one that ran the sleeper where it was explored. */
module ExploreCommute {
  import opened Wrappers
  import opened Scheduler
  import opened ExploreModel
  import opened ExploreOnce
  import opened ExploreFootprints
  import opened ExploreSleep

  // -- sleepers of machines whose footprints are fixed ----------------------------------------------

  /** `s` was explored at level `j`, and no slice on the path from `j` to `i` conflicts with it. */
  ghost predicate Undisturbed(m: Machine, path: seq<Node>, i: nat, j: nat, s: Sleeper)
    requires i < |path|
  {
    && j <= i
    && path[j].kind.Task? && s.task in path[j].candidates && s.task in path[j].done
    && s.footprint == SliceOf(m, Choices(path)[..j], IndexOf(path[j].candidates, s.task))
    && forall k :: j <= k < i ==>
         Independent(s.footprint, SliceOf(m, Choices(path)[..k], Choices(path)[k]))
  }

  lemma ExploredSlice(m: Machine, executed: seq<seq<nat>>, path: seq<Node>, j: nat, s: Sleeper)
    requires Determined(m) && (forall e :: e in executed ==> Leaf(m, e))
    requires j < |path| && ExploredAt(m, executed, path, j, s)
    ensures s.footprint == SliceOf(m, Choices(path)[..j], IndexOf(path[j].candidates, s.task))
  {
    hide Determined, SliceOf, FootprintOf, Log, Leaf;
    var p := Choices(path)[..j] + [IndexOf(path[j].candidates, s.task)];
    var e :| e in executed && p <= e && FootprintOf(Log(m, e), j) == s.footprint;
    assert e[..j] == Choices(path)[..j] && e[j] == p[j];
    FootprintIsDetermined(m, e, j);
  }

  lemma UnwokenSlice(m: Machine, executed: seq<seq<nat>>, path: seq<Node>, k: nat, fp: Footprint)
    requires Determined(m) && (forall e :: e in executed ==> Leaf(m, e))
    requires k < |path| && Unwoken(m, executed, path, k, fp)
    ensures Independent(fp, SliceOf(m, Choices(path)[..k], Choices(path)[k]))
  {
    hide Independent, Determined, SliceOf, FootprintOf, Log, Leaf;
    var e :| e in executed && Choices(path)[..k + 1] <= e && Independent(fp, FootprintOf(Log(m, e), k));
    assert e[..k + 1] == Choices(path)[..k + 1];
    assert e[..k] == e[..k + 1][..k] == Choices(path)[..k] && e[k] == e[..k + 1][k] == Choices(path)[k];
    FootprintIsDetermined(m, e, k);
  }

  /** Where footprints are fixed by the choices, a sleeper of level `i` traces to a level where
    it was explored with its footprint, and no slice on the path since then conflicts with it. */
  lemma SleepersAreUndisturbed(m: Machine, o: Options, n: nat, i: nat, s: Sleeper) returns (j: nat)
    requires Determined(m) && !o.naive && After(m, o, n).running && !Exhausted(o, After(m, o, n))
    requires var ran := Ran(m, o, After(m, o, n)); i < |ran.path| && s in ran.path[i].sleep
    ensures Undisturbed(m, Ran(m, o, After(m, o, n)).path, i, j, s)
  {
    hide After, Ran, Replay, Determined, SliceOf, ExploredAt, Unwoken, Independent;
    var ran := Ran(m, o, After(m, o, n));
    SleepersAreJustified(m, o, n, i, s);
    RanExecutedLeaves(m, o, n);
    var k: nat :| Chain(m, ran.executed, ran.path, i, k, s);
    j := k;
    ChainIsUndisturbed(m, ran.executed, ran.path, i, j, s);
  }

  lemma ChainIsUndisturbed(m: Machine, executed: seq<seq<nat>>, path: seq<Node>, i: nat, j: nat, s: Sleeper)
    requires Determined(m) && (forall e :: e in executed ==> Leaf(m, e))
    requires i < |path| && Chain(m, executed, path, i, j, s)
    ensures Undisturbed(m, path, i, j, s)
  {
    hide Determined, SliceOf, Unwoken, Independent, Choices, Leaf;
    ExploredSlice(m, executed, path, j, s);
    forall k | j <= k < i
      ensures Independent(s.footprint, SliceOf(m, Choices(path)[..k], Choices(path)[k]))
    {
      UnwokenSlice(m, executed, path, k, s.footprint);
    }
  }

  lemma RanExecutedLeaves(m: Machine, o: Options, n: nat)
    requires !o.naive && After(m, o, n).running
    ensures forall e :: e in Ran(m, o, After(m, o, n)).executed ==> Leaf(m, e)
  {
    AfterIsAwake(m, o, n);
    var st := After(m, o, n);
    RunIsNew(m, o, st);
    hide After;
  }

  // -- turns: a slice with its arms ---------------------------------------------------------------

  /** A task is scheduled, and these arms are taken before the next one is. */
  datatype Turn = Turn(task: nat, arms: seq<nat>)

  /** What choice `k` of `q` picked. */
  function PickAt(m: Machine, q: seq<nat>, k: nat): nat
    requires k < |q| && m.event(q[..k]).Decide? && q[k] < |m.event(q[..k]).candidates|
  {
    m.event(q[..k]).candidates[q[k]]
  }

  /** What the choices from `k` on picked. */
  ghost function Picks(m: Machine, q: seq<nat>, k: nat): (r: seq<nat>)
    requires Legal(m, q) && k <= |q|
    ensures |r| == |q| - k && forall x :: 0 <= x < |r| ==> r[x] == PickAt(m, q, k + x)
    decreases |q| - k
  {
    if k == |q| then [] else [PickAt(m, q, k)] + Picks(m, q, k + 1)
  }

  /** The machine, having followed `p`, can make turn `t`, and `q` are its choices then. */
  ghost predicate Goes(m: Machine, p: seq<nat>, t: Turn, q: seq<nat>) {
    && Legal(m, q) && p <= q && |q| == |p| + 1 + |t.arms|
    && TaskAt(m, q, |p|) && PickAt(m, q, |p|) == t.task
    && (forall k :: 0 <= k < |t.arms| ==>
          ArmAt(m, q[..|p| + 1 + k]) && PickAt(m, q, |p| + 1 + k) == t.arms[k])
    && !ArmAt(m, q)
  }

  /** The turns `w`, one after the other, lead from `p` to `q`. */
  ghost predicate Runs(m: Machine, p: seq<nat>, w: seq<Turn>, q: seq<nat>)
    decreases |w|
  {
    if w == [] then p == q
    else
      var last := |w| - 1;
      var cut := |q| - 1 - |w[last].arms|;
      && |p| <= cut
      && Runs(m, p, w[..last], q[..cut])
      && Goes(m, q[..cut], w[last], q)
  }

  /** `task` is among the candidates after `p`. */
  predicate Offered(m: Machine, p: seq<nat>, task: nat) {
    var e := m.event(p);
    e.Decide? && e.kind.Task? && task in e.candidates
  }

  /** The footprint `task` would have after `p`. */
  function FootOf(m: Machine, p: seq<nat>, task: nat): Footprint
    requires Offered(m, p, task)
  {
    SliceOf(m, p, IndexOf(m.event(p).candidates, task))
  }

  // -- machines with states ------------------------------------------------------------------------

  /** What the machine can do after `p` it can do after `q`, to the same effect. */
  ghost predicate Mimics<S(!new)>(m: Machine, state: seq<nat> -> S, p: seq<nat>, q: seq<nat>) {
    forall t, r: seq<nat> :: Goes(m, p, t, r) ==> exists u: seq<nat> :: Goes(m, q, t, u) && state(u) == state(r)
  }

  /** `state` tells what the machine can do next. */
  ghost predicate Describes<S(!new)>(m: Machine, state: seq<nat> -> S) {
    forall p, q :: Legal(m, p) && Legal(m, q) && state(p) == state(q) ==> Mimics(m, state, p, q)
  }

  /** After turn `u` from `p` to `r`, `task` is offered as before, and any turn of it made then
    could have come first, `u` following it, to the same effect. */
  ghost predicate Swaps<S(!new)>(m: Machine, state: seq<nat> -> S, p: seq<nat>, u: Turn, r: seq<nat>, task: nat)
    requires Offered(m, p, task)
  {
    && Offered(m, r, task) && FootOf(m, r, task) == FootOf(m, p, task)
    && forall t: Turn, q: seq<nat> :: t.task == task && Goes(m, r, t, q) ==>
         exists a: seq<nat>, b: seq<nat> :: Goes(m, p, t, a) && Goes(m, a, u, b) && state(b) == state(q)
  }

  /** Two tasks are offered after `p`, and their footprints there do not conflict. */
  ghost predicate Apart(m: Machine, p: seq<nat>, task: nat, other: nat) {
    && task != other && Offered(m, p, task) && Offered(m, p, other)
    && Independent(FootOf(m, p, task), FootOf(m, p, other))
  }

  /** Turns of such tasks commute, unless the first ends the run. */
  ghost predicate Commutes<S(!new)>(m: Machine, state: seq<nat> -> S) {
    forall p, u: Turn, r, task :: Goes(m, p, u, r) && m.event(r).Decide? && Apart(m, p, task, u.task) ==>
      Swaps(m, state, p, u, r, task)
  }

  // -- runs -----------------------------------------------------------------------------------------

  lemma {:induction false} RunExtends(m: Machine, p: seq<nat>, w: seq<Turn>, q: seq<nat>)
    requires Runs(m, p, w, q)
    ensures p <= q && (w != [] ==> Legal(m, q))
    decreases |w|
  {
    hide Legal;
    if w != [] {
      var last := |w| - 1;
      RunExtends(m, p, w[..last], q[..|q| - 1 - |w[last].arms|]);
    }
  }

  lemma RunIsLegal(m: Machine, p: seq<nat>, w: seq<Turn>, q: seq<nat>)
    requires Runs(m, p, w, q) && Legal(m, p)
    ensures Legal(m, q) && p <= q
  {
    RunExtends(m, p, w, q);
  }

  lemma OneMore(m: Machine, p: seq<nat>, w: seq<Turn>, r: seq<nat>, t: Turn, q: seq<nat>)
    requires Runs(m, p, w, r) && Goes(m, r, t, q)
    ensures Runs(m, p, w + [t], q)
  {
    RunExtends(m, p, w, r);
    hide Legal;
    assert (w + [t])[..|w|] == w && q[..|r|] == r;
  }

  /** The last turn of a run, and where it began. */
  lemma LastTurn(m: Machine, p: seq<nat>, w: seq<Turn>, q: seq<nat>) returns (r: seq<nat>)
    requires Runs(m, p, w, q) && w != []
    ensures p <= r < q && Runs(m, p, w[..|w| - 1], r) && Goes(m, r, w[|w| - 1], q)
  {
    hide Goes;
    r := q[..|q| - 1 - |w[|w| - 1].arms|];
    RunExtends(m, p, w[..|w| - 1], r);
  }

  lemma {:induction false} RunsJoin(m: Machine, p: seq<nat>, v: seq<Turn>, r: seq<nat>, w: seq<Turn>, q: seq<nat>)
    requires Runs(m, p, v, r) && Runs(m, r, w, q)
    ensures Runs(m, p, v + w, q)
    decreases |w|
  {
    hide Runs, Goes;
    if w == [] {
      assert r == q && v + w == v by { RunIsEmpty(m, r, q); }
    } else {
      var last := |w| - 1;
      var x := LastTurn(m, r, w, q);
      RunsJoin(m, p, v, r, w[..last], x);
      OneMore(m, p, v + w[..last], x, w[last], q);
      assert (v + w[..last]) + [w[last]] == v + w;
    }
  }

  lemma RunIsEmpty(m: Machine, p: seq<nat>, q: seq<nat>)
    ensures Runs(m, p, [], q) <==> p == q
  {
  }

  lemma {:induction false} RunsPart(m: Machine, p: seq<nat>, v: seq<Turn>, w: seq<Turn>, q: seq<nat>) returns (r: seq<nat>)
    requires Runs(m, p, v + w, q)
    ensures p <= r <= q && Runs(m, p, v, r) && Runs(m, r, w, q)
    decreases |w|
  {
    hide Runs, Goes;
    if w == [] {
      assert v + w == v;
      r := q;
      RunIsEmpty(m, q, q);
      RunExtends(m, p, v, q);
    } else {
      var last := |w| - 1;
      assert (v + w)[..|v + w| - 1] == v + w[..last] && (v + w)[|v + w| - 1] == w[last];
      var x := LastTurn(m, p, v + w, q);
      r := RunsPart(m, p, v, w[..last], x);
      OneMore(m, r, w[..last], x, w[last], q);
      assert w[..last] + [w[last]] == w;
    }
  }

  lemma Mimicked<S(!new)>(m: Machine, state: seq<nat> -> S, p: seq<nat>, t: Turn, r: seq<nat>, q: seq<nat>)
    returns (u: seq<nat>)
    requires Describes(m, state) && Legal(m, p) && Legal(m, q) && state(p) == state(q) && Goes(m, p, t, r)
    ensures Goes(m, q, t, u) && Legal(m, u) && state(u) == state(r)
  {
    assert Mimics(m, state, p, q);
    var v: seq<nat> :| Goes(m, q, t, v) && state(v) == state(r);
    u := v;
  }

  /** From an equal state the same turns lead to an equal state. */
  lemma {:induction false} RunsAgain<S(!new)>(m: Machine, state: seq<nat> -> S, p: seq<nat>, w: seq<Turn>,
                                              q: seq<nat>, other: seq<nat>)
    returns (c: seq<nat>)
    requires Describes(m, state) && Legal(m, p) && Legal(m, other) && state(p) == state(other)
    requires Runs(m, p, w, q)
    ensures Runs(m, other, w, c) && Legal(m, c) && state(c) == state(q)
    decreases |w|
  {
    hide Goes, Runs, Legal, Describes;
    if w == [] {
      RunIsEmpty(m, p, q);
      RunIsEmpty(m, other, other);
      c := other;
    } else {
      var last := |w| - 1;
      var r := LastTurn(m, p, w, q);
      var d := RunsAgain(m, state, p, w[..last], r, other);
      RunIsLegal(m, p, w[..last], r);
      c := Mimicked(m, state, r, w[last], q, d);
      OneMore(m, other, w[..last], d, w[last], c);
      assert w[..last] + [w[last]] == w;
    }
  }

  // -- moving a turn to the front --------------------------------------------------------------------

  /** No slice between `p` and `q` conflicts with `fp`. */
  ghost predicate Quiet(m: Machine, p: seq<nat>, q: seq<nat>, fp: Footprint) {
    forall k :: |p| <= k < |q| ==> Independent(fp, SliceOf(m, q[..k], q[k]))
  }

  lemma QuietPrefix(m: Machine, p: seq<nat>, r: seq<nat>, q: seq<nat>, fp: Footprint)
    requires Quiet(m, p, q, fp) && r <= q
    ensures Quiet(m, p, r, fp)
  {
    hide Independent, SliceOf;
    forall k | |p| <= k < |r|
      ensures Independent(fp, SliceOf(m, r[..k], r[k]))
    {
      assert r[..k] == q[..k] && r[k] == q[k];
    }
  }

  predicate NoneOf(w: seq<Turn>, task: nat) {
    forall k :: 0 <= k < |w| ==> w[k].task != task
  }

  /** A turn that is made shows the footprint its task was offered with. */
  lemma MadeAsOffered(m: Machine, p: seq<nat>, t: Turn, q: seq<nat>)
    requires Goes(m, p, t, q)
    ensures |p| < |q| && Offered(m, p, t.task) && FootOf(m, p, t.task) == SliceOf(m, q[..|p|], q[|p|])
  {
    hide SliceOf, Legal;
    assert q[..|p|] == p;
    PickIsLegal(m, q, |p|);
    FrontIndex(m, p, q[|p|]);
  }

  /** While no slice conflicts with it and it is not run, a task stays offered as it was. */
  lemma {:induction false} StaysOffered<S(!new)>(m: Machine, state: seq<nat> -> S, p: seq<nat>, w: seq<Turn>,
                                                 q: seq<nat>, task: nat)
    requires Commutes(m, state) && Runs(m, p, w, q) && NoneOf(w, task) && m.event(q).Decide?
    requires Offered(m, p, task) && Quiet(m, p, q, FootOf(m, p, task))
    ensures Offered(m, q, task) && FootOf(m, q, task) == FootOf(m, p, task)
    decreases |w|
  {
    hide Runs, Goes, FootOf, Independent, SliceOf, Quiet;
    if w == [] {
      RunIsEmpty(m, p, q);
    } else {
      var last := |w| - 1;
      var r := LastTurn(m, p, w, q);
      QuietPrefix(m, p, r, q, FootOf(m, p, task));
      MadeAsOffered(m, r, w[last], q);
      QuietAt(m, p, r, q, FootOf(m, p, task));
      StaysOffered(m, state, p, w[..last], r, task);
      assert Apart(m, r, task, w[last].task);
      assert Swaps(m, state, r, w[last], q, task);
    }
  }

  lemma QuietAt(m: Machine, p: seq<nat>, r: seq<nat>, q: seq<nat>, fp: Footprint)
    requires Quiet(m, p, q, fp) && |p| <= |r| < |q|
    ensures Independent(fp, SliceOf(m, q[..|r|], q[|r|]))
  {
  }

  /** A turn its task could have made at `p` already is made first, and the rest follows. */
  lemma {:induction false} Hoist<S(!new)>(m: Machine, state: seq<nat> -> S, p: seq<nat>, w: seq<Turn>,
                                          q: seq<nat>, t: Turn, end: seq<nat>)
    returns (c: seq<nat>)
    requires Describes(m, state) && Commutes(m, state) && Legal(m, p)
    requires Runs(m, p, w, q) && NoneOf(w, t.task) && Goes(m, q, t, end)
    requires Offered(m, p, t.task) && Quiet(m, p, q, FootOf(m, p, t.task))
    ensures Runs(m, p, [t] + w, c) && Legal(m, c) && state(c) == state(end)
    decreases |w|
  {
    hide Runs, Goes, Legal, Describes, Commutes, FootOf, Quiet;
    if w == [] {
      RunIsEmpty(m, p, q);
      c := end;
      OneTurnRuns(m, p, t, end);
      GoesLegally(m, p, t, end);
      assert [t] + w == [t];
    } else {
      var last := |w| - 1;
      var r := LastTurn(m, p, w, q);
      MadeAsOffered(m, q, t, end);
      var a, b := SwapLast(m, state, p, w, r, q, t, end);
      QuietPrefix(m, p, r, q, FootOf(m, p, t.task));
      var d := Hoist(m, state, p, w[..last], r, t, a);
      GoesLegally(m, r, t, a);
      c := Mimicked(m, state, a, w[last], b, d);
      OneMore(m, p, [t] + w[..last], d, w[last], c);
      assert ([t] + w[..last]) + [w[last]] == [t] + w;
    }
  }

  lemma OneTurnRuns(m: Machine, p: seq<nat>, t: Turn, q: seq<nat>)
    requires Goes(m, p, t, q)
    ensures Runs(m, p, [t], q)
  {
    hide Goes, Legal;
    RunIsEmpty(m, p, p);
    OneMore(m, p, [], p, t, q);
    assert [] + [t] == [t];
  }

  lemma GoesLegally(m: Machine, p: seq<nat>, t: Turn, q: seq<nat>)
    requires Goes(m, p, t, q)
    ensures Legal(m, q) && p < q
  {
  }

  /** The last turn of a quiet run and the turn after it, the other way round. */
  lemma SwapLast<S(!new)>(m: Machine, state: seq<nat> -> S, p: seq<nat>, w: seq<Turn>, r: seq<nat>, q: seq<nat>,
                          t: Turn, end: seq<nat>)
    returns (a: seq<nat>, b: seq<nat>)
    requires Commutes(m, state) && w != [] && Runs(m, p, w[..|w| - 1], r) && Goes(m, r, w[|w| - 1], q)
    requires NoneOf(w, t.task) && Goes(m, q, t, end) && m.event(q).Decide?
    requires Offered(m, p, t.task) && Quiet(m, p, q, FootOf(m, p, t.task))
    ensures Goes(m, r, t, a) && Goes(m, a, w[|w| - 1], b) && state(b) == state(end)
  {
    var u := w[|w| - 1];
    MadeAsOffered(m, r, u, q);
    RunExtends(m, p, w[..|w| - 1], r);
    QuietPrefix(m, p, r, q, FootOf(m, p, t.task));
    hide Runs, Goes, FootOf, Independent, SliceOf;
    StaysOffered(m, state, p, w[..|w| - 1], r, t.task);
    assert Apart(m, r, t.task, u.task);
    assert Swaps(m, state, r, u, q, t.task);
    var x: seq<nat>, y: seq<nat> :| Goes(m, r, t, x) && Goes(m, x, u, y) && state(y) == state(end);
    a, b := x, y;
  }

  /** Where the first turn of `task` is in `w`. */
  function FirstOf(w: seq<Turn>, task: nat): (k: nat)
    requires !NoneOf(w, task)
    ensures k < |w| && w[k].task == task
    ensures forall j :: 0 <= j < k ==> w[j].task != task
  {
    if w[0].task == task then 0
    else
      assert !NoneOf(w[1..], task) by {
        var k :| 0 <= k < |w| && w[k].task == task;
        assert w[1..][k - 1] == w[k];
      }
      1 + FirstOf(w[1..], task)
  }

  /** `w` with its first turn of `task` made first. */
  function Hoisted(w: seq<Turn>, task: nat): seq<Turn>
    requires !NoneOf(w, task)
  {
    var k := FirstOf(w, task);
    [w[k]] + w[..k] + w[k + 1..]
  }

  /** A run whose slices do not conflict with a task offered where it began, and a turn of that
    task after it: the task's first turn might as well have been the first. */
  lemma HoistedRuns<S(!new)>(m: Machine, state: seq<nat> -> S, p: seq<nat>, w: seq<Turn>, q: seq<nat>,
                             t: Turn, end: seq<nat>)
    returns (c: seq<nat>)
    requires Describes(m, state) && Commutes(m, state) && Legal(m, p)
    requires Runs(m, p, w, q) && Goes(m, q, t, end)
    requires Offered(m, p, t.task) && Quiet(m, p, q, FootOf(m, p, t.task))
    ensures !NoneOf(w + [t], t.task)
    ensures Runs(m, p, Hoisted(w + [t], t.task), c) && Legal(m, c) && state(c) == state(end)
  {
    hide Runs, Goes, Legal, Describes, Commutes, FootOf, Quiet;
    var v := w + [t];
    assert v[|w|].task == t.task;
    var k := FirstOf(v, t.task);
    assert v == v[..k] + ([v[k]] + v[k + 1..]);
    OneMore(m, p, w, q, t, end);
    var r := RunsPart(m, p, v[..k], [v[k]] + v[k + 1..], end);
    var x := RunsPart(m, r, [v[k]], v[k + 1..], end);
    OnlyTurn(m, r, v[k], x);
    PartBefore(m, p, w, q, t, end, k, r);
    var d := Hoist(m, state, p, v[..k], r, v[k], x);
    GoesLegally(m, r, v[k], x);
    c := RunsAgain(m, state, x, v[k + 1..], end, d);
    RunsJoin(m, p, [v[k]] + v[..k], d, v[k + 1..], c);
  }

  lemma OnlyTurn(m: Machine, p: seq<nat>, t: Turn, q: seq<nat>)
    requires Runs(m, p, [t], q)
    ensures Goes(m, p, t, q)
  {
    hide Goes;
    var r := LastTurn(m, p, [t], q);
    assert [t][..0] == [];
  }

  /** The first `k` turns end on the way to `q`, and are as quiet. */
  lemma PartBefore(m: Machine, p: seq<nat>, w: seq<Turn>, q: seq<nat>, t: Turn, end: seq<nat>, k: nat, r: seq<nat>)
    requires Runs(m, p, w, q) && Goes(m, q, t, end) && k <= |w|
    requires Runs(m, p, (w + [t])[..k], r) && r <= end
    requires Offered(m, p, t.task) && Quiet(m, p, q, FootOf(m, p, t.task))
    ensures Quiet(m, p, r, FootOf(m, p, t.task))
  {
    hide Goes, FootOf, Quiet;
    assert (w + [t])[..k] == w[..k] && w == w[..k] + w[k..];
    var x := RunsPart(m, p, w[..k], w[k..], q);
    GoesLegally(m, q, t, end);
    SameEnd(m, p, w[..k], r, x, end);
    QuietPrefix(m, p, r, q, FootOf(m, p, t.task));
  }

  /** How long a run's choices are is settled by its turns. */
  lemma {:induction false} SameEnd(m: Machine, p: seq<nat>, w: seq<Turn>, a: seq<nat>, b: seq<nat>, end: seq<nat>)
    requires Runs(m, p, w, a) && Runs(m, p, w, b) && a <= end && b <= end
    ensures a == b
    decreases |w|
  {
    hide Goes;
    if w != [] {
      var x := LastTurn(m, p, w, a);
      var y := LastTurn(m, p, w, b);
      SameEnd(m, p, w[..|w| - 1], x, y, end);
      GoesBy(m, x, w[|w| - 1], a);
      GoesBy(m, y, w[|w| - 1], b);
    }
  }

  lemma GoesBy(m: Machine, p: seq<nat>, t: Turn, q: seq<nat>)
    requires Goes(m, p, t, q)
    ensures |q| == |p| + 1 + |t.arms|
  {
  }

  // -- the turns of a path -----------------------------------------------------------------------------

  /** Between two `Task` decisions of a schedule whole turns were made. */
  lemma {:induction false} CutIntoTurns(m: Machine, c: seq<nat>, j: nat, i: nat) returns (w: seq<Turn>)
    requires Legal(m, c) && j <= i <= |c| && TaskAt(m, c, j) && !ArmAt(m, c[..i])
    ensures Runs(m, c[..j], w, c[..i])
    decreases i
  {
    if i == j {
      w := [];
      RunIsEmpty(m, c[..j], c[..i]);
    } else {
      hide Runs, Legal;
      var k := SliceAfter(m, c, i).value;
      var v := CutIntoTurns(m, c, j, k);
      var t := OneTurn(m, c, k, i);
      w := v + [t];
      OneMore(m, c[..j], v, c[..k], t, c[..i]);
    }
  }

  lemma OneTurn(m: Machine, c: seq<nat>, k: nat, i: nat) returns (t: Turn)
    requires Legal(m, c) && k < i <= |c| && TaskAt(m, c, k) && !ArmAt(m, c[..i])
    requires NoTaskFrom(m, c, k + 1, i)
    ensures Goes(m, c[..k], t, c[..i])
  {
    var q := c[..i];
    LegalPrefix(m, c, i);
    forall x: nat | x < i
      ensures q[..x] == c[..x] && (k < x ==> ArmAt(m, q[..x]))
    {
      PickIsLegal(m, q, x);
      assert k < x ==> !TaskAt(m, c, x);
    }
    hide TaskAt, ArmAt;
    t := Turn(PickAt(m, q, k), Picks(m, q, k + 1));
    assert |c[..k]| == k && c[..k] <= q;
  }

  // -- skipped alternatives --------------------------------------------------------------------------

  lemma ChoicesAreLegal(m: Machine, o: Options, path: seq<Node>)
    requires PathOk(m, o, path)
    ensures Legal(m, Choices(path))
  {
    PlanIsFaithful(m, o, path);
  }

  /** The turns `w` are the path's own from level `j` to level `i`, where `t` leads to `end`.
    Made with the first turn of `t`'s task at the front, from level `j` on, they and `t` are the
    legal choices `c`, which reach the same state. */
  ghost predicate Recovered<S(!new)>(m: Machine, state: seq<nat> -> S, path: seq<Node>, i: nat, j: nat,
                                     t: Turn, end: seq<nat>, w: seq<Turn>, c: seq<nat>)
    requires j <= i < |path|
  {
    var from := Choices(path)[..j];
    && Runs(m, from, w, Choices(path)[..i]) && !NoneOf(w + [t], t.task)
    && Runs(m, from, Hoisted(w + [t], t.task), c)
    && Legal(m, c) && from + [IndexOf(path[j].candidates, t.task)] <= c
    && state(c) == state(end)
  }

  /** Where turns that do not conflict commute, any turn of a task skipped as asleep leads to a
    state that is reached by running the task where it was explored, and then just the turns
    the path made since. */
  lemma SkippedIsRedundant<S(!new)>(m: Machine, o: Options, state: seq<nat> -> S, path: seq<Node>, i: nat, j: nat,
                                    s: Sleeper, t: Turn, end: seq<nat>)
    returns (w: seq<Turn>, c: seq<nat>)
    requires Describes(m, state) && Commutes(m, state) && PathOk(m, o, path)
    requires i < |path| && path[i].kind.Task? && Undisturbed(m, path, i, j, s)
    requires t.task == s.task && Goes(m, Choices(path)[..i], t, end)
    ensures Recovered(m, state, path, i, j, t, end, w, c)
  {
    var choices := Choices(path);
    var from, here := choices[..j], choices[..i];
    ChoicesAreLegal(m, o, path);
    NodeAt(m, o, path, i);
    NodeAt(m, o, path, j);
    assert TaskAt(m, choices, j) && !ArmAt(m, here);
    assert Offered(m, from, s.task) && FootOf(m, from, s.task) == s.footprint;
    assert Quiet(m, from, here, s.footprint) by {
      assert forall k :: j <= k < i ==> here[..k] == choices[..k] && here[k] == choices[k];
    }
    LegalPrefix(m, choices, j);
    hide PathOk, Undisturbed, Describes, Commutes, Legal, Goes, Runs, Quiet, FootOf, Choices;
    w := CutIntoTurns(m, choices, j, i);
    c := HoistedRuns(m, state, from, w, here, t, end);
    StartsWith(m, from, w, t, c);
  }

  lemma StartsWith(m: Machine, p: seq<nat>, w: seq<Turn>, t: Turn, c: seq<nat>)
    requires !NoneOf(w + [t], t.task) && Runs(m, p, Hoisted(w + [t], t.task), c)
    ensures m.event(p).Decide? && p + [IndexOf(m.event(p).candidates, t.task)] <= c
  {
    var v := w + [t];
    var k := FirstOf(v, t.task);
    hide Runs, Goes, Legal;
    assert Hoisted(v, t.task) == [v[k]] + (v[..k] + v[k + 1..]);
    var x := RunsPart(m, p, [v[k]], v[..k] + v[k + 1..], c);
    OnlyTurn(m, p, v[k], x);
    FirstPick(m, p, v[k], x);
  }

  lemma FirstPick(m: Machine, p: seq<nat>, t: Turn, q: seq<nat>)
    requires Goes(m, p, t, q)
    ensures m.event(p).Decide? && p + [IndexOf(m.event(p).candidates, t.task)] <= q
  {
    hide Legal;
    assert q[..|p|] == p;
    PickIsLegal(m, q, |p|);
    FrontIndex(m, p, q[|p|]);
  }

  /** The two together, at any turn of a search over such a machine: whatever a sleeper skipped
    at a `Task` node could do next leads nowhere that running it first, where it was explored,
    does not lead. */
  lemma SleepersLeadNowhereNew<S(!new)>(m: Machine, o: Options, state: seq<nat> -> S, n: nat, i: nat, s: Sleeper,
                                        t: Turn, end: seq<nat>)
    returns (j: nat, w: seq<Turn>, c: seq<nat>)
    requires Determined(m) && Describes(m, state) && Commutes(m, state)
    requires !o.naive && After(m, o, n).running && !Exhausted(o, After(m, o, n))
    requires var path := Ran(m, o, After(m, o, n)).path;
             && i < |path| && path[i].kind.Task? && s in path[i].sleep
             && t.task == s.task && Goes(m, Choices(path)[..i], t, end)
    ensures var path := Ran(m, o, After(m, o, n)).path;
            Undisturbed(m, path, i, j, s) && Recovered(m, state, path, i, j, t, end, w, c)
  {
    hide After, Ran, Replay, Determined, Describes, Commutes, Recovered, Goes, Undisturbed;
    var path := Ran(m, o, After(m, o, n)).path;
    j := SleepersAreUndisturbed(m, o, n, i, s);
    AfterIsAwake(m, o, n);
    RanIsPlaced(m, o, After(m, o, n));
    w, c := SkippedIsRedundant(m, o, state, path, i, j, s, t, end);
  }
}
