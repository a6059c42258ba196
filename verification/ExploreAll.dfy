/** Exhaustive search: what a naive exploration that was not cut short has executed. */
module ExploreAll {
  import opened Wrappers
  import opened Scheduler
  import opened ExploreModel
  import opened ExploreOnce

  // -- preemptions, on the tree ------------------------------------------------------

  predicate Preempts(m: Machine, p: seq<nat>, choice: nat) {
    m.event(p).Decide? && m.event(p).kind.Task? && choice != 0
  }

  /** Non-front `Task` choices among the first `n`. */
  function Preemptions(m: Machine, c: seq<nat>, n: nat): nat
    requires n <= |c|
  {
    if n == 0 then 0
    else Preemptions(m, c, n - 1) + if Preempts(m, c[..n - 1], c[n - 1]) then 1 else 0
  }

  ghost predicate Within(m: Machine, limit: Option<nat>, c: seq<nat>) {
    limit.Some? ==> Preemptions(m, c, |c|) <= limit.value
  }

  lemma {:induction false} PreemptionsPrefix(m: Machine, c: seq<nat>, d: seq<nat>, n: nat)
    requires n <= |c| && n <= |d| && c[..n] == d[..n]
    ensures Preemptions(m, c, n) == Preemptions(m, d, n)
  {
    if n > 0 {
      assert c[..n - 1] == c[..n][..n - 1] == d[..n][..n - 1] == d[..n - 1];
      assert c[n - 1] == c[..n][n - 1] == d[..n][n - 1] == d[n - 1];
      PreemptionsPrefix(m, c, d, n - 1);
    }
  }

  lemma {:induction false} PreemptionsGrow(m: Machine, c: seq<nat>, a: nat, b: nat)
    requires a <= b <= |c|
    ensures Preemptions(m, c, a) <= Preemptions(m, c, b)
    decreases b - a
  {
    if a < b {
      PreemptionsGrow(m, c, a, b - 1);
    }
  }

  /** Front-of-queue choices add none. */
  lemma {:induction false} FrontAddsNone(m: Machine, c: seq<nat>, a: nat, b: nat)
    requires a <= b <= |c| && forall i :: a <= i < b ==> c[i] == 0
    ensures Preemptions(m, c, a) == Preemptions(m, c, b)
    decreases b - a
  {
    if a < b {
      FrontAddsNone(m, c, a, b - 1);
    }
  }

  lemma {:induction false} PathCounts(m: Machine, o: Options, path: seq<Node>)
    requires PathOk(m, o, path)
    ensures PathPreemptions(path) == Preemptions(m, Choices(path), |path|)
  {
    if path != [] {
      var k := |path| - 1;
      PathOkPrefix(m, o, path, k);
      PathCounts(m, o, path[..k]);
      ChoicesPrefix(path, k);
      NodeAt(m, o, path, k);
      PreemptionsPrefix(m, Choices(path), Choices(path[..k]), k);
      OffFrontIsPreemption(m, o, Choices(path)[..k], path[k], path[k].current);
    }
  }

  lemma OffFrontIsPreemption(m: Machine, o: Options, p: seq<nat>, n: Node, candidate: nat)
    requires NodeOk(m, o, p, n) && candidate in n.candidates
    ensures OffFront(n, candidate) <==> Preempts(m, p, IndexOf(n.candidates, candidate))
  {
  }

  // -- what weighing found ---------------------------------------------------------------

  lemma {:induction false} WeighMeaning(o: Options, n: Node, before: nat, waiting: set<nat>)
    ensures var w := Weigh(o, n, before, waiting);
            && (w.pick.Some? ==> !OverBound(o, n, before, w.pick.value))
            && (forall c :: c in w.slept ==> n.kind.Task? && !o.naive && Asleep(n, c))
            && (w.pick.None? ==> forall c :: c in waiting ==> c in w.slept || OverBound(o, n, before, c))
            && (w.pick.None? && !w.skipped ==> w.slept == waiting)
            && (w.skipped ==> o.maxPreemptions.Some?)
    decreases |waiting|
  {
    if waiting != {} {
      var c := Least(waiting);
      WeighMeaning(o, n, before, waiting - {c});
      assert forall x :: x in waiting ==> x == c || x in waiting - {c};
    }
  }

  // -- the bound is respected, in every mode ---------------------------------------------

  ghost predicate UnderBound(m: Machine, o: Options, st: State) {
    && (o.maxPreemptions.Some? ==> PathPreemptions(st.path) <= o.maxPreemptions.value)
    && (forall e :: e in st.executed ==> Within(m, o.maxPreemptions, e))
  }

  lemma {:induction false} PathPreemptionsGrow(path: seq<Node>, k: nat)
    requires k <= |path|
    ensures PathPreemptions(path[..k]) <= PathPreemptions(path)
    decreases |path| - k
  {
    if k < |path| {
      PathPreemptionsGrow(path[..|path| - 1], k);
      assert path[..|path| - 1][..k] == path[..k];
    } else {
      assert path[..k] == path;
    }
  }

  lemma {:induction false} SamePreemptions(a: seq<Node>, b: seq<Node>)
    requires |a| == |b| && forall i :: 0 <= i < |a| ==>
               a[i].kind == b[i].kind && a[i].candidates == b[i].candidates && a[i].current == b[i].current
    ensures PathPreemptions(a) == PathPreemptions(b)
  {
    if a != [] {
      SamePreemptions(a[..|a| - 1], b[..|b| - 1]);
    }
  }

  lemma TakenUnderBound(m: Machine, o: Options, st: State, k: nat)
    requires k < |st.path| && UnderBound(m, o, st) && Look(o, st, k).pick.Some?
    ensures UnderBound(m, o, Taken(o, st, k))
  {
    var n := st.path[k];
    var before := PathPreemptions(st.path[..k]);
    WeighMeaning(o, n, before, n.backtrack - n.done);
    PathPreemptionsGrow(st.path, k);
    var next := Taken(o, st, k).path;
    assert next[..|next| - 1] == st.path[..k];
  }

  lemma {:induction false} ScanUnderBound(m: Machine, o: Options, st: State, firstPruned: nat, d: nat)
    requires d <= |st.path| && UnderBound(m, o, st)
    ensures UnderBound(m, o, Scan(o, st, firstPruned, d))
    decreases d
  {
    hide Look, Settled, Looked, Taken;
    if d > 0 {
      var k := d - 1;
      if k >= firstPruned {
        ScanUnderBound(m, o, Dropped(st, k), firstPruned, k);
      } else if Look(o, st, k).pick.Some? {
        TakenUnderBound(m, o, st, k);
      } else {
        PassedUnderBound(m, o, st, k);
        ScanUnderBound(m, o, Passed(o, st, k), firstPruned, k);
      }
    }
  }

  lemma PassedUnderBound(m: Machine, o: Options, st: State, k: nat)
    requires k < |st.path| && UnderBound(m, o, st)
    ensures UnderBound(m, o, Passed(o, st, k))
  {
    hide Look;
    SamePreemptions(st.path, Passed(o, st, k).path);
  }

  /** A schedule preempts as often as the prefix of it that lies on a path, or more. */
  lemma PathWithin(m: Machine, o: Options, path: seq<Node>, c: seq<nat>)
    requires PathOk(m, o, path) && Choices(path) <= c
    ensures PathPreemptions(path) <= Preemptions(m, c, |c|)
    ensures Follows(c, Choices(path)) ==> PathPreemptions(path) == Preemptions(m, c, |c|)
  {
    PathCounts(m, o, path);
    assert Choices(path)[..|path|] == c[..|path|];
    PreemptionsPrefix(m, Choices(path), c, |path|);
    PreemptionsGrow(m, c, |path|, |c|);
    if Follows(c, Choices(path)) {
      FrontAddsNone(m, c, |path|, |c|);
    }
  }

  lemma RanUnderBound(m: Machine, o: Options, st: State)
    requires Ready(m, o, st) && UnderBound(m, o, st)
    ensures UnderBound(m, o, Ran(m, o, st))
  {
    hide Prepared, Tally, CountConverged, Run, PathOk, Choices, PathPreemptions, Follows, Leaf, Preemptions;
    var t := Replay(m, st);
    PreparedIsPlaced(m, o, Counted(st), t);
    var c := Chosen(t.decisions);
    PathWithin(m, o, st.path, c);
    PathWithin(m, o, Prepared(o, Counted(st), t), c);
  }

  lemma {:induction false} SearchUnderBound(m: Machine, o: Options, st: State)
    requires Ready(m, o, st) && UnderBound(m, o, st)
    ensures UnderBound(m, o, Search(m, o, st))
    decreases if st.report.executions < o.maxSchedules then o.maxSchedules - st.report.executions else 0
  {
    hide Ready, UnderBound, Ran, Scan, Replay, Stopped;
    TurnKeeps(m, o, st);
    TurnCounts(m, o, st);
    if Exhausted(o, st) {
      StoppedUnderBound(m, o, st);
    } else {
      RunIsNew(m, o, st);
      RanUnderBound(m, o, st);
      var ran := Ran(m, o, st);
      ScanUnderBound(m, o, ran, FirstPruned(ran.path), Min(|ran.path|, o.maxSteps));
    }
    if Turn(m, o, st).running {
      SearchUnderBound(m, o, Turn(m, o, st));
    }
  }

  lemma StoppedUnderBound(m: Machine, o: Options, st: State)
    requires UnderBound(m, o, st)
    ensures forall note :: UnderBound(m, o, Stopped(st, note))
  {
  }

  /** In every mode, no executed schedule departs from the front of the ready queue more
    often than the bound allows. */
  lemma BoundIsRespected(m: Machine, o: Options)
    ensures forall e :: e in Explore(m, o).executed ==> Within(m, o.maxPreemptions, e)
  {
    SearchUnderBound(m, o, START);
  }
}
