/** Why an alternative may be skipped as asleep. */
module ExploreSleep {
  import opened Wrappers
  import opened Scheduler
  import opened ExploreModel
  import opened ExploreOnce
  import opened ExploreAll

  /** Some executed schedule runs through `p` and there slice `k` had footprint `fp`. */
  ghost predicate Observed(m: Machine, executed: seq<seq<nat>>, p: seq<nat>, k: nat, fp: Footprint) {
    exists e :: e in executed && p <= e && FootprintOf(Log(m, e), k) == fp
  }

  /** No object touched by both is written by either. */
  predicate Independent(a: Footprint, b: Footprint) {
    forall x, y :: x in a && y in b && x.0 == y.0 ==> !x.1 && !y.1
  }

  lemma IndependentMeans(a: Footprint, b: Footprint)
    ensures Independent(a, b) <==> !FootprintsConflict(a, b)
  {
    if FootprintsConflict(a, b) {
      var i, j :| 0 <= i < |a| && 0 <= j < |b| && a[i].0 == b[j].0 && (a[i].1 || b[j].1);
      assert a[i] in a && b[j] in b;
    }
  }

  /** Some executed schedule runs along the first `k + 1` choices of `path`, and its slice
    `k` did not conflict with `fp`. */
  ghost predicate Unwoken(m: Machine, executed: seq<seq<nat>>, path: seq<Node>, k: nat, fp: Footprint)
    requires k < |path|
  {
    exists e :: e in executed && Choices(path)[..k + 1] <= e && Independent(fp, FootprintOf(Log(m, e), k))
  }

  /** Sleeper `s` was explored at level `j`, with the footprint it sleeps with. */
  ghost predicate ExploredAt(m: Machine, executed: seq<seq<nat>>, path: seq<Node>, j: nat, s: Sleeper)
    requires j < |path|
  {
    && path[j].kind.Task? && s.task in path[j].candidates && s.task in path[j].done
    && s.task != path[j].current
    && Observed(m, executed, Choices(path)[..j] + [IndexOf(path[j].candidates, s.task)], j, s.footprint)
  }

  /** Sleeper `s` of level `i` was explored at level `j`, and no slice from `j` to `i`
    conflicted with it when the level below that slice was placed. */
  ghost predicate Chain(m: Machine, executed: seq<seq<nat>>, path: seq<Node>, i: nat, j: nat, s: Sleeper)
    requires i < |path|
  {
    && j <= i
    && ExploredAt(m, executed, path, j, s)
    && forall k :: j <= k < i ==> Unwoken(m, executed, path, k, s.footprint)
  }

  ghost predicate Justified(m: Machine, executed: seq<seq<nat>>, path: seq<Node>, i: nat, s: Sleeper)
    requires i < |path|
  {
    exists j :: Chain(m, executed, path, i, j, s)
  }

  ghost predicate AllJustified(m: Machine, executed: seq<seq<nat>>, path: seq<Node>) {
    forall i, s :: 0 <= i < |path| && s in path[i].sleep ==> Justified(m, executed, path, i, s)
  }

  // -- how justification travels -----------------------------------------------------------

  /** `b` is `a` later on: more is done, and a new choice is one that was not. */
  ghost predicate Later(a: Node, b: Node) {
    && b.kind == a.kind && b.candidates == a.candidates && a.done <= b.done
    && (b.current == a.current || b.current !in a.done)
  }

  /** `path'` is `path` later on, as far as level `i` and the choices above it. */
  ghost predicate LaterTo(path: seq<Node>, path': seq<Node>, i: nat) {
    && i < |path| && i < |path'|
    && Choices(path)[..i] == Choices(path')[..i]
    && forall k :: 0 <= k <= i ==> Later(path[k], path'[k])
  }

  lemma ExploredCarries(m: Machine, ex: seq<seq<nat>>, path: seq<Node>, ex': seq<seq<nat>>, path': seq<Node>,
                        i: nat, j: nat, s: Sleeper)
    requires LaterTo(path, path', i) && j <= i && (forall e :: e in ex ==> e in ex')
    requires ExploredAt(m, ex, path, j, s)
    ensures ExploredAt(m, ex', path', j, s)
  {
    assert Later(path[j], path'[j]);
    assert Choices(path)[..j] == Choices(path)[..i][..j] == Choices(path')[..i][..j] == Choices(path')[..j];
    ObservedCarries(m, ex, ex', Choices(path)[..j] + [IndexOf(path[j].candidates, s.task)], j, s.footprint);
  }

  lemma ObservedCarries(m: Machine, ex: seq<seq<nat>>, ex': seq<seq<nat>>, p: seq<nat>, k: nat, fp: Footprint)
    requires Observed(m, ex, p, k, fp) && (forall e :: e in ex ==> e in ex')
    ensures Observed(m, ex', p, k, fp)
  {
    var e :| e in ex && p <= e && FootprintOf(Log(m, e), k) == fp;
    assert e in ex';
  }

  lemma UnwokenCarries(m: Machine, ex: seq<seq<nat>>, path: seq<Node>, ex': seq<seq<nat>>, path': seq<Node>,
                       k: nat, fp: Footprint)
    requires k < |path| && k < |path'| && Choices(path)[..k + 1] == Choices(path')[..k + 1]
    requires Unwoken(m, ex, path, k, fp) && (forall e :: e in ex ==> e in ex')
    ensures Unwoken(m, ex', path', k, fp)
  {
    hide Independent, Log, Choices;
    var e :| e in ex && Choices(path)[..k + 1] <= e && Independent(fp, FootprintOf(Log(m, e), k));
    assert e in ex';
  }

  lemma JustifiedCarries(m: Machine, ex: seq<seq<nat>>, path: seq<Node>, ex': seq<seq<nat>>, path': seq<Node>,
                         i: nat, s: Sleeper)
    requires LaterTo(path, path', i) && Justified(m, ex, path, i, s) && (forall e :: e in ex ==> e in ex')
    ensures Justified(m, ex', path', i, s)
  {
    hide Unwoken, ExploredAt;
    var j: nat :| Chain(m, ex, path, i, j, s);
    ExploredCarries(m, ex, path, ex', path', i, j, s);
    forall k: nat | j <= k < i
      ensures Unwoken(m, ex', path', k, s.footprint)
    {
      assert Choices(path)[..k + 1] == Choices(path)[..i][..k + 1];
      assert Choices(path')[..k + 1] == Choices(path')[..i][..k + 1];
      UnwokenCarries(m, ex, path, ex', path', k, s.footprint);
    }
    assert Chain(m, ex', path', i, j, s);
  }

  /** An inherited sleeper: one more slice went by without waking it. */
  lemma JustifiedBelow(m: Machine, ex: seq<seq<nat>>, path: seq<Node>, i: nat, s: Sleeper, c: seq<nat>)
    requires i + 1 < |path| && Justified(m, ex, path, i, s)
    requires c in ex && Choices(path) <= c && !FootprintsConflict(s.footprint, FootprintOf(Log(m, c), i))
    ensures Justified(m, ex, path, i + 1, s)
  {
    hide ExploredAt, FootprintsConflict, Independent, Log;
    IndependentMeans(s.footprint, FootprintOf(Log(m, c), i));
    var j: nat :| Chain(m, ex, path, i, j, s);
    assert Choices(path)[..i + 1] == c[..i + 1];
    assert Unwoken(m, ex, path, i, s.footprint);
    assert Chain(m, ex, path, i + 1, j, s);
  }

  lemma PreparedSleeps(o: Options, st: State, t: Trace)
    requires Offers(t.decisions) && !o.naive && st.forced == |st.path|
    ensures var p := Prepared(o, st, t);
            && (forall i :: 0 <= i < |st.path| && i < |p| ==> p[i].sleep == st.path[i].sleep)
            && (forall i :: 0 < i && |st.path| <= i < |p| ==> p[i].sleep == StillAsleep(p[i - 1].sleep, p[i - 1].footprint))
            && (|st.path| == 0 < |p| ==> p[0].sleep == [])
  {
    var stamped := Stamped(Rebuilt(o, st.path, t.decisions), t.ops);
    InheritKeeps(stamped, st.forced);
    var slept := Inherit(stamped, st.forced);
    GrowKeeps(slept, t.ops, |t.ops|);
    RebuiltAwake(o, st.path, t.decisions);
  }

  lemma {:induction false} RebuiltAwake(o: Options, path: seq<Node>, ds: seq<Decision>)
    requires Offers(ds)
    ensures forall i :: |path| <= i < |Rebuilt(o, path, ds)| ==> Rebuilt(o, path, ds)[i].sleep == []
    decreases |ds| - |path|
  {
    if |path| < Min(|ds|, o.maxSteps) {
      RebuiltAwake(o, path + [Fresh(ds[|path|], o.naive)], ds);
    }
  }

  ghost predicate JustifiedTo(m: Machine, executed: seq<seq<nat>>, path: seq<Node>, n: nat)
    requires n <= |path|
  {
    forall i, s :: 0 <= i < n && s in path[i].sleep ==> Justified(m, executed, path, i, s)
  }

  lemma {:induction false} FreshJustified(m: Machine, ex: seq<seq<nat>>, path: seq<Node>, c: seq<nat>, from: nat, n: nat)
    requires c in ex && Choices(path) <= c && from <= n <= |path|
    requires forall k :: 0 <= k < |path| ==> path[k].footprint == FootprintOf(Log(m, c), k)
    requires forall k :: 0 < k && from <= k < |path| ==> path[k].sleep == StillAsleep(path[k - 1].sleep, path[k - 1].footprint)
    requires from == 0 < |path| ==> path[0].sleep == []
    requires JustifiedTo(m, ex, path, from)
    ensures JustifiedTo(m, ex, path, n)
  {
    hide Justified, Log, Choices, FootprintsConflict, FootprintOf, StillAsleep;
    if n > from {
      FreshJustified(m, ex, path, c, from, n - 1);
      var sleepers := path[n - 1].sleep;
      forall s | s in sleepers
        ensures Justified(m, ex, path, n - 1, s)
      {
        if n > 1 {
          JustifiedBelow(m, ex, path, n - 2, s, c);
        }
      }
    }
  }

  /** The path a run prepares, with its footprints, is justified. */
  lemma RanJustified(m: Machine, o: Options, st: State)
    requires Ready(m, o, st) && !o.naive && AllJustified(m, st.executed, st.path)
    ensures var ran := Ran(m, o, st);
            && AllJustified(m, ran.executed, ran.path)
            && FootprintsOfLast(m, ran)
  {
    hide Run, PathOk, Prepared, Tally, CountConverged, Choices, Follows, Leaf, Justified;
    var t := Replay(m, st);
    var ran := Ran(m, o, st);
    var c := Chosen(t.decisions);
    PreparedIsPlaced(m, o, Counted(st), t);
    PreparedKeeps(o, Counted(st), t);
    PreparedSleeps(o, Counted(st), t);
    forall k, x | 0 <= k < |st.path| && x in ran.path[k].sleep
      ensures Justified(m, ran.executed, ran.path, k, x)
    {
      KeptIsLater(st.path, ran.path, k);
      JustifiedCarries(m, st.executed, st.path, ran.executed, ran.path, k, x);
    }
    FreshJustified(m, ran.executed, ran.path, c, |st.path|, |ran.path|);
  }

  lemma KeptIsLater(path: seq<Node>, path': seq<Node>, i: nat)
    requires i < |path| && KeptBelow(path, path')
    ensures LaterTo(path, path', i)
  {
    assert forall k :: 0 <= k <= i ==> Kept(path[k], path'[k]);
    assert Choices(path)[..i] == Choices(path')[..i];
  }

  /** The path runs along the schedule executed last, and its footprints are that schedule's. */
  ghost predicate FootprintsOfLast(m: Machine, st: State) {
    && st.executed != []
    && Choices(st.path) <= st.executed[|st.executed| - 1]
    && forall k :: 0 <= k < |st.path| ==>
         st.path[k].footprint == FootprintOf(Log(m, st.executed[|st.executed| - 1]), k)
  }

  // -- the scan ---------------------------------------------------------------------------------

  lemma TakenJustified(m: Machine, o: Options, st: State, k: nat)
    requires k < |st.path| && PathOk(m, o, st.path) && AllJustified(m, st.executed, st.path) && FootprintsOfLast(m, st)
    requires Look(o, st, k).pick.Some?
    ensures AllJustified(m, st.executed, Taken(o, st, k).path)
  {
    hide Look, PathOk, FootprintsOfLast, Justified, LaterTo;
    var next := Taken(o, st, k).path;
    NodeAt(m, o, st.path, k);
    forall i, s | 0 <= i < |next| && s in next[i].sleep
      ensures Justified(m, st.executed, next, i, s)
    {
      if i < k || s in st.path[i].sleep {
        TakenIsLater(o, st, k, i);
        JustifiedCarries(m, st.executed, st.path, st.executed, next, i, s);
      } else {
        NewSleeper(m, o, st, k, s);
      }
    }
  }

  lemma TakenIsLater(o: Options, st: State, k: nat, i: nat)
    requires i <= k < |st.path| && Look(o, st, k).pick.Some?
    ensures LaterTo(st.path, Taken(o, st, k).path, i)
  {
    hide Weigh, PathPreemptions;
    var next := Taken(o, st, k).path;
    assert Choices(next)[..i] == Choices(st.path)[..i];
  }

  /** The choice a node moves on from sleeps with the footprint its slice just had. */
  lemma NewSleeper(m: Machine, o: Options, st: State, k: nat, s: Sleeper)
    requires k < |st.path| && NodeOk(m, o, Choices(st.path)[..k], st.path[k]) && FootprintsOfLast(m, st)
    requires Look(o, st, k).pick.Some? && st.path[k].kind.Task?
    requires s == Sleeper(st.path[k].current, st.path[k].footprint)
    ensures Justified(m, st.executed, Taken(o, st, k).path, k, s)
  {
    hide Weigh, PathPreemptions, Log, FootprintOf, Observed, Choices;
    var next := Taken(o, st, k).path;
    TakenIsLater(o, st, k, k);
    LastObserved(m, st, k);
    assert ExploredAt(m, st.executed, next, k, s);
    assert Chain(m, st.executed, next, k, k, s);
  }

  lemma LastObserved(m: Machine, st: State, k: nat)
    requires k < |st.path| && FootprintsOfLast(m, st)
    ensures Observed(m, st.executed, Choices(st.path)[..k] + [IndexOf(st.path[k].candidates, st.path[k].current)],
                     k, st.path[k].footprint)
  {
    hide Log, FootprintOf;
    var last := st.executed[|st.executed| - 1];
    var p := Choices(st.path)[..k] + [IndexOf(st.path[k].candidates, st.path[k].current)];
    assert p == Choices(st.path)[..k + 1] == last[..k + 1];
    assert last in st.executed;
  }

  lemma PassedJustified(m: Machine, o: Options, st: State, k: nat)
    requires k < |st.path| && AllJustified(m, st.executed, st.path) && FootprintsOfLast(m, st)
    ensures AllJustified(m, st.executed, Passed(o, st, k).path) && FootprintsOfLast(m, Passed(o, st, k))
  {
    hide Look, Justified, LaterTo, Log, FootprintOf, Choices;
    var next := Passed(o, st, k).path;
    forall i, s | 0 <= i < |next| && s in next[i].sleep
      ensures Justified(m, st.executed, next, i, s)
    {
      PassedIsLater(o, st, k, i);
      JustifiedCarries(m, st.executed, st.path, st.executed, next, i, s);
    }
    PassedChoices(o, st, k);
  }

  lemma PassedChoices(o: Options, st: State, k: nat)
    requires k < |st.path|
    ensures Choices(Passed(o, st, k).path) == Choices(st.path)
  {
    hide Look;
  }

  lemma PassedIsLater(o: Options, st: State, k: nat, i: nat)
    requires i < |st.path| && k < |st.path|
    ensures LaterTo(st.path, Passed(o, st, k).path, i)
  {
    hide Look;
    PassedChoices(o, st, k);
  }

  lemma {:induction false} ScanJustified(m: Machine, o: Options, st: State, firstPruned: nat, d: nat)
    requires d <= |st.path| && PathOk(m, o, st.path) && AllJustified(m, st.executed, st.path) && FootprintsOfLast(m, st)
    ensures var next := Scan(o, st, firstPruned, d); AllJustified(m, next.executed, next.path)
    decreases d
  {
    hide PathOk, AllJustified, FootprintsOfLast, Look;
    if d > 0 {
      var k := d - 1;
      if k >= firstPruned {
        DroppedJustified(m, st, k);
        ScanJustified(m, o, Dropped(st, k), firstPruned, k);
      } else if Look(o, st, k).pick.Some? {
        TakenJustified(m, o, st, k);
      } else {
        PassedJustified(m, o, st, k);
        PassedPlaced(m, o, st, k);
        ScanJustified(m, o, Passed(o, st, k), firstPruned, k);
      }
    }
  }

  lemma DroppedJustified(m: Machine, st: State, k: nat)
    requires k < |st.path| && FootprintsOfLast(m, st)
    ensures FootprintsOfLast(m, Dropped(st, k)) && Dropped(st, k).executed == st.executed
  {
  }

  lemma PassedPlaced(m: Machine, o: Options, st: State, k: nat)
    requires k < |st.path| && PathOk(m, o, st.path)
    ensures PathOk(m, o, Passed(o, st, k).path)
  {
    NodeAt(m, o, st.path, k);
    PathUpdated(m, o, st.path, k, Settled(o, st, k));
  }

  // -- every turn ------------------------------------------------------------------------------

  /** The state after `n` turns of the loop (or fewer, if it stopped). */
  ghost function After(m: Machine, o: Options, n: nat): State {
    if n == 0 then START
    else
      var st := After(m, o, n - 1);
      if st.running then Turn(m, o, st) else st
  }

  ghost predicate Awake(m: Machine, o: Options, st: State) {
    Ready(m, o, st) && AllJustified(m, st.executed, st.path)
  }

  lemma TurnJustified(m: Machine, o: Options, st: State)
    requires !o.naive && Awake(m, o, st) && Turn(m, o, st).running
    ensures Awake(m, o, Turn(m, o, st))
  {
    hide Judged, Scan, Run, Ready, PathOk, AllJustified, FootprintsOfLast, Scanning;
    TurnKeeps(m, o, st);
    if !Exhausted(o, st) {
      RunIsNew(m, o, st);
      RanJustified(m, o, st);
      var ran := Ran(m, o, st);
      RanIsPlaced(m, o, st);
      ScanJustified(m, o, ran, FirstPruned(ran.path), Min(|ran.path|, o.maxSteps));
    }
  }

  lemma RanIsPlaced(m: Machine, o: Options, st: State)
    requires Ready(m, o, st)
    ensures PathOk(m, o, Ran(m, o, st).path)
  {
    RunIsNew(m, o, st);
  }

  lemma {:induction false} AfterIsAwake(m: Machine, o: Options, n: nat)
    requires !o.naive && After(m, o, n).running
    ensures Awake(m, o, After(m, o, n))
  {
    hide Turn, Awake;
    if n == 0 {
      StartIsAwake(m, o);
    } else {
      AfterIsAwake(m, o, n - 1);
      TurnJustified(m, o, After(m, o, n - 1));
    }
  }

  lemma StartIsAwake(m: Machine, o: Options)
    ensures Awake(m, o, START)
  {
  }

  /** Sleep sets are justified, for every machine and at every turn: a sleeper of level `i`
    was explored at a level `j` at or above it, in an executed schedule where its slice had
    just the footprint it sleeps with; and every slice from `j` to `i` was seen, in some
    executed schedule along the same choices, not to conflict with that footprint. */
  lemma SleepersAreJustified(m: Machine, o: Options, n: nat, i: nat, s: Sleeper)
    requires !o.naive && After(m, o, n).running && !Exhausted(o, After(m, o, n))
    requires var ran := Ran(m, o, After(m, o, n)); i < |ran.path| && s in ran.path[i].sleep
    ensures var ran := Ran(m, o, After(m, o, n)); Justified(m, ran.executed, ran.path, i, s)
  {
    hide After, Ran, Replay;
    AfterIsAwake(m, o, n);
    RanJustified(m, o, After(m, o, n));
  }
}
