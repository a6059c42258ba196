/** The explorer itself: one object whose loop replays, records and backtracks.

  Each method is proved to take the step `ExploreModel` defines, so `Explore` ends in
  exactly the state the theorems of the `Explore*` modules speak about. */
module ExplorerClass {
  import opened Wrappers
  import opened Scheduler
  import opened ExploreModel
  import opened ExploreOnce

  /** `seen` indexes the outcomes by digest. */
  ghost predicate Indexes(seen: map<nat, nat>, outcomes: seq<Outcome>) {
    && (forall d :: d in seen ==> seen[d] < |outcomes| && outcomes[seen[d]].digest == d)
    && (forall i :: 0 <= i < |outcomes| ==> outcomes[i].digest in seen && seen[outcomes[i].digest] == i)
  }

  class Explorer {
    const machine: Machine
    const options: Options

    var path: seq<Node>
    var forced: nat
    var visited: map<nat, nat>
    /** Outcome digest to its index in `report.outcomes`. */
    var seen: map<nat, nat>
    var report: Report
    var depthCapped: bool
    var running: bool
    ghost var executed: seq<seq<nat>>
    ghost var retired: seq<Retired>

    ghost function View(): State
      reads this
    {
      State(path, forced, visited, report, depthCapped, running, executed, retired)
    }

    ghost predicate Valid()
      reads this
    {
      Indexes(seen, report.outcomes)
    }

    constructor (machine: Machine, options: Options)
      ensures Valid() && View() == START && this.machine == machine && this.options == options
    {
      this.machine := machine;
      this.options := options;
      path, forced, visited, seen := [], 0, map[], map[];
      report := EMPTY_REPORT;
      depthCapped, running := false, true;
      executed, retired := [], [];
    }

    /** Explores until the tree is exhausted or a budget is. */
    method Explore()
      requires Valid() && View() == START
      modifies this
      ensures Valid() && View() == ExploreModel.Explore(machine, options)
    {
      while running
        invariant Valid() && (running ==> Ready(machine, options, View()))
        invariant Search(machine, options, View()) == ExploreModel.Explore(machine, options)
        decreases if running then 1 + (if report.executions < options.maxSchedules
                                       then options.maxSchedules - report.executions else 0) else 0
      {
        TurnKeeps(machine, options, View());
        TurnCounts(machine, options, View());
        ReadyIsForced(machine, options, View());
        TakeTurn();
      }
    }

    method TakeTurn()
      requires Valid() && forced == |path|
      modifies this
      ensures Valid() && View() == Turn(machine, options, old(View()))
    {
      hide Judged, Scan, Run, PlanOf, Indexes;
      if report.executions >= options.maxSchedules {
        Stop(ScheduleBudget(report.executions));
        return;
      }
      if options.wallExpired(report.executions) {
        Stop(WallBudget(report.executions));
        return;
      }
      var t := Run(machine, PlanOf(path));
      report := report.(executions := report.executions + 1);
      if t.divergence.Some? {
        report := report.(divergence := t.divergence);
        running := false;
        return;
      }
      Judge(t);
      Backtrack();
    }

    method Stop(note: Note)
      requires Valid()
      modifies this`report, this`running
      ensures Valid() && View() == Stopped(old(View()), note)
    {
      report := report.(frontierOpen := true, notes := report.notes + [note]);
      running := false;
    }

    // -- preparing the path -------------------------------------------------------------

    method Rebuild(decisions: seq<Decision>)
      requires Offers(decisions)
      modifies this`path
      ensures path == Rebuilt(options, old(path), decisions)
    {
      while |path| < Min(|decisions|, options.maxSteps)
        invariant Rebuilt(options, path, decisions) == Rebuilt(options, old(path), decisions)
        decreases |decisions| - |path|
      {
        path := path + [Fresh(decisions[|path|], options.naive)];
      }
    }

    /** Recomputes every node's footprint from the run's log. */
    method TakeFootprints(ops: seq<OpRecord>)
      modifies this`path
      ensures path == Stamped(old(path), ops)
    {
      var cleared := path;
      path := seq(|cleared|, i requires 0 <= i < |cleared| => cleared[i].(footprint := []));
      assert ops[..0] == [];
      for n := 0 to |ops|
        invariant path == Stamped(cleared, ops[..n])
      {
        if ops[n].slice.Some? && ops[n].slice.value < |path| {
          var k := ops[n].slice.value;
          path := path[k := path[k].(footprint := path[k].footprint + [(ops[n].obj, ops[n].write)])];
        }
        StampedOneMore(cleared, ops, n);
      }
      assert ops[..|ops|] == ops;
    }

    method InheritSleep()
      requires forced <= |path|
      modifies this`path
      ensures path == Inherit(old(path), forced)
    {
      var i := forced;
      while i < |path|
        invariant forced <= i && |path| == |old(path)|
        invariant Inherit(path, i) == Inherit(old(path), forced)
      {
        if i > 0 {
          path := path[i := path[i].(sleep := StillAsleep(path[i - 1].sleep, path[i - 1].footprint))];
        }
        i := i + 1;
      }
    }

    method GrowBacktracks(ops: seq<OpRecord>)
      modifies this`path
      ensures path == Grow(old(path), ops, |ops|)
    {
      for bi := 0 to |ops|
        invariant path == Grow(old(path), ops, bi)
      {
        ghost var before := path;
        var k := bi;
        while k > 0
          invariant k <= bi && path == GrowRow(before, ops, bi, k)
        {
          k := k - 1;
          var a, b := ops[k], ops[bi];
          if a.task == b.task || !Conflicts(a, b) || HappensBefore(a, b) {
            continue;
          }
          if a.slice.Some? && a.slice.value < |path| {
            var n := path[a.slice.value];
            var more := if b.task in n.candidates then {b.task} else Elements(n.candidates);
            path := path[a.slice.value := n.(backtrack := n.backtrack + more)];
          }
        }
      }
    }

    method MarkConverged() returns (count: nat)
      requires forced <= |path|
      modifies this`path
      ensures path == Marked(options, visited, old(path), forced)
      ensures count == CountConverged(options, visited, old(path), forced)
    {
      var i := |path|;
      count := 0;
      while i > forced
        invariant forced <= i <= |path| == |old(path)|
        invariant path == Marked(options, visited, old(path), i)
        invariant count == CountConverged(options, visited, old(path), i)
      {
        i := i - 1;
        if Converged(options, visited, path[i], i) {
          path := path[i := path[i].(pruned := true)];
          count := count + 1;
        }
        assert path == Marked(options, visited, old(path), i);
      }
    }

    method Prepare(t: Trace) returns (converged: nat)
      requires Offers(t.decisions) && forced == |path|
      modifies this`path
      ensures path == Prepared(options, old(View()), t)
      ensures converged == if PruneOn(options) then CountConverged(options, visited, path, forced) else 0
    {
      Rebuild(t.decisions);
      TakeFootprints(t.ops);
      if !options.naive {
        InheritSleep();
        GrowBacktracks(t.ops);
      }
      converged := 0;
      if PruneOn(options) {
        ghost var grown := path;
        converged := MarkConverged();
        MarkedCounts(options, visited, grown, forced);
      }
    }

    // -- judging a schedule ---------------------------------------------------------------

    method Record(entry: Outcome)
      requires Valid()
      modifies this`report, this`seen
      ensures Valid() && report == old(report).(outcomes := Tally(old(report.outcomes), entry))
    {
      var xs := report.outcomes;
      if entry.digest in seen {
        var i := seen[entry.digest];
        TallyAt(xs, entry, i);
        report := report.(outcomes := xs[i := xs[i].(count := xs[i].count + 1)]);
      } else {
        TallyNew(xs, entry);
        seen := seen[entry.digest := |xs|];
        report := report.(outcomes := xs + [entry.(count := 1)]);
      }
    }

    method Judge(t: Trace)
      requires Valid() && Offers(t.decisions) && forced == |path|
      modifies this
      ensures Valid() && View() == Judged(options, old(View()), t)
    {
      hide Prepared, Tally, CountConverged, Entry, Deepened, Indexes;
      ghost var before := View();
      report := NoteDepth(|t.decisions|, t);
      depthCapped := depthCapped || |t.decisions| > options.maxSteps;
      PreparedReads(options, before, View(), t);
      var converged := Prepare(t);
      executed := executed + [Chosen(t.decisions)];
      report := report.(schedules := report.schedules + 1,
                        pruned := report.pruned + converged,
                        deadlocks := report.deadlocks + if t.deadlocked then 1 else 0,
                        races := report.races + if t.race then 1 else 0);
      DeepenedOutcomes(options, before, t);
      Record(Entry(t));
    }

    method NoteDepth(depth: nat, ghost t: Trace) returns (r: Report)
      requires depth == |t.decisions|
      ensures r == Deepened(options, View(), t)
    {
      r := report.(maxDepth := if report.maxDepth < depth then depth else report.maxDepth);
      if depth > options.maxSteps && !depthCapped {
        r := r.(frontierOpen := true, notes := r.notes + [DepthCap(depth)]);
      }
    }

    // -- backtracking -----------------------------------------------------------------------

    /** Walks one node's waiting alternatives in ascending order. */
    method WeighNode(n: Node, before: nat) returns (done: set<nat>, slept: nat, skipped: bool, pick: Option<nat>)
      ensures var w := Weigh(options, n, before, n.backtrack - n.done);
              done == n.done + w.slept && slept == |w.slept| && skipped == w.skipped && pick == w.pick
    {
      hide Weigh, OverBound, Asleep, Adding;
      var waiting := n.backtrack - n.done;
      ghost var marked: set<nat> := {};
      ghost var whole := Weigh(options, n, before, waiting);
      done, slept, skipped, pick := n.done, 0, false, None;
      AddingFirst(whole);
      while waiting != {}
        invariant done == n.done + marked && slept == |marked| && marked !! waiting
        invariant whole == Adding(marked, skipped, Weigh(options, n, before, waiting))
        decreases |waiting|
      {
        var c := First(waiting);
        WeighStep(options, n, before, waiting, c);
        AddingTwice(marked, skipped, c, Weigh(options, n, before, waiting - {c}));
        waiting := waiting - {c};
        if n.kind.Task? && !options.naive && Asleep(n, c) {
          done, slept := done + {c}, slept + 1;
          marked := marked + {c};
          continue;
        }
        if OverBound(options, n, before, c) {
          skipped := true;
          continue;
        }
        pick := Some(c);
        AddingNothing(marked, skipped, pick);
        return;
      }
      WeighNone(options, n, before);
      AddingNothing(marked, skipped, None);
    }

    /** Looks, from the deepest level up, for an alternative still to take. */
    method Backtrack()
      requires Valid()
      modifies this
      ensures Valid()
      ensures View() == Scan(options, old(View()), FirstPruned(old(path)), Min(|old(path)|, options.maxSteps))
    {
      hide Look, Taken, Passed, FirstPruned, Choices, Indexes;
      var firstPruned := FirstPruned(path);
      var d: nat := Min(|path|, options.maxSteps);
      ghost var goal := Scan(options, View(), firstPruned, d);
      while d > 0
        invariant Valid() && 0 <= d <= |path|
        invariant Scan(options, View(), firstPruned, d) == goal
      {
        ghost var st := View();
        d := d - 1;
        if d >= firstPruned {
          retired := retired + [Retired(Choices(path)[..d], path[d])];
          continue;
        }
        var advanced := Visit(d);
        if advanced {
          return;
        }
      }
      running := false;
    }

    /** One level of the scan: takes an alternative there, or passes it by. */
    method Visit(k: nat) returns (advanced: bool)
      requires Valid() && k < |path|
      modifies this
      ensures Valid() && advanced == Look(options, old(View()), k).pick.Some?
      ensures View() == if advanced then Taken(options, old(View()), k) else Passed(options, old(View()), k)
    {
      hide Weigh, PathPreemptions, Choices, Explored, Indexes;
      ghost var before := View();
      var n := path[k];
      var done, slept, skipped, pick := WeighNode(n, PathPreemptions(path[..k]));
      n := n.(done := done);
      assert n == Settled(options, before, k);
      var r := report.(slept := report.slept + slept);
      if skipped {
        if !r.frontierOpen {
          r := r.(notes := r.notes + [PreemptionBound(options.maxPreemptions.GetOr(0))]);
        }
        r := r.(frontierOpen := true);
      }
      assert r == Looked(options, before, k);
      report := r;
      advanced := pick.Some?;
      if advanced {
        Take(k, n, pick.value);
      } else {
        retired := retired + [Retired(Choices(path)[..k], n)];
        path := path[k := n];
        if PruneOn(options) && n.kind.Task? && !skipped && n.backtrack <= n.done {
          visited := Explored(options, visited, n.state, k);
        }
      }
    }

    /** Moves level `k` on to `pick`, what it ran last being added to its sleepers. */
    method Take(k: nat, n: Node, pick: nat)
      requires k < |path|
      modifies this`path, this`forced
      ensures path == old(path)[..k] + [Advanced(options, n, pick)] && forced == k + 1
    {
      var next := n;
      if n.kind.Task? && !options.naive {
        next := next.(sleep := n.sleep + [Sleeper(n.current, n.footprint)]);
      }
      next := next.(done := n.done + {pick}, current := pick);
      path := path[..k] + [next];
      forced := k + 1;
    }
  }

  // -- what the methods' proofs use ------------------------------------------------------------

  method First(s: set<nat>) returns (x: nat)
    requires s != {}
    ensures x == Least(s)
  {
    ghost var least := LeastOf(s);
    assert exists x :: x in s && forall y :: y in s ==> x <= y;
    x :| x in s && forall y :: y in s ==> x <= y;
    assert Least(s) in s;
  }

  /** `w` with what was found before it. */
  function Adding(marked: set<nat>, skipped: bool, w: Weighed): Weighed {
    Weighed(marked + w.slept, skipped || w.skipped, w.pick)
  }

  lemma AddingFirst(w: Weighed)
    ensures Adding({}, false, w) == w
  {
  }

  lemma AddingNothing(marked: set<nat>, skipped: bool, pick: Option<nat>)
    ensures Adding(marked, skipped, Weighed({}, false, pick)) == Weighed(marked, skipped, pick)
  {
    assert marked + {} == marked;
  }

  lemma AddingTwice(marked: set<nat>, skipped: bool, c: nat, w: Weighed)
    ensures Adding(marked, skipped, Adding({c}, false, w)) == Adding(marked + {c}, skipped, w)
    ensures Adding(marked, skipped, Adding({}, true, w)) == Adding(marked, true, w)
  {
    assert marked + ({c} + w.slept) == (marked + {c}) + w.slept;
  }

  lemma DeepenedOutcomes(o: Options, st: State, t: Trace)
    ensures Deepened(o, st, t).outcomes == st.report.outcomes
  {
  }

  lemma WeighStep(o: Options, n: Node, before: nat, waiting: set<nat>, c: nat)
    requires waiting != {} && c == Least(waiting)
    ensures c in waiting
    ensures Weigh(o, n, before, waiting)
            == (var w := Weigh(o, n, before, waiting - {c});
                if n.kind.Task? && !o.naive && Asleep(n, c) then Adding({c}, false, w)
                else if OverBound(o, n, before, c) then Adding({}, true, w)
                else Weighed({}, false, Some(c)))
  {
  }

  lemma WeighNone(o: Options, n: Node, before: nat)
    ensures Weigh(o, n, before, {}) == Weighed({}, false, None)
  {
  }

  /** One more operation adds to the footprint of its own slice. */
  lemma StampedOneMore(path: seq<Node>, ops: seq<OpRecord>, n: nat)
    requires n < |ops|
    ensures var a := Stamped(path, ops[..n]);
            Stamped(path, ops[..n + 1])
            == if ops[n].slice.Some? && ops[n].slice.value < |path| then
                 var k := ops[n].slice.value;
                 a[k := a[k].(footprint := a[k].footprint + [(ops[n].obj, ops[n].write)])]
               else a
  {
    var a, b := Stamped(path, ops[..n]), Stamped(path, ops[..n + 1]);
    assert ops[..n + 1] == ops[..n] + [ops[n]];
    forall i | 0 <= i < |path|
      ensures b[i] == if ops[n].slice == Some(i)
                      then a[i].(footprint := a[i].footprint + [(ops[n].obj, ops[n].write)]) else a[i]
    {
      FootprintStep(ops[..n], ops[n], i);
    }
  }

  lemma ReadyIsForced(m: Machine, o: Options, st: State)
    requires Ready(m, o, st)
    ensures st.forced == |st.path|
  {
  }

  /** Marking does not change which nodes count as converged. */
  lemma {:induction false} MarkedCounts(o: Options, visited: map<nat, nat>, path: seq<Node>, i: nat)
    ensures forall from: nat :: CountConverged(o, visited, Marked(o, visited, path, from), i)
                                == CountConverged(o, visited, path, i)
    decreases |path| - i
  {
    if i < |path| {
      MarkedCounts(o, visited, path, i + 1);
    }
  }

  /** Preparing reads nothing of the state but its path and its visited map. */
  lemma PreparedReads(o: Options, a: State, b: State, t: Trace)
    requires Offers(t.decisions) && a.path == b.path && a.forced == b.forced && a.visited == b.visited
    ensures Prepared(o, a, t) == Prepared(o, b, t)
  {
  }

  lemma {:induction false} TallyAt(xs: seq<Outcome>, entry: Outcome, i: nat)
    requires i < |xs| && xs[i].digest == entry.digest
    requires forall j :: 0 <= j < i ==> xs[j].digest != entry.digest
    ensures Tally(xs, entry) == xs[i := xs[i].(count := xs[i].count + 1)]
  {
    if i == 0 {
      assert xs[0 := xs[0].(count := xs[0].count + 1)] == [xs[0].(count := xs[0].count + 1)] + xs[1..];
    } else {
      TallyAt(xs[1..], entry, i - 1);
    }
  }

  lemma {:induction false} TallyNew(xs: seq<Outcome>, entry: Outcome)
    requires forall j :: 0 <= j < |xs| ==> xs[j].digest != entry.digest
    ensures Tally(xs, entry) == xs + [entry.(count := 1)]
  {
    if xs != [] {
      TallyNew(xs[1..], entry);
    }
  }
}
