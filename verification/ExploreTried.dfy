/** What a search has done with an alternative it marks done: it executed a schedule through
  it, or it left it asleep.  So where a search that was not cut short had to answer a race it
  ran the later task where it was not asleep, and at an arm it ran every alternative. */
module ExploreTried {
  import opened Wrappers
  import opened Scheduler
  import opened ExploreModel
  import opened ExploreOnce
  import opened ExploreAll
  import opened ExploreNaive
  import opened ExploreRaces

  // -- done alternatives --------------------------------------------------------------------

  ghost predicate RunThrough(executed: seq<seq<nat>>, p: seq<nat>) {
    exists e :: e in executed && p <= e
  }

  /** The alternative `c` of the node after `p` was run, or is a task asleep there. */
  ghost predicate Tried(executed: seq<seq<nat>>, p: seq<nat>, n: Node, c: nat) {
    RunThrough(executed, p + [IndexOf(n.candidates, c)]) || (n.kind.Task? && Asleep(n, c))
  }

  ghost predicate DoneTried(executed: seq<seq<nat>>, p: seq<nat>, n: Node) {
    forall c :: c in n.done ==> Tried(executed, p, n, c)
  }

  ghost predicate SidesTried(executed: seq<seq<nat>>, p: seq<nat>, n: Node) {
    forall c :: c in n.done && c != n.current ==> Tried(executed, p, n, c)
  }

  /** Up to the choices still to be run, and with every retired node. */
  ghost predicate ReadyTried(st: State) {
    && (forall i :: 0 <= i < |st.path| ==> SidesTried(st.executed, Choices(st.path)[..i], st.path[i]))
    && (forall r :: r in st.retired ==> DoneTried(st.executed, r.prefix, r.node))
  }

  ghost predicate AllTried(st: State) {
    && (forall i :: 0 <= i < |st.path| ==> DoneTried(st.executed, Choices(st.path)[..i], st.path[i]))
    && (forall r :: r in st.retired ==> DoneTried(st.executed, r.prefix, r.node))
  }

  lemma TriedCarries(ex: seq<seq<nat>>, ex': seq<seq<nat>>, p: seq<nat>, a: Node, b: Node, c: nat)
    requires Tried(ex, p, a, c) && (forall e :: e in ex ==> e in ex')
    requires b.candidates == a.candidates && b.kind == a.kind && a.sleep <= b.sleep
    ensures Tried(ex', p, b, c)
  {
    if RunThrough(ex, p + [IndexOf(a.candidates, c)]) {
      var e :| e in ex && p + [IndexOf(a.candidates, c)] <= e;
      assert e in ex';
    } else {
      var i :| 0 <= i < |a.sleep| && a.sleep[i].task == c;
      assert b.sleep[i].task == c;
    }
  }

  lemma PreparedKeepsSleep(o: Options, st: State, t: Trace)
    requires Offers(t.decisions) && st.forced == |st.path|
    ensures forall i :: 0 <= i < |st.path| && i < |Prepared(o, st, t)| ==> Prepared(o, st, t)[i].sleep == st.path[i].sleep
  {
    var stamped := Stamped(Rebuilt(o, st.path, t.decisions), t.ops);
    InheritKeeps(stamped, st.forced);
    GrowKeeps(Inherit(stamped, st.forced), t.ops, |t.ops|);
  }

  lemma RetiredCarries(a: State, ex: seq<seq<nat>>)
    requires (forall r :: r in a.retired ==> DoneTried(a.executed, r.prefix, r.node)) && (forall e :: e in a.executed ==> e in ex)
    ensures forall r :: r in a.retired ==> DoneTried(ex, r.prefix, r.node)
  {
    hide Tried;
    forall r, c | r in a.retired && c in r.node.done ensures Tried(ex, r.prefix, r.node, c) {
      TriedCarries(a.executed, ex, r.prefix, r.node, r.node, c);
    }
  }

  lemma RanTried(m: Machine, o: Options, st: State)
    requires Ready(m, o, st) && ReadyTried(st)
    ensures AllTried(Ran(m, o, st))
  {
    hide Prepared, Run, PathOk, Choices, Follows, Tally, CountConverged, Leaf, DoneTried, SidesTried;
    var t := Replay(m, st);
    var c := Chosen(t.decisions);
    var ran := Ran(m, o, st);
    PreparedIsPlaced(m, o, Counted(st), t);
    PreparedKeepsSleep(o, Counted(st), t);
    RetiredCarries(st, ran.executed);
    assert c in ran.executed;
    forall i | 0 <= i < |ran.path| ensures DoneTried(ran.executed, Choices(ran.path)[..i], ran.path[i]) {
      CurrentIsRun(ran.executed, c, ran.path, i);
      if i < |st.path| {
        NodeTried(st.executed, ran.executed, st.path, ran.path, i);
      } else {
        OnlyCurrent(ran.executed, ran.path, i);
      }
    }
  }

  lemma OnlyCurrent(ex: seq<seq<nat>>, path: seq<Node>, i: nat)
    requires i < |path| && path[i].done == {path[i].current}
    requires Tried(ex, Choices(path)[..i], path[i], path[i].current)
    ensures DoneTried(ex, Choices(path)[..i], path[i])
  {
  }

  lemma CurrentIsRun(ex: seq<seq<nat>>, c: seq<nat>, path: seq<Node>, i: nat)
    requires i < |path| && Choices(path) <= c && c in ex
    ensures Tried(ex, Choices(path)[..i], path[i], path[i].current)
  {
    assert Choices(path)[..i] + [IndexOf(path[i].candidates, path[i].current)] == Choices(path)[..i + 1] <= c;
  }

  lemma NodeTried(ex: seq<seq<nat>>, ex': seq<seq<nat>>, a: seq<Node>, b: seq<Node>, i: nat)
    requires KeptBelow(a, b) && i < |a| && b[i].sleep == a[i].sleep && (forall e :: e in ex ==> e in ex')
    requires SidesTried(ex, Choices(a)[..i], a[i]) && Tried(ex', Choices(b)[..i], b[i], b[i].current)
    ensures DoneTried(ex', Choices(b)[..i], b[i])
  {
    hide Tried;
    assert Kept(a[i], b[i]);
    assert Choices(a)[..i] == Choices(b)[..i];
    forall c | c in b[i].done ensures Tried(ex', Choices(b)[..i], b[i], c) {
      if c != b[i].current {
        TriedCarries(ex, ex', Choices(a)[..i], a[i], b[i], c);
      }
    }
  }

  // -- the scan ---------------------------------------------------------------------------------

  /** What the search marks done at a level without running it is asleep there. */
  lemma SettledTried(o: Options, st: State, k: nat, p: seq<nat>)
    requires k < |st.path| && DoneTried(st.executed, p, st.path[k])
    ensures DoneTried(st.executed, p, Settled(o, st, k))
  {
    var n, next := st.path[k], Settled(o, st, k);
    WeighMeaning(o, n, PathPreemptions(st.path[..k]), n.backtrack - n.done);
    hide Weigh, PathPreemptions, RunThrough;
    forall c | c in next.done ensures Tried(st.executed, p, next, c) {
      if c in n.done {
        assert Tried(st.executed, p, n, c);
      }
    }
  }

  lemma TakenTried(o: Options, st: State, k: nat)
    requires k < |st.path| && Look(o, st, k).pick.Some? && AllTried(st)
    ensures ReadyTried(Taken(o, st, k))
  {
    hide Look, Tried;
    var next := Taken(o, st, k);
    SettledTried(o, st, k, Choices(st.path)[..k]);
    forall i | 0 <= i < |next.path| ensures SidesTried(next.executed, Choices(next.path)[..i], next.path[i]) {
      assert Choices(next.path)[..i] == Choices(st.path)[..i];
      if i == k {
        var a, b := Settled(o, st, k), next.path[k];
        forall c | c in b.done && c != b.current ensures Tried(st.executed, Choices(st.path)[..k], b, c) {
          TriedCarries(st.executed, st.executed, Choices(st.path)[..k], a, b, c);
        }
      } else {
        assert DoneTried(st.executed, Choices(st.path)[..i], st.path[i]);
      }
    }
  }

  lemma PassedTried(o: Options, st: State, k: nat)
    requires k < |st.path| && AllTried(st)
    ensures AllTried(Passed(o, st, k))
  {
    hide Look, DoneTried, Settled;
    SettledTried(o, st, k, Choices(st.path)[..k]);
    SettledKeeps(o, st, k);
    var next := Passed(o, st, k);
    assert Choices(next.path) == Choices(st.path);
  }

  lemma SettledKeeps(o: Options, st: State, k: nat)
    requires k < |st.path|
    ensures Settled(o, st, k).candidates == st.path[k].candidates && Settled(o, st, k).current == st.path[k].current
  {
  }

  lemma DroppedTried(st: State, k: nat)
    requires k < |st.path| && AllTried(st)
    ensures AllTried(Dropped(st, k))
  {
    hide DoneTried;
  }

  lemma TriedMeansReady(st: State)
    requires AllTried(st)
    ensures ReadyTried(st) && ReadyTried(st.(running := false))
  {
    hide Tried;
    assert forall i :: 0 <= i < |st.path| ==> DoneTried(st.executed, Choices(st.path)[..i], st.path[i]);
  }

  lemma {:induction false} ScanTried(o: Options, st: State, firstPruned: nat, d: nat)
    requires d <= |st.path| && AllTried(st)
    ensures ReadyTried(Scan(o, st, firstPruned, d))
    decreases d
  {
    hide AllTried, ReadyTried, Look, Taken, Passed, Dropped;
    if d == 0 {
      TriedMeansReady(st);
    } else if d - 1 >= firstPruned {
      DroppedTried(st, d - 1);
      ScanTried(o, Dropped(st, d - 1), firstPruned, d - 1);
    } else if Look(o, st, d - 1).pick.Some? {
      TakenTried(o, st, d - 1);
    } else {
      PassedTried(o, st, d - 1);
      ScanTried(o, Passed(o, st, d - 1), firstPruned, d - 1);
    }
  }

  lemma TurnTried(m: Machine, o: Options, st: State)
    requires Ready(m, o, st) && ReadyTried(st)
    ensures ReadyTried(Turn(m, o, st))
  {
    hide AllTried, Ran, Scan, Ready, DoneTried, SidesTried, Replay;
    if !Exhausted(o, st) {
      RunIsNew(m, o, st);
      RanTried(m, o, st);
      var ran := Ran(m, o, st);
      ScanTried(o, ran, FirstPruned(ran.path), Min(|ran.path|, o.maxSteps));
    }
  }

  lemma {:induction false} SearchTried(m: Machine, o: Options, st: State)
    requires Ready(m, o, st) && ReadyTried(st)
    ensures ReadyTried(Search(m, o, st))
    decreases if st.report.executions < o.maxSchedules then o.maxSchedules - st.report.executions else 0
  {
    hide ReadyTried, Turn;
    TurnCounts(m, o, st);
    TurnKeeps(m, o, st);
    TurnTried(m, o, st);
    if Turn(m, o, st).running {
      SearchTried(m, o, Turn(m, o, st));
    }
  }

  /** In every mode, whatever a retired node is done with was run there, or is a task that was
    asleep there. */
  lemma DoneMeansTried(m: Machine, o: Options, r: Retired, c: nat)
    requires r in Explore(m, o).retired && c in r.node.done
    ensures Tried(Explore(m, o).executed, r.prefix, r.node, c)
  {
    hide Search, Tried;
    SearchTried(m, o, START);
    assert DoneTried(Explore(m, o).executed, r.prefix, r.node);
  }

  // -- every decision met ------------------------------------------------------------------------

  ghost predicate OnPath(path: seq<Node>, p: seq<nat>) {
    |p| < |path| && Choices(path)[..|p|] == p
  }

  /** The node after `p` has retired, done with all it was asked for. */
  ghost predicate Finished(m: Machine, o: Options, retired: seq<Retired>, p: seq<nat>) {
    exists r :: r in retired && r.prefix == p && NodeOk(m, o, p, r.node) && r.node.backtrack <= r.node.done
  }

  /** Every decision of an executed schedule stands on the path or is finished. */
  ghost predicate DecisionsMet(m: Machine, o: Options, executed: seq<seq<nat>>, path: seq<Node>, retired: seq<Retired>) {
    forall e, k: nat :: e in executed && k < |e| ==> OnPath(path, e[..k]) || Finished(m, o, retired, e[..k])
  }

  lemma MetCarries(m: Machine, o: Options, executed: seq<seq<nat>>, path: seq<Node>, retired: seq<Retired>,
                   path': seq<Node>, retired': seq<Retired>)
    requires DecisionsMet(m, o, executed, path, retired)
    requires forall p :: OnPath(path, p) ==> OnPath(path', p) || Finished(m, o, retired', p)
    requires forall r :: r in retired ==> r in retired'
    ensures DecisionsMet(m, o, executed, path', retired')
  {
    hide OnPath;
    forall e, k: nat | e in executed && k < |e|
      ensures OnPath(path', e[..k]) || Finished(m, o, retired', e[..k])
    {
      if !OnPath(path, e[..k]) {
        assert Finished(m, o, retired, e[..k]);
      }
    }
  }

  lemma OnPathKept(a: seq<Node>, b: seq<Node>, p: seq<nat>)
    requires KeptBelow(a, b) && OnPath(a, p)
    ensures OnPath(b, p)
  {
    assert Choices(b)[..|p|] == Choices(a)[..|p|];
  }

  lemma RanMeets(m: Machine, o: Options, st: State)
    requires !o.prune && Ready(m, o, st) && DecisionsMet(m, o, st.executed, st.path, st.retired)
    requires |Replay(m, st).decisions| <= o.maxSteps
    ensures var ran := Ran(m, o, st);
            DecisionsMet(m, o, ran.executed, ran.path, ran.retired) && FirstPruned(ran.path) == |ran.path|
  {
    hide Prepared, Run, PathOk, Choices, Follows, KeptBelow, Tally, CountConverged, DecisionsMet, OnPath, Finished;
    var t := Replay(m, st);
    var c := Chosen(t.decisions);
    var ran := Ran(m, o, st);
    PreparedIsPlaced(m, o, Counted(st), t);
    PreparedUnpruned(o, Counted(st), t);
    forall p | OnPath(st.path, p) ensures OnPath(ran.path, p) {
      OnPathKept(st.path, ran.path, p);
    }
    MetCarries(m, o, st.executed, st.path, st.retired, ran.path, ran.retired);
    OneMoreMet(m, o, st.executed, c, ran.path, ran.retired);
  }

  lemma OneMoreMet(m: Machine, o: Options, executed: seq<seq<nat>>, c: seq<nat>, path: seq<Node>, retired: seq<Retired>)
    requires DecisionsMet(m, o, executed, path, retired) && Choices(path) <= c && |path| == |c|
    ensures DecisionsMet(m, o, executed + [c], path, retired)
  {
    hide Finished;
    forall e, k: nat | e in executed + [c] && k < |e|
      ensures OnPath(path, e[..k]) || Finished(m, o, retired, e[..k])
    {
      if e == c {
        assert Choices(path)[..k] == c[..k];
      }
    }
  }

  lemma LevelFinishes(m: Machine, o: Options, st: State, k: nat)
    requires k < |st.path| && PathOk(m, o, st.path) && o.maxPreemptions.None? && Look(o, st, k).pick.None?
    ensures Finished(m, o, Passed(o, st, k).retired, Choices(st.path)[..k])
  {
    hide Look, PathOk, Choices;
    PassedIsDone(o, st, k);
    NodeAt(m, o, st.path, k);
    NodeStays(m, o, Choices(st.path)[..k], st.path[k], Look(o, st, k).slept);
    var r := Retired(Choices(st.path)[..k], Settled(o, st, k));
    assert Passed(o, st, k).retired[|st.retired|] == r;
  }

  lemma PassedMeets(m: Machine, o: Options, st: State, k: nat)
    requires k < |st.path| && PathOk(m, o, st.path) && o.maxPreemptions.None? && Look(o, st, k).pick.None?
    requires DecisionsMet(m, o, st.executed, st.path[..k + 1], st.retired)
    ensures DecisionsMet(m, o, st.executed, st.path[..k], Passed(o, st, k).retired)
  {
    hide DecisionsMet, Look, PathOk, Finished;
    var next := Passed(o, st, k);
    forall p | OnPath(st.path[..k + 1], p)
      ensures OnPath(st.path[..k], p) || Finished(m, o, next.retired, p)
    {
      ChoicesPrefix(st.path, k + 1);
      if |p| == k {
        assert p == Choices(st.path)[..k];
        LevelFinishes(m, o, st, k);
      } else {
        assert Choices(st.path[..k])[..|p|] == Choices(st.path[..k + 1])[..|p|];
      }
    }
    MetCarries(m, o, st.executed, st.path[..k + 1], st.retired, st.path[..k], next.retired);
  }

  lemma TakenMeets(m: Machine, o: Options, st: State, k: nat)
    requires k < |st.path| && Look(o, st, k).pick.Some?
    requires DecisionsMet(m, o, st.executed, st.path[..k + 1], st.retired)
    ensures DecisionsMet(m, o, st.executed, Taken(o, st, k).path, st.retired)
  {
    hide DecisionsMet, Look, Finished;
    var a, b := st.path[..k + 1], Taken(o, st, k).path;
    forall p | OnPath(a, p) ensures OnPath(b, p) {
      assert forall i :: 0 <= i < k ==> a[i] == b[i];
      assert Choices(b)[..|p|] == Choices(a)[..|p|];
    }
    MetCarries(m, o, st.executed, a, st.retired, b, st.retired);
  }

  lemma {:induction false} ScanMeets(m: Machine, o: Options, st: State, d: nat)
    requires o.maxPreemptions.None? && st.running && d <= |st.path| && PathOk(m, o, st.path)
    requires DecisionsMet(m, o, st.executed, st.path[..d], st.retired)
    ensures var next := Scan(o, st, |st.path|, d);
            DecisionsMet(m, o, next.executed, if next.running then next.path else [], next.retired)
    decreases d
  {
    hide PathOk, DecisionsMet, Look, Taken, Passed, Choices;
    if d == 0 {
      assert st.path[..0] == [];
    } else {
      var k := d - 1;
      if Look(o, st, k).pick.Some? {
        TakenMeets(m, o, st, k);
        TakenKeeps(o, st, k);
      } else {
        PassedMeets(m, o, st, k);
        PassedKeepsPath(m, o, st, k);
        ScanMeets(m, o, Passed(o, st, k), k);
      }
    }
  }

  lemma TurnMeets(m: Machine, o: Options, st: State, end: Report)
    requires !o.prune && o.maxPreemptions.None?
    requires Ready(m, o, st) && NotesExplain(st) && NotesExplain(Counted(st))
    requires DecisionsMet(m, o, st.executed, st.path, st.retired)
    requires SaysMore(Turn(m, o, st).report, end) && !Cut(end)
    ensures var next := Turn(m, o, st);
            DecisionsMet(m, o, next.executed, if next.running then next.path else [], next.retired)
  {
    hide Judged, Scan, Run, Ready, DecisionsMet, NotesExplain, Cut, PathOk, Choices, Prepared;
    TurnSaysMore(m, o, st);
    if Exhausted(o, st) {
      CutStays(Turn(m, o, st).report, end);
    } else {
      RunIsNew(m, o, st);
      var t := Replay(m, st);
      var ran := Ran(m, o, st);
      JudgedSaysMore(o, Counted(st), t);
      ScanSaysMore(o, ran, FirstPruned(ran.path), Min(|ran.path|, o.maxSteps));
      if |t.decisions| > o.maxSteps {
        CutStays(ran.report, end);
      } else {
        RanMeets(m, o, st);
        assert ran.path[..|ran.path|] == ran.path;
        ScanMeets(m, o, ran, |ran.path|);
      }
    }
  }

  lemma {:induction false} SearchMeets(m: Machine, o: Options, st: State)
    requires !o.prune && o.maxPreemptions.None? && Ready(m, o, st) && NotesExplain(st)
    requires DecisionsMet(m, o, st.executed, st.path, st.retired)
    requires !Cut(Search(m, o, st).report)
    ensures DecisionsMet(m, o, Search(m, o, st).executed, [], Search(m, o, st).retired)
    decreases if st.report.executions < o.maxSchedules then o.maxSchedules - st.report.executions else 0
  {
    hide Turn, NotesExplain, DecisionsMet, Cut;
    TurnCounts(m, o, st);
    TurnKeeps(m, o, st);
    TurnSaysMore(m, o, st);
    var next := Turn(m, o, st);
    SearchSaysMore(m, o, next);
    CountedExplains(st);
    TurnMeets(m, o, st, Search(m, o, st).report);
    if next.running {
      SearchMeets(m, o, next);
    }
  }

  lemma DecisionFinishes(m: Machine, o: Options, e: seq<nat>, k: nat)
    requires !o.prune && o.maxPreemptions.None? && !Explore(m, o).report.frontierOpen
    requires e in Explore(m, o).executed && k < |e|
    ensures Finished(m, o, Explore(m, o).retired, e[..k])
  {
    hide Search, Finished, Choices;
    NotesAtEnd(m, o);
    SearchMeets(m, o, START);
  }

  /** With pruning off, no preemption bound and a closed frontier, every alternative of every arm
    decision of an executed schedule was executed. */
  lemma ArmsAreTried(m: Machine, o: Options, e: seq<nat>, k: nat, a: nat)
    requires !o.prune && o.maxPreemptions.None? && !Explore(m, o).report.frontierOpen
    requires e in Explore(m, o).executed && k < |e|
    requires m.event(e[..k]).Decide? && m.event(e[..k]).kind.Arm? && a < |m.event(e[..k]).candidates|
    ensures RunThrough(Explore(m, o).executed, e[..k] + [a])
  {
    hide Explore, RunThrough;
    DecisionFinishes(m, o, e, k);
    var r :| r in Explore(m, o).retired && r.prefix == e[..k] && NodeOk(m, o, e[..k], r.node) && r.node.backtrack <= r.node.done;
    DoneMeansTried(m, o, r, r.node.candidates[a]);
  }

  /** The node after `p` has retired, and there `task` was run or asleep, or, where `task` was not
    among the alternatives, each of them was. */
  ghost predicate RaceTried(m: Machine, o: Options, st: State, p: seq<nat>, task: nat) {
    exists r :: r in st.retired && r.prefix == p && NodeOk(m, o, p, r.node)
                && (if task in r.node.candidates then Tried(st.executed, p, r.node, task)
                    else forall c :: c in r.node.candidates ==> Tried(st.executed, p, r.node, c))
  }

  /** With pruning off, no preemption bound and a closed frontier, for every executed schedule and
    every race of it: at the decision that scheduled the earlier operation the later operation's
    task was run, or was asleep; and where it was not offered there, every alternative was. */
  lemma RacesAreTried(m: Machine, o: Options, e: seq<nat>, i: nat, j: nat, s: nat)
    requires !o.naive && !o.prune && o.maxPreemptions.None?
    requires !Explore(m, o).report.frontierOpen && e in Explore(m, o).executed
    requires RacesAt(Log(m, e), i, j, s)
    ensures s < |e| && RaceTried(m, o, Explore(m, o), e[..s], Log(m, e)[j].task)
  {
    hide Explore, Tried;
    RaceClosure(m, o, e, i, j, s);
    var task := Log(m, e)[j].task;
    var r :| r in Explore(m, o).retired && r.prefix == e[..s] && NodeOk(m, o, e[..s], r.node)
             && Demands(r.node, r.node.done, task);
    forall c | c in r.node.done ensures Tried(Explore(m, o).executed, e[..s], r.node, c) {
      DoneMeansTried(m, o, r, c);
    }
    assert RaceTried(m, o, Explore(m, o), e[..s], task);
  }
}
