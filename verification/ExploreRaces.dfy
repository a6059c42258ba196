/** Race closure of the DPOR search: every conflicting, unordered pair of an executed
  schedule was answered at the decision that scheduled its earlier operation. */
module ExploreRaces {
  import opened Wrappers
  import opened Scheduler
  import opened ExploreModel
  import opened ExploreOnce
  import opened ExploreAll
  import opened ExploreNaive

  /** `tried` holds `task`, or everything the node offers when `task` was not enabled there. */
  ghost predicate Demands(n: Node, tried: set<nat>, task: nat) {
    if task in n.candidates then task in tried else Elements(n.candidates) <= tried
  }

  /** How much of `task` the operation's clock has seen. */
  function Seen(x: OpRecord, task: nat): nat {
    if task < |x.vc| then x.vc[task] else 0
  }

  /** Operations `i` and `j` are of two tasks, touch one object, one of them writes it, and the
    later has not seen the earlier one's own tick; `s` is the slice of the earlier one. */
  ghost predicate RacesAt(ops: seq<OpRecord>, i: nat, j: nat, s: nat) {
    && i < j < |ops| && ops[i].slice == Some(s)
    && ops[i].task != ops[j].task && ops[i].obj == ops[j].obj && (ops[i].write || ops[j].write)
    && Seen(ops[j], ops[i].task) < Seen(ops[i], ops[i].task)
  }

  // -- growing the backtrack sets ----------------------------------------------------------

  lemma PairDemands(path: seq<Node>, a: OpRecord, b: OpRecord)
    requires Races(a, b) && a.slice.Some? && a.slice.value < |path|
    ensures var n := GrowPair(path, a, b)[a.slice.value]; Demands(n, n.backtrack, b.task)
  {
  }

  lemma DemandsGrow(a: seq<Node>, b: seq<Node>, s: nat, task: nat)
    requires OnlyGrew(a, b) && s < |a| && Demands(a[s], a[s].backtrack, task)
    ensures Demands(b[s], b[s].backtrack, task)
  {
  }

  lemma {:induction false} RowDemands(path: seq<Node>, ops: seq<OpRecord>, b: nat, k: nat, i: nat, s: nat)
    requires b < |ops| && k <= i && RacesAt(ops, i, b, s) && s < |path|
    ensures var n := GrowRow(path, ops, b, k)[s]; Demands(n, n.backtrack, ops[b].task)
    decreases b - k
  {
    var before := GrowRow(path, ops, b, k + 1);
    if k == i {
      PairDemands(before, ops[k], ops[b]);
    } else {
      RowDemands(path, ops, b, k + 1, i, s);
      DemandsGrow(before, GrowPair(before, ops[k], ops[b]), s, ops[b].task);
    }
  }

  lemma {:induction false} GrowDemands(path: seq<Node>, ops: seq<OpRecord>, n: nat, i: nat, j: nat, s: nat)
    requires j < n <= |ops| && RacesAt(ops, i, j, s) && s < |path|
    ensures var r := Grow(path, ops, n)[s]; Demands(r, r.backtrack, ops[j].task)
  {
    var before := Grow(path, ops, n - 1);
    if j == n - 1 {
      RowDemands(before, ops, j, 0, i, s);
    } else {
      GrowDemands(path, ops, n - 1, i, j, s);
      GrowRowKeeps(before, ops, n - 1, 0);
      DemandsGrow(before, GrowRow(before, ops, n - 1, 0), s, ops[j].task);
    }
  }

  /** The path a DPOR run prepares meets the demands of that run's own races. */
  lemma PreparedDemands(o: Options, st: State, t: Trace, i: nat, j: nat, s: nat)
    requires Offers(t.decisions) && !o.naive && !o.prune && RacesAt(t.ops, i, j, s)
    requires s < |Prepared(o, st, t)|
    ensures var n := Prepared(o, st, t)[s]; Demands(n, n.backtrack, t.ops[j].task)
  {
    var slept := Inherit(Stamped(Rebuilt(o, st.path, t.decisions), t.ops), st.forced);
    GrowDemands(slept, t.ops, |t.ops|, i, j, s);
  }

  lemma {:induction false} LogSlices(m: Machine, c: seq<nat>, i: nat, j: nat)
    requires i <= |c| && j < |LogFrom(m, c, i)|
    ensures LogFrom(m, c, i)[j].slice.Some? ==> LogFrom(m, c, i)[j].slice.value < |c|
    decreases |c| - i
  {
    var here := Stamp(m.ops(c[..i]), SliceAfter(m, c, i));
    if j >= |here| && i < |c| {
      LogSlices(m, c, i + 1, j - |here|);
    }
  }

  // -- answered races -----------------------------------------------------------------------

  /** The node at the end of `p` has retired, and was done with what `task` demands. */
  ghost predicate Closed(m: Machine, o: Options, retired: seq<Retired>, p: seq<nat>, task: nat) {
    exists r :: r in retired && r.prefix == p && NodeOk(m, o, p, r.node) && Demands(r.node, r.node.done, task)
  }

  /** The node at the end of `p` is on the path and will still be asked for `task`. */
  ghost predicate Pending(path: seq<Node>, p: seq<nat>, task: nat) {
    && |p| < |path| && Choices(path)[..|p|] == p
    && Demands(path[|p|], path[|p|].backtrack, task)
  }

  ghost predicate RaceAnswered(m: Machine, o: Options, path: seq<Node>, retired: seq<Retired>,
                               p: seq<nat>, task: nat) {
    Pending(path, p, task) || Closed(m, o, retired, p, task)
  }

  /** Every race of an executed schedule is answered, on the path or by a retired node. */
  ghost predicate RacesAnswered(m: Machine, o: Options, executed: seq<seq<nat>>, path: seq<Node>,
                                retired: seq<Retired>) {
    forall e, i: nat, j: nat, s: nat :: e in executed && RacesAt(Log(m, e), i, j, s) && s < |e| ==>
      RaceAnswered(m, o, path, retired, e[..s], Log(m, e)[j].task)
  }

  lemma AnswersCarry(m: Machine, o: Options, executed: seq<seq<nat>>, path: seq<Node>, retired: seq<Retired>,
                     path': seq<Node>, retired': seq<Retired>)
    requires RacesAnswered(m, o, executed, path, retired)
    requires forall p, task :: Pending(path, p, task) ==> RaceAnswered(m, o, path', retired', p, task)
    requires forall r :: r in retired ==> r in retired'
    ensures RacesAnswered(m, o, executed, path', retired')
  {
    forall e, i: nat, j: nat, s: nat | e in executed && RacesAt(Log(m, e), i, j, s) && s < |e|
      ensures RaceAnswered(m, o, path', retired', e[..s], Log(m, e)[j].task)
    {
      assert RaceAnswered(m, o, path, retired, e[..s], Log(m, e)[j].task);
    }
  }

  lemma PendingKept(a: seq<Node>, b: seq<Node>, p: seq<nat>, task: nat)
    requires KeptBelow(a, b) && Pending(a, p, task)
    ensures Pending(b, p, task)
  {
    assert Choices(b)[..|p|] == Choices(a)[..|p|];
    assert Kept(a[|p|], b[|p|]);
  }

  lemma RanAnswers(m: Machine, o: Options, st: State)
    requires !o.naive && !o.prune && Ready(m, o, st)
    requires RacesAnswered(m, o, st.executed, st.path, st.retired)
    requires |Replay(m, st).decisions| <= o.maxSteps
    ensures var ran := Ran(m, o, st);
            && RacesAnswered(m, o, ran.executed, ran.path, ran.retired)
            && FirstPruned(ran.path) == |ran.path|
  {
    hide Prepared, Run, PathOk, Choices, Follows, KeptBelow, Tally, CountConverged, RacesAnswered, Pending, Closed;
    var t := Replay(m, st);
    var c := Chosen(t.decisions);
    var ran := Ran(m, o, st);
    PreparedIsPlaced(m, o, Counted(st), t);
    PreparedUnpruned(o, Counted(st), t);
    forall p, task | Pending(st.path, p, task)
      ensures RaceAnswered(m, o, ran.path, ran.retired, p, task)
    {
      PendingKept(st.path, ran.path, p, task);
    }
    AnswersCarry(m, o, st.executed, st.path, st.retired, ran.path, ran.retired);
    forall i: nat, j: nat, s: nat | RacesAt(Log(m, c), i, j, s) && s < |c|
      ensures RaceAnswered(m, o, ran.path, ran.retired, c[..s], Log(m, c)[j].task)
    {
      PreparedDemands(o, Counted(st), t, i, j, s);
      PendingOnPath(ran.path, c, s, Log(m, c)[j].task);
    }
    OneMoreAnswered(m, o, st.executed, c, ran.path, ran.retired);
  }

  lemma PendingOnPath(path: seq<Node>, c: seq<nat>, s: nat, task: nat)
    requires s < |path| && Choices(path) <= c && Demands(path[s], path[s].backtrack, task)
    ensures Pending(path, c[..s], task)
  {
    assert Choices(path)[..s] == c[..s];
  }

  lemma OneMoreAnswered(m: Machine, o: Options, executed: seq<seq<nat>>, c: seq<nat>, path: seq<Node>,
                        retired: seq<Retired>)
    requires RacesAnswered(m, o, executed, path, retired)
    requires forall i: nat, j: nat, s: nat :: RacesAt(Log(m, c), i, j, s) && s < |c| ==>
               RaceAnswered(m, o, path, retired, c[..s], Log(m, c)[j].task)
    ensures RacesAnswered(m, o, executed + [c], path, retired)
  {
    forall e, i: nat, j: nat, s: nat | e in executed + [c] && RacesAt(Log(m, e), i, j, s) && s < |e|
      ensures RaceAnswered(m, o, path, retired, e[..s], Log(m, e)[j].task)
    {
      if e != c {
        assert e in executed;
      }
    }
  }

  // -- the scan keeps the answers ----------------------------------------------------------

  /** Without a bound, a level without a pick is done with all it was asked for. */
  lemma PassedIsDone(o: Options, st: State, k: nat)
    requires k < |st.path| && Look(o, st, k).pick.None? && o.maxPreemptions.None?
    ensures st.path[k].backtrack <= Settled(o, st, k).done
    ensures Look(o, st, k).slept <= st.path[k].backtrack
  {
    var n := st.path[k];
    WeighMeaning(o, n, PathPreemptions(st.path[..k]), n.backtrack - n.done);
  }

  lemma LevelCloses(m: Machine, o: Options, st: State, k: nat, task: nat)
    requires k < |st.path| && PathOk(m, o, st.path) && o.maxPreemptions.None? && Look(o, st, k).pick.None?
    requires Demands(st.path[k], st.path[k].backtrack, task)
    ensures Closed(m, o, Passed(o, st, k).retired, Choices(st.path)[..k], task)
  {
    hide Look, PathOk, Choices;
    PassedIsDone(o, st, k);
    NodeAt(m, o, st.path, k);
    NodeStays(m, o, Choices(st.path)[..k], st.path[k], Look(o, st, k).slept);
    var r := Retired(Choices(st.path)[..k], Settled(o, st, k));
    assert Passed(o, st, k).retired[|st.retired|] == r;
    assert Demands(r.node, r.node.done, task);
  }

  lemma PassedAnswers(m: Machine, o: Options, st: State, k: nat)
    requires k < |st.path| && PathOk(m, o, st.path) && o.maxPreemptions.None? && Look(o, st, k).pick.None?
    requires RacesAnswered(m, o, st.executed, st.path[..k + 1], st.retired)
    ensures RacesAnswered(m, o, st.executed, st.path[..k], Passed(o, st, k).retired)
  {
    hide RacesAnswered, Look, PathOk, Closed, Demands;
    var next := Passed(o, st, k);
    forall p, task | Pending(st.path[..k + 1], p, task)
      ensures RaceAnswered(m, o, st.path[..k], next.retired, p, task)
    {
      ChoicesPrefix(st.path, k + 1);
      if |p| == k {
        assert p == Choices(st.path)[..k];
        LevelCloses(m, o, st, k, task);
      } else {
        assert st.path[..k][|p|] == st.path[..k + 1][|p|];
        assert Choices(st.path[..k])[..|p|] == Choices(st.path[..k + 1])[..|p|];
      }
    }
    AnswersCarry(m, o, st.executed, st.path[..k + 1], st.retired, st.path[..k], next.retired);
  }

  lemma PendingMoves(a: seq<Node>, b: seq<Node>, p: seq<nat>, task: nat)
    requires |a| == |b| > 0 && a[..|a| - 1] == b[..|b| - 1] && Pending(a, p, task)
    requires b[|b| - 1].candidates == a[|a| - 1].candidates && b[|b| - 1].backtrack == a[|a| - 1].backtrack
    ensures Pending(b, p, task)
  {
    assert forall i :: 0 <= i < |a| - 1 ==> b[i] == a[..|a| - 1][i] == a[i];
    assert Choices(b)[..|p|] == Choices(a)[..|p|];
  }

  lemma TakenAnswers(m: Machine, o: Options, st: State, k: nat)
    requires k < |st.path| && Look(o, st, k).pick.Some?
    requires RacesAnswered(m, o, st.executed, st.path[..k + 1], st.retired)
    ensures RacesAnswered(m, o, st.executed, Taken(o, st, k).path, st.retired)
  {
    hide RacesAnswered, Weigh, Closed, PathPreemptions, Pending;
    var next := Taken(o, st, k).path;
    assert next[..k] == st.path[..k + 1][..k];
    forall p, task | Pending(st.path[..k + 1], p, task)
      ensures RaceAnswered(m, o, next, st.retired, p, task)
    {
      PendingMoves(st.path[..k + 1], next, p, task);
    }
    AnswersCarry(m, o, st.executed, st.path[..k + 1], st.retired, next, st.retired);
  }

  lemma TakenKeeps(o: Options, st: State, k: nat)
    requires k < |st.path| && Look(o, st, k).pick.Some?
    ensures Taken(o, st, k).executed == st.executed && Taken(o, st, k).retired == st.retired
    ensures Taken(o, st, k).running == st.running
  {
  }

  lemma {:induction false} ScanAnswers(m: Machine, o: Options, st: State, d: nat)
    requires o.maxPreemptions.None? && st.running && d <= |st.path| && PathOk(m, o, st.path)
    requires RacesAnswered(m, o, st.executed, st.path[..d], st.retired)
    ensures var next := Scan(o, st, |st.path|, d);
            && (next.running ==> RacesAnswered(m, o, next.executed, next.path, next.retired))
            && (!next.running ==> RacesAnswered(m, o, next.executed, [], next.retired))
    decreases d
  {
    hide PathOk, RacesAnswered, Look, Taken, Passed, Choices;
    if d == 0 {
      assert st.path[..0] == [];
    } else {
      var k := d - 1;
      if Look(o, st, k).pick.Some? {
        TakenAnswers(m, o, st, k);
        TakenKeeps(o, st, k);
      } else {
        PassedAnswers(m, o, st, k);
        PassedKeepsPath(m, o, st, k);
        ScanAnswers(m, o, Passed(o, st, k), k);
      }
    }
  }

  // -- over the whole search -----------------------------------------------------------------

  lemma TurnAnswers(m: Machine, o: Options, st: State, end: Report)
    requires !o.naive && !o.prune && o.maxPreemptions.None?
    requires Ready(m, o, st) && NotesExplain(st) && NotesExplain(Counted(st))
    requires RacesAnswered(m, o, st.executed, st.path, st.retired)
    requires SaysMore(Turn(m, o, st).report, end) && !Cut(end)
    ensures var next := Turn(m, o, st);
            && (next.running ==> RacesAnswered(m, o, next.executed, next.path, next.retired))
            && (!next.running ==> RacesAnswered(m, o, next.executed, [], next.retired))
  {
    hide Judged, Scan, Run, Ready, RacesAnswered, NotesExplain, Cut, PathOk, Choices, Prepared;
    TurnSaysMore(m, o, st);
    if Exhausted(o, st) {
      CutStays(Turn(m, o, st).report, end);
    } else {
      RunIsNew(m, o, st);
      var t := Replay(m, st);
      var ran := Ran(m, o, st);
      JudgedSaysMore(o, Counted(st), t);
      ScanSaysMore(o, ran, FirstPruned(ran.path), Min(|ran.path|, o.maxSteps));
      if |t.decisions| > o.maxSteps {
        CutStays(ran.report, end);
      } else {
        RanAnswers(m, o, st);
        assert ran.path[..|ran.path|] == ran.path;
        ScanAnswers(m, o, ran, |ran.path|);
      }
    }
  }

  lemma {:induction false} SearchAnswers(m: Machine, o: Options, st: State)
    requires !o.naive && !o.prune && o.maxPreemptions.None?
    requires Ready(m, o, st) && NotesExplain(st)
    requires RacesAnswered(m, o, st.executed, st.path, st.retired)
    requires !Cut(Search(m, o, st).report)
    ensures RacesAnswered(m, o, Search(m, o, st).executed, [], Search(m, o, st).retired)
    decreases if st.report.executions < o.maxSchedules then o.maxSchedules - st.report.executions else 0
  {
    hide Turn, NotesExplain, RacesAnswered, Cut;
    TurnCounts(m, o, st);
    TurnKeeps(m, o, st);
    TurnSaysMore(m, o, st);
    var next := Turn(m, o, st);
    SearchSaysMore(m, o, next);
    CountedExplains(st);
    TurnAnswers(m, o, st, Search(m, o, st).report);
    if next.running {
      SearchAnswers(m, o, next);
    }
  }

  /** With pruning off, no preemption bound and a closed frontier: for every executed
    schedule and every conflicting unordered pair of it, the one node that stood at the
    decision scheduling the earlier operation ended with the later operation's task done,
    or with all its alternatives done when that task was not among them. */
  lemma RaceClosure(m: Machine, o: Options, e: seq<nat>, i: nat, j: nat, s: nat)
    requires !o.naive && !o.prune && o.maxPreemptions.None?
    requires !Explore(m, o).report.frontierOpen && e in Explore(m, o).executed
    requires RacesAt(Log(m, e), i, j, s)
    ensures s < |e| && Closed(m, o, Explore(m, o).retired, e[..s], Log(m, e)[j].task)
    ensures Distinct(Prefixes(Explore(m, o).retired))
  {
    NotesAtEnd(m, o);
    NoScheduleTwice(m, o);
    LogSlices(m, e, 0, i);
    RacesAllAnswered(m, o);
    hide Explore;
    assert RaceAnswered(m, o, [], Explore(m, o).retired, e[..s], Log(m, e)[j].task);
  }

  lemma RacesAllAnswered(m: Machine, o: Options)
    requires !o.naive && !o.prune && o.maxPreemptions.None? && !Cut(Explore(m, o).report)
    ensures RacesAnswered(m, o, Explore(m, o).executed, [], Explore(m, o).retired)
  {
    SearchAnswers(m, o, START);
  }
}
