/** Exhaustive search: what a naive exploration has executed when it was not cut short. */
module ExploreNaive {
  import opened Wrappers
  import opened Scheduler
  import opened ExploreModel
  import opened ExploreOnce
  import opened ExploreAll

  // -- the report only ever says more ----------------------------------------------------

  ghost predicate SaysMore(a: Report, b: Report) {
    && a.notes <= b.notes
    && (a.frontierOpen ==> b.frontierOpen)
  }

  /** The frontier is open exactly when some note says why, and a hit step cap is noted. */
  ghost predicate NotesExplain(st: State) {
    && (st.report.frontierOpen <==> st.report.notes != [])
    && (st.depthCapped ==> Cut(st.report))
  }

  /** Something other than the preemption bound kept the search from going on. */
  ghost predicate Cut(r: Report) {
    exists i :: 0 <= i < |r.notes| && !r.notes[i].PreemptionBound?
  }

  lemma CutStays(a: Report, b: Report)
    requires Cut(a) && SaysMore(a, b)
    ensures Cut(b)
  {
    var i :| 0 <= i < |a.notes| && !a.notes[i].PreemptionBound?;
    assert b.notes[i] == a.notes[i];
  }

  lemma NoteAppended(r: Report, note: Note, s: Report)
    requires s.notes == r.notes + [note]
    ensures !note.PreemptionBound? ==> Cut(s)
  {
    assert s.notes[|r.notes|] == note;
  }

  lemma {:induction false} ScanSaysMore(o: Options, st: State, firstPruned: nat, d: nat)
    requires d <= |st.path| && NotesExplain(st)
    ensures var next := Scan(o, st, firstPruned, d);
            SaysMore(st.report, next.report) && NotesExplain(next)
    decreases d
  {
    hide Look, Settled;
    if d > 0 {
      var k := d - 1;
      if k >= firstPruned {
        ScanSaysMore(o, Dropped(st, k), firstPruned, k);
      } else {
        LookedSaysMore(o, st, k);
        if Look(o, st, k).pick.None? {
          ScanSaysMore(o, Passed(o, st, k), firstPruned, k);
        }
      }
    }
  }

  lemma LookedSaysMore(o: Options, st: State, k: nat)
    requires k < |st.path| && NotesExplain(st)
    ensures SaysMore(st.report, Looked(o, st, k))
    ensures forall s: State :: s.report == Looked(o, st, k) && s.depthCapped == st.depthCapped ==> NotesExplain(s)
    ensures Look(o, st, k).skipped ==> Looked(o, st, k).frontierOpen
  {
    hide Look;
    if st.depthCapped {
      CutStays(st.report, Looked(o, st, k));
    }
  }

  lemma JudgedSaysMore(o: Options, st: State, t: Trace)
    requires Offers(t.decisions) && NotesExplain(st)
    ensures var next := Judged(o, st, t);
            && SaysMore(st.report, next.report) && NotesExplain(next)
            && (|t.decisions| > o.maxSteps ==> Cut(next.report))
  {
    hide Prepared, Tally, CountConverged;
    var next := Judged(o, st, t);
    if |t.decisions| > o.maxSteps {
      if st.depthCapped {
        CutStays(st.report, next.report);
      } else {
        NoteAppended(st.report, DepthCap(|t.decisions|), next.report);
      }
    } else if st.depthCapped {
      CutStays(st.report, next.report);
    }
  }

  lemma TurnSaysMore(m: Machine, o: Options, st: State)
    requires NotesExplain(st)
    ensures var next := Turn(m, o, st);
            && SaysMore(st.report, next.report) && NotesExplain(next)
            && (Exhausted(o, st) ==> Cut(next.report))
  {
    hide Judged, Scan, Replay;
    if Exhausted(o, st) {
      var n := st.report.executions;
      var note := if n >= o.maxSchedules then ScheduleBudget(n) else WallBudget(n);
      NoteAppended(st.report, note, Stopped(st, note).report);
    } else {
      var t := Replay(m, st);
      if t.divergence.None? {
        JudgedSaysMore(o, Counted(st), t);
        var ran := Ran(m, o, st);
        ScanSaysMore(o, ran, FirstPruned(ran.path), Min(|ran.path|, o.maxSteps));
      } else if st.depthCapped {
        CutStays(st.report, Turn(m, o, st).report);
      }
    }
  }

  lemma {:induction false} SearchSaysMore(m: Machine, o: Options, st: State)
    requires NotesExplain(st)
    ensures SaysMore(st.report, Search(m, o, st).report) && NotesExplain(Search(m, o, st))
    decreases if st.running then 1 + (if st.report.executions < o.maxSchedules
                                      then o.maxSchedules - st.report.executions else 0) else 0
  {
    hide Turn, NotesExplain;
    if st.running {
      TurnCounts(m, o, st);
      TurnSaysMore(m, o, st);
      SearchSaysMore(m, o, Turn(m, o, st));
    }
  }

  // -- coverage ------------------------------------------------------------------------------

  /** Every complete schedule below `p`, within `limit`, has been executed. */
  ghost predicate Covered(m: Machine, limit: Option<nat>, executed: seq<seq<nat>>, p: seq<nat>) {
    forall e :: Leaf(m, e) && p <= e && Within(m, limit, e) ==> e in executed
  }

  /** Every alternative of `n` the search is done with, but for the current one, is covered. */
  ghost predicate SidesCovered(m: Machine, limit: Option<nat>, executed: seq<seq<nat>>, p: seq<nat>, n: Node) {
    forall i :: 0 <= i < |n.candidates| && n.candidates[i] in n.done && n.candidates[i] != n.current
                ==> Covered(m, limit, executed, p + [i])
  }

  ghost predicate PathSidesCovered(m: Machine, limit: Option<nat>, executed: seq<seq<nat>>, path: seq<Node>) {
    forall d :: 0 <= d < |path| ==> SidesCovered(m, limit, executed, Choices(path)[..d], path[d])
  }

  lemma CoveredGrows(m: Machine, limit: Option<nat>, a: seq<seq<nat>>, b: seq<seq<nat>>, path: seq<Node>)
    requires PathSidesCovered(m, limit, a, path) && forall e :: e in a ==> e in b
    ensures PathSidesCovered(m, limit, b, path)
  {
    forall d | 0 <= d < |path|
      ensures SidesCovered(m, limit, b, Choices(path)[..d], path[d])
    {
      assert SidesCovered(m, limit, a, Choices(path)[..d], path[d]);
      forall i | 0 <= i < |path[d].candidates| && path[d].candidates[i] in path[d].done
                 && path[d].candidates[i] != path[d].current
        ensures Covered(m, limit, b, Choices(path)[..d] + [i])
      {
        assert Covered(m, limit, a, Choices(path)[..d] + [i]);
      }
    }
  }

  /** A complete schedule has nothing below it but itself. */
  lemma LeafIsCovered(m: Machine, limit: Option<nat>, executed: seq<seq<nat>>, c: seq<nat>)
    requires Leaf(m, c) && c in executed
    ensures Covered(m, limit, executed, c)
  {
    forall e | Leaf(m, e) && c <= e
      ensures e == c
    {
      assert e[..|c|] == c;
    }
  }

  /** A node whose alternatives are all covered or beyond the bound is covered. */
  lemma NodeIsCovered(m: Machine, o: Options, limit: Option<nat>, executed: seq<seq<nat>>,
                      p: seq<nat>, n: Node, before: nat)
    requires NodeOk(m, o, p, n) && before == Preemptions(m, p, |p|)
    requires SidesCovered(m, limit, executed, p, n)
    requires Covered(m, limit, executed, p + [IndexOf(n.candidates, n.current)])
    requires forall c :: c in n.candidates && c !in n.done ==>
               limit == o.maxPreemptions && OverBound(o, n, before, c)
    ensures Covered(m, limit, executed, p)
  {
    forall e | Leaf(m, e) && p <= e && Within(m, limit, e)
      ensures e in executed
    {
      StepBelow(m, p, e);
      var i := e[|p|];
      assert p + [i] == e[..|p| + 1];
      var c := n.candidates[i];
      FrontIndex(m, p, i);
      if c in n.done {
        assert Covered(m, limit, executed, p + [i]);
      } else {
        BeyondBound(m, o, p, n, e, before);
      }
    }
  }

  lemma StepBelow(m: Machine, p: seq<nat>, e: seq<nat>)
    requires m.event(p).Decide? && Leaf(m, e) && p <= e
    ensures |p| < |e| && e[|p|] < |m.event(p).candidates|
  {
    assert e[..|p|] == p && e[..|e|] == e;
  }

  /** Below an alternative the bound skips, every schedule breaks the bound. */
  lemma BeyondBound(m: Machine, o: Options, p: seq<nat>, n: Node, e: seq<nat>, before: nat)
    requires NodeOk(m, o, p, n) && before == Preemptions(m, p, |p|)
    requires p <= e && |p| < |e| && e[|p|] < |n.candidates|
    requires OverBound(o, n, before, n.candidates[e[|p|]])
    ensures !Within(m, o.maxPreemptions, e)
  {
    FrontIndex(m, p, e[|p|]);
    OffFrontIsPreemption(m, o, p, n, n.candidates[e[|p|]]);
    assert e[..|p|] == p == p[..|p|];
    PreemptionsPrefix(m, p, e, |p|);
    PreemptionsGrow(m, e, |p| + 1, |e|);
  }

  // -- the scan keeps coverage ---------------------------------------------------------------

  lemma SidesKept(m: Machine, limit: Option<nat>, executed: seq<seq<nat>>, a: seq<Node>, b: seq<Node>)
    requires PathSidesCovered(m, limit, executed, a) && KeptBelow(a, b)
    requires forall i :: |a| <= i < |b| ==> b[i].done == {b[i].current}
    ensures PathSidesCovered(m, limit, executed, b)
  {
    forall d | 0 <= d < |b|
      ensures SidesCovered(m, limit, executed, Choices(b)[..d], b[d])
    {
      if d < |a| {
        assert Choices(b)[..d] == Choices(a)[..d];
        assert Kept(a[d], b[d]);
        assert SidesCovered(m, limit, executed, Choices(a)[..d], a[d]);
      }
    }
  }

  lemma SidesBelow(m: Machine, limit: Option<nat>, executed: seq<seq<nat>>, path: seq<Node>, k: nat)
    requires k <= |path| && PathSidesCovered(m, limit, executed, path)
    ensures PathSidesCovered(m, limit, executed, path[..k])
  {
    forall d | 0 <= d < k
      ensures SidesCovered(m, limit, executed, Choices(path[..k])[..d], path[..k][d])
    {
      assert Choices(path[..k])[..d] == Choices(path)[..d];
      assert SidesCovered(m, limit, executed, Choices(path)[..d], path[d]);
    }
  }

  lemma SidesAt(m: Machine, limit: Option<nat>, executed: seq<seq<nat>>, path: seq<Node>, k: nat)
    requires k < |path| && PathSidesCovered(m, limit, executed, path[..k + 1])
    ensures SidesCovered(m, limit, executed, Choices(path)[..k], path[k])
    ensures Choices(path)[..k + 1] == Choices(path)[..k] + [IndexOf(path[k].candidates, path[k].current)]
    ensures PathSidesCovered(m, limit, executed, path[..k])
  {
    hide SidesCovered, IndexOf;
    ChoicesPrefix(path, k + 1);
    assert path[..k + 1][k] == path[k] && Choices(path[..k + 1])[..k] == Choices(path)[..k];
    assert path[..k] == path[..k + 1][..k];
    SidesBelow(m, limit, executed, path[..k + 1], k);
  }

  /** In a naive search a level without a pick has nothing left but what the bound skips. */
  lemma NothingWaits(m: Machine, o: Options, limit: Option<nat>, st: State, k: nat)
    requires o.naive && k < |st.path| && Look(o, st, k).pick.None?
    requires NodeOk(m, o, Choices(st.path)[..k], st.path[k])
    requires limit == o.maxPreemptions || !Look(o, st, k).skipped
    ensures forall c :: c in st.path[k].candidates && c !in st.path[k].done ==>
              limit == o.maxPreemptions && OverBound(o, st.path[k], PathPreemptions(st.path[..k]), c)
  {
    var n := st.path[k];
    var waiting := n.backtrack - n.done;
    WeighMeaning(o, n, PathPreemptions(st.path[..k]), waiting);
    forall c | c in n.candidates && c !in n.done
      ensures limit == o.maxPreemptions && OverBound(o, n, PathPreemptions(st.path[..k]), c)
    {
      assert c in waiting;
    }
  }

  /** The level just visited without a pick is covered as a whole. */
  lemma PassedIsCovered(m: Machine, o: Options, limit: Option<nat>, st: State, k: nat)
    requires o.naive && k < |st.path| && PathOk(m, o, st.path)
    requires PathSidesCovered(m, limit, st.executed, st.path[..k + 1])
    requires Covered(m, limit, st.executed, Choices(st.path)[..k + 1])
    requires Look(o, st, k).pick.None?
    requires limit == o.maxPreemptions || !Look(o, st, k).skipped
    ensures Covered(m, limit, st.executed, Choices(st.path)[..k])
  {
    hide Look, PathOk, PathSidesCovered, SidesCovered, Covered, Choices, OverBound;
    var n := st.path[k];
    var p := Choices(st.path)[..k];
    NodeAt(m, o, st.path, k);
    SidesAt(m, limit, st.executed, st.path, k);
    NothingWaits(m, o, limit, st, k);
    ChoicesPrefix(st.path, k);
    PathOkPrefix(m, o, st.path, k);
    PathCounts(m, o, st.path[..k]);
    NodeIsCovered(m, o, limit, st.executed, p, n, PathPreemptions(st.path[..k]));
  }

  /** Taking an alternative: the choice it replaces is now a covered side. */
  lemma TakenSidesCovered(m: Machine, o: Options, limit: Option<nat>, st: State, k: nat)
    requires o.naive && k < |st.path| && PathOk(m, o, st.path)
    requires PathSidesCovered(m, limit, st.executed, st.path[..k + 1])
    requires Covered(m, limit, st.executed, Choices(st.path)[..k + 1])
    requires Look(o, st, k).pick.Some?
    ensures PathSidesCovered(m, limit, st.executed, Taken(o, st, k).path)
  {
    var n := st.path[k];
    var p := Choices(st.path)[..k];
    WeighMeaning(o, n, PathPreemptions(st.path[..k]), n.backtrack - n.done);
    hide Look, PathOk, PathSidesCovered, SidesCovered, Covered, OverBound, Choices;
    var next := Taken(o, st, k).path;
    NodeAt(m, o, st.path, k);
    SidesAt(m, limit, st.executed, st.path, k);
    MovedSides(m, o, limit, st.executed, p, n, next[k]);
    ChoicesPrefix(st.path, k);
    SidesAppended(m, limit, st.executed, st.path[..k], next[k]);
  }

  lemma SidesAppended(m: Machine, limit: Option<nat>, executed: seq<seq<nat>>, path: seq<Node>, n: Node)
    requires PathSidesCovered(m, limit, executed, path) && SidesCovered(m, limit, executed, Choices(path), n)
    ensures PathSidesCovered(m, limit, executed, path + [n])
  {
    var longer := path + [n];
    assert Choices(path)[..|path|] == Choices(path);
    forall d | 0 <= d < |longer|
      ensures SidesCovered(m, limit, executed, Choices(longer)[..d], longer[d])
    {
      assert Choices(longer)[..d] == Choices(path)[..d];
      if d < |path| {
        assert SidesCovered(m, limit, executed, Choices(path)[..d], path[d]);
      }
    }
  }

  lemma MovedSides(m: Machine, o: Options, limit: Option<nat>, executed: seq<seq<nat>>, p: seq<nat>, n: Node, moved: Node)
    requires NodeOk(m, o, p, n) && SidesCovered(m, limit, executed, p, n)
    requires Covered(m, limit, executed, p + [IndexOf(n.candidates, n.current)])
    requires moved.candidates == n.candidates && moved.done == n.done + {moved.current}
    ensures SidesCovered(m, limit, executed, p, moved)
  {
    forall i | 0 <= i < |n.candidates| && n.candidates[i] in moved.done && n.candidates[i] != moved.current
      ensures Covered(m, limit, executed, p + [i])
    {
      FrontIndex(m, p, i);
    }
  }

  /** What the search is allowed to have left out. */
  ghost predicate LimitFits(o: Options, limit: Option<nat>, end: Report) {
    limit == o.maxPreemptions || !end.frontierOpen
  }

  lemma {:induction false} ScanCovers(m: Machine, o: Options, limit: Option<nat>, st: State, d: nat, end: Report)
    requires o.naive && st.running && d <= |st.path| && PathOk(m, o, st.path) && NotesExplain(st)
    requires PathSidesCovered(m, limit, st.executed, st.path[..d])
    requires Covered(m, limit, st.executed, Choices(st.path)[..d])
    requires LimitFits(o, limit, end) && SaysMore(Scan(o, st, |st.path|, d).report, end)
    ensures var next := Scan(o, st, |st.path|, d);
            && (next.running ==> PathSidesCovered(m, limit, next.executed, next.path))
            && (!next.running ==> Covered(m, limit, next.executed, []))
    decreases d
  {
    hide PathOk, PathSidesCovered, Covered, Look, NotesExplain;
    if d == 0 {
      assert Choices(st.path)[..0] == [];
    } else {
      var k := d - 1;
      LookedSaysMore(o, st, k);
      if Look(o, st, k).pick.Some? {
        TakenSidesCovered(m, o, limit, st, k);
        assert Taken(o, st, k).executed == st.executed;
      } else {
        var next := Passed(o, st, k);
        PassedKeepsPath(m, o, st, k);
        ScanSaysMore(o, next, |st.path|, k);
        PassedIsCovered(m, o, limit, st, k);
        SidesAt(m, limit, st.executed, st.path, k);
        ScanCovers(m, o, limit, next, k, end);
      }
    }
  }

  lemma PassedKeepsPath(m: Machine, o: Options, st: State, k: nat)
    requires k < |st.path| && PathOk(m, o, st.path)
    ensures PathOk(m, o, Passed(o, st, k).path) && Choices(Passed(o, st, k).path) == Choices(st.path)
    ensures Passed(o, st, k).path[..k] == st.path[..k]
  {
    NodeAt(m, o, st.path, k);
    PathUpdated(m, o, st.path, k, Settled(o, st, k));
  }

  // -- over the whole search -----------------------------------------------------------------

  /** After a run that was not cut by the step cap, the whole path is a covered schedule. */
  lemma RanCovers(m: Machine, o: Options, limit: Option<nat>, st: State)
    requires o.naive && Ready(m, o, st) && PathSidesCovered(m, limit, st.executed, st.path)
    requires |Replay(m, st).decisions| <= o.maxSteps
    ensures var ran := Ran(m, o, st);
            && PathSidesCovered(m, limit, ran.executed, ran.path[..|ran.path|])
            && Covered(m, limit, ran.executed, Choices(ran.path)[..|ran.path|])
            && FirstPruned(ran.path) == |ran.path|
  {
    hide Prepared, Run, PathOk, Choices, PathSidesCovered, Covered, Follows, KeptBelow, Tally, CountConverged;
    var t := Replay(m, st);
    var ran := Ran(m, o, st);
    PreparedIsPlaced(m, o, Counted(st), t);
    PreparedUnpruned(o, Counted(st), t);
    SidesKept(m, limit, st.executed, st.path, ran.path);
    CoveredGrows(m, limit, st.executed, ran.executed, ran.path);
    LeafIsCovered(m, limit, ran.executed, Chosen(t.decisions));
    assert ran.path[..|ran.path|] == ran.path;
    assert Choices(ran.path)[..|ran.path|] == Chosen(t.decisions);
  }

  lemma TurnCovers(m: Machine, o: Options, limit: Option<nat>, st: State, end: Report)
    requires o.naive && Ready(m, o, st) && NotesExplain(st) && NotesExplain(Counted(st))
    requires PathSidesCovered(m, limit, st.executed, st.path)
    requires LimitFits(o, limit, end) && SaysMore(Turn(m, o, st).report, end) && !Cut(end)
    ensures var next := Turn(m, o, st);
            && (next.running ==> PathSidesCovered(m, limit, next.executed, next.path))
            && (!next.running ==> Covered(m, limit, next.executed, []))
  {
    hide Judged, Scan, Run, Ready, PathSidesCovered, Covered, NotesExplain, Cut, PathOk, Choices, Prepared;
    TurnSaysMore(m, o, st);
    if Exhausted(o, st) {
      CutStays(Turn(m, o, st).report, end);
    } else {
      RunIsNew(m, o, st);
      var t := Replay(m, st);
      var ran := Ran(m, o, st);
      JudgedSaysMore(o, Counted(st), t);
      ScanSaysMore(o, ran, FirstPruned(ran.path), Min(|ran.path|, o.maxSteps));
      if |t.decisions| > o.maxSteps {
        CutStays(ran.report, end);
      } else {
        RanCovers(m, o, limit, st);
        ScanCovers(m, o, limit, ran, |ran.path|, end);
      }
    }
  }

  lemma CountedExplains(st: State)
    requires NotesExplain(st)
    ensures NotesExplain(Counted(st))
  {
    if st.depthCapped {
      CutStays(st.report, Counted(st).report);
    }
  }

  lemma {:induction false} SearchCovers(m: Machine, o: Options, limit: Option<nat>, st: State)
    requires o.naive && Ready(m, o, st) && NotesExplain(st)
    requires PathSidesCovered(m, limit, st.executed, st.path)
    requires LimitFits(o, limit, Search(m, o, st).report) && !Cut(Search(m, o, st).report)
    ensures Covered(m, limit, Search(m, o, st).executed, [])
    decreases if st.report.executions < o.maxSchedules then o.maxSchedules - st.report.executions else 0
  {
    hide Turn, NotesExplain, PathSidesCovered, Covered, Cut;
    TurnCounts(m, o, st);
    TurnKeeps(m, o, st);
    TurnSaysMore(m, o, st);
    var next := Turn(m, o, st);
    SearchSaysMore(m, o, next);
    CountedExplains(st);
    TurnCovers(m, o, limit, st, Search(m, o, st).report);
    if next.running {
      SearchCovers(m, o, limit, next);
    }
  }

  // -- what the outcomes say ------------------------------------------------------------------

  /** Schedule `e` ends in what outcome `x` records. */
  ghost predicate Ends(m: Machine, e: seq<nat>, x: Outcome) {
    m.event(e).Halt? && m.event(e).digest == x.digest
  }

  ghost predicate Witnessed(m: Machine, executed: seq<seq<nat>>, x: Outcome) {
    exists e :: e in executed && Ends(m, e, x)
  }

  ghost predicate Recorded(m: Machine, outcomes: seq<Outcome>, e: seq<nat>) {
    exists x :: x in outcomes && Ends(m, e, x)
  }

  ghost predicate DistinctDigests(outcomes: seq<Outcome>) {
    forall i, j :: 0 <= i < j < |outcomes| ==> outcomes[i].digest != outcomes[j].digest
  }

  /** The outcomes are exactly the digests of the executed schedules, one entry each. */
  ghost predicate OutcomesTell(m: Machine, executed: seq<seq<nat>>, outcomes: seq<Outcome>) {
    && (forall e :: e in executed ==> Recorded(m, outcomes, e))
    && (forall x :: x in outcomes ==> Witnessed(m, executed, x))
    && DistinctDigests(outcomes)
  }

  lemma {:induction false} TallyTells(outcomes: seq<Outcome>, entry: Outcome)
    requires DistinctDigests(outcomes)
    ensures var r := Tally(outcomes, entry);
            && DistinctDigests(r)
            && |outcomes| <= |r| <= |outcomes| + 1
            && (forall i :: 0 <= i < |outcomes| ==> r[i].digest == outcomes[i].digest)
            && (|r| > |outcomes| ==> r[|outcomes|].digest == entry.digest)
            && (exists i :: 0 <= i < |r| && r[i].digest == entry.digest)
  {
    var r := Tally(outcomes, entry);
    if outcomes == [] || outcomes[0].digest == entry.digest {
      assert r[0].digest == entry.digest;
    } else {
      var rest := Tally(outcomes[1..], entry);
      TallyTells(outcomes[1..], entry);
      var i :| 0 <= i < |rest| && rest[i].digest == entry.digest;
      assert r[i + 1].digest == entry.digest;
      forall j | 1 <= j < |r|
        ensures r[j].digest != r[0].digest
      {
        assert r[j] == rest[j - 1];
        assert j < |outcomes| ==> rest[j - 1].digest == outcomes[1..][j - 1].digest;
      }
      forall a, b | 1 <= a < b < |r|
        ensures r[a].digest != r[b].digest
      {
        assert r[a] == rest[a - 1] && r[b] == rest[b - 1];
      }
    }
  }

  lemma JudgedTells(m: Machine, executed: seq<seq<nat>>, outcomes: seq<Outcome>, c: seq<nat>, entry: Outcome)
    requires OutcomesTell(m, executed, outcomes) && Ends(m, c, entry)
    ensures OutcomesTell(m, executed + [c], Tally(outcomes, entry))
  {
    TallyTells(outcomes, entry);
    var r := Tally(outcomes, entry);
    forall e | e in executed + [c]
      ensures Recorded(m, r, e)
    {
      if e in executed {
        assert Recorded(m, outcomes, e);
        var i :| 0 <= i < |outcomes| && Ends(m, e, outcomes[i]);
        assert r[i] in r && Ends(m, e, r[i]);
      } else {
        var i :| 0 <= i < |r| && r[i].digest == entry.digest;
        assert r[i] in r && Ends(m, e, r[i]);
      }
    }
    forall x | x in r
      ensures Witnessed(m, executed + [c], x)
    {
      var i :| 0 <= i < |r| && r[i] == x;
      if i < |outcomes| {
        assert Witnessed(m, executed, outcomes[i]);
        var e :| e in executed && Ends(m, e, outcomes[i]);
        assert e in executed + [c] && Ends(m, e, x);
      } else {
        assert c in executed + [c] && Ends(m, c, x);
      }
    }
  }

  lemma {:induction false} ScanTellsSame(o: Options, st: State, firstPruned: nat, d: nat)
    requires d <= |st.path|
    ensures var next := Scan(o, st, firstPruned, d);
            next.executed == st.executed && next.report.outcomes == st.report.outcomes
    decreases d
  {
    hide Look, Settled;
    if d > 0 {
      if d - 1 >= firstPruned {
        ScanTellsSame(o, Dropped(st, d - 1), firstPruned, d - 1);
      } else if Look(o, st, d - 1).pick.None? {
        ScanTellsSame(o, Passed(o, st, d - 1), firstPruned, d - 1);
      }
    }
  }

  lemma TurnTells(m: Machine, o: Options, st: State)
    requires Ready(m, o, st) && OutcomesTell(m, st.executed, st.report.outcomes)
    ensures OutcomesTell(m, Turn(m, o, st).executed, Turn(m, o, st).report.outcomes)
  {
    hide OutcomesTell, Scan, Run, Prepared, Tally, CountConverged, Legal, PathOk, Choices;
    if !Exhausted(o, st) {
      RunIsNew(m, o, st);
      var t := Replay(m, st);
      var c := Chosen(t.decisions);
      PreparedIsPlaced(m, o, Counted(st), t);
      var entry := Outcome(t.digest, c, DecisionPreemptions(t.decisions), t.deadlocked, 0);
      JudgedTells(m, st.executed, st.report.outcomes, c, entry);
      var ran := Ran(m, o, st);
      ScanTellsSame(o, ran, FirstPruned(ran.path), Min(|ran.path|, o.maxSteps));
    }
  }

  lemma {:induction false} SearchTells(m: Machine, o: Options, st: State)
    requires Ready(m, o, st) && OutcomesTell(m, st.executed, st.report.outcomes)
    ensures OutcomesTell(m, Search(m, o, st).executed, Search(m, o, st).report.outcomes)
    decreases if st.report.executions < o.maxSchedules then o.maxSchedules - st.report.executions else 0
  {
    hide OutcomesTell, Turn;
    TurnCounts(m, o, st);
    TurnKeeps(m, o, st);
    TurnTells(m, o, st);
    if Turn(m, o, st).running {
      SearchTells(m, o, Turn(m, o, st));
    }
  }

  /** Two schedules were observed the same. */
  ghost predicate Agree(m: Machine, d: seq<nat>, e: seq<nat>) {
    m.event(d).Halt? && m.event(e).Halt? && m.event(d).digest == m.event(e).digest
  }

  /** `Report::stable` is exactly: every executed schedule was observed the same. */
  lemma StableMeansOneDigest(m: Machine, o: Options)
    ensures var st := Explore(m, o);
            st.report.Stable() <==>
              forall d, e :: d in st.executed && e in st.executed ==> Agree(m, d, e)
  {
    hide Explore;
    ExploreTells(m, o);
    NoScheduleTwice(m, o);
    OneDigest(m, Explore(m, o).executed, Explore(m, o).report.outcomes);
  }

  lemma ExploreTells(m: Machine, o: Options)
    ensures OutcomesTell(m, Explore(m, o).executed, Explore(m, o).report.outcomes)
  {
    SearchTells(m, o, START);
  }

  lemma OneDigest(m: Machine, executed: seq<seq<nat>>, xs: seq<Outcome>)
    requires OutcomesTell(m, executed, xs)
    ensures |xs| <= 1 <==> forall d, e :: d in executed && e in executed ==> Agree(m, d, e)
  {
    if |xs| <= 1 {
      forall e | e in executed
        ensures Ends(m, e, xs[0])
      {
        assert Recorded(m, xs, e);
      }
    } else {
      assert xs[0] in xs && xs[1] in xs;
      assert Witnessed(m, executed, xs[0]) && Witnessed(m, executed, xs[1]);
      var d :| d in executed && Ends(m, d, xs[0]);
      var e :| e in executed && Ends(m, e, xs[1]);
      assert !Agree(m, d, e);
    }
  }

  // -- the theorems ---------------------------------------------------------------------------

  lemma NaiveEnds(m: Machine, o: Options, limit: Option<nat>)
    requires o.naive && LimitFits(o, limit, Explore(m, o).report) && !Cut(Explore(m, o).report)
    ensures Covered(m, limit, Explore(m, o).executed, [])
  {
    SearchCovers(m, o, limit, START);
  }

  /** A naive search cut short by nothing but its preemption bound has executed exactly the
    complete schedules within that bound. */
  lemma NaiveExecutesTheBound(m: Machine, o: Options)
    requires o.naive
    ensures var st := Explore(m, o);
            !Cut(st.report) ==> forall e :: e in st.executed <==> Leaf(m, e) && Within(m, o.maxPreemptions, e)
  {
    hide Explore, Leaf, Within;
    NoScheduleTwice(m, o);
    BoundIsRespected(m, o);
    if !Cut(Explore(m, o).report) {
      NaiveEnds(m, o, o.maxPreemptions);
    }
  }

  /** A closed frontier means every complete schedule was executed (exactly once, by
    `NoScheduleTwice`), so a stable report speaks for all of them. */
  lemma ClosedMeansExhaustive(m: Machine, o: Options)
    requires o.naive && !Explore(m, o).report.frontierOpen
    ensures var st := Explore(m, o);
            && (forall e :: e in st.executed <==> Leaf(m, e))
            && (st.report.Stable() <==>
                  forall d, e :: Leaf(m, d) && Leaf(m, e) ==> Agree(m, d, e))
  {
    hide Explore, Leaf;
    NotesAtEnd(m, o);
    NoScheduleTwice(m, o);
    NaiveEnds(m, o, None);
    StableMeansOneDigest(m, o);
  }

  lemma NotesAtEnd(m: Machine, o: Options)
    ensures NotesExplain(Explore(m, o))
  {
    SearchSaysMore(m, o, START);
  }
}
