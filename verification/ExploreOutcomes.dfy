/** What a report says of the executed schedules: each outcome is the first schedule with its
  observation and how many there were, and the totals are totals over the schedules. */
module ExploreOutcomes {
  import opened Wrappers
  import opened Scheduler
  import opened ExploreModel
  import opened ExploreOnce
  import opened ExploreAll
  import opened ExploreNaive

  // -- the account of a list of schedules -------------------------------------------------

  predicate Shows(m: Machine, c: seq<nat>, digest: nat) {
    m.event(c).Halt? && m.event(c).digest == digest
  }

  /** How many of the schedules were observed as `digest`. */
  function CountShown(m: Machine, executed: seq<seq<nat>>, digest: nat): nat {
    if executed == [] then 0
    else CountShown(m, executed[..|executed| - 1], digest) + if Shows(m, executed[|executed| - 1], digest) then 1 else 0
  }

  /** Schedule `k` is the first that shows what it shows. */
  ghost predicate IsFirst(m: Machine, executed: seq<seq<nat>>, k: nat)
    requires k < |executed|
  {
    && m.event(executed[k]).Halt?
    && forall j :: 0 <= j < k ==> !Shows(m, executed[j], m.event(executed[k]).digest)
  }

  /** Outcome `x` is of the `k`-th schedule: its choices, its observation, the preemptions along it
    and the number of schedules observed alike; and no earlier schedule was observed so. */
  ghost predicate Reports(m: Machine, executed: seq<seq<nat>>, x: Outcome, k: nat) {
    && k < |executed| && IsFirst(m, executed, k)
    && x.choices == executed[k] && Leaf(m, x.choices)
    && x.digest == m.event(x.choices).digest && x.deadlocked == m.event(x.choices).deadlocked
    && x.preemptions == Preemptions(m, x.choices, |x.choices|)
    && x.count == CountShown(m, executed, x.digest)
  }

  /** The outcomes are those of the schedules that are the first to show something, in the order in
    which they were executed: `first[i]` is the schedule of outcome `i`. */
  ghost predicate ReportsAll(m: Machine, executed: seq<seq<nat>>, outcomes: seq<Outcome>, first: seq<nat>) {
    && |first| == |outcomes|
    && (forall i :: 0 <= i < |outcomes| ==> Reports(m, executed, outcomes[i], first[i]))
    && (forall i, j :: 0 <= i < j < |first| ==> first[i] < first[j])
    && (forall k :: 0 <= k < |executed| && IsFirst(m, executed, k) ==> k in first)
  }

  ghost predicate OutcomesReport(m: Machine, executed: seq<seq<nat>>, outcomes: seq<Outcome>) {
    exists first :: ReportsAll(m, executed, outcomes, first)
  }

  function CountDeadlocks(m: Machine, executed: seq<seq<nat>>): nat {
    if executed == [] then 0
    else
      var e := m.event(executed[|executed| - 1]);
      CountDeadlocks(m, executed[..|executed| - 1]) + if e.Halt? && e.deadlocked then 1 else 0
  }

  function CountRaces(m: Machine, executed: seq<seq<nat>>): nat {
    if executed == [] then 0
    else
      var e := m.event(executed[|executed| - 1]);
      CountRaces(m, executed[..|executed| - 1]) + if e.Halt? && e.race then 1 else 0
  }

  ghost predicate IsDeepest(executed: seq<seq<nat>>, depth: nat) {
    && (forall e :: e in executed ==> |e| <= depth)
    && (depth > 0 ==> exists e :: e in executed && |e| == depth)
  }

  /** The totals of a report are those of the schedules. */
  ghost predicate TotalsReport(m: Machine, executed: seq<seq<nat>>, r: Report) {
    && r.schedules == r.executions == |executed|
    && r.deadlocks == CountDeadlocks(m, executed)
    && r.races == CountRaces(m, executed)
    && IsDeepest(executed, r.maxDepth)
  }

  // -- one schedule more -------------------------------------------------------------------

  lemma OneMoreCount(m: Machine, executed: seq<seq<nat>>, c: seq<nat>)
    ensures forall digest :: CountShown(m, executed + [c], digest)
                             == CountShown(m, executed, digest) + if Shows(m, c, digest) then 1 else 0
  {
    assert (executed + [c])[..|executed|] == executed;
  }

  lemma SameFirsts(m: Machine, executed: seq<seq<nat>>, c: seq<nat>, k: nat)
    requires k < |executed|
    ensures IsFirst(m, executed + [c], k) <==> IsFirst(m, executed, k)
  {
    var more := executed + [c];
    assert more[k] == executed[k];
    assert forall j :: 0 <= j < k ==> more[j] == executed[j];
  }

  lemma {:induction false} NoneShown(m: Machine, executed: seq<seq<nat>>, digest: nat)
    requires forall k :: 0 <= k < |executed| ==> !Shows(m, executed[k], digest)
    ensures CountShown(m, executed, digest) == 0
  {
    if executed != [] {
      NoneShown(m, executed[..|executed| - 1], digest);
    }
  }

  /** The first schedule of those that show what `executed[k]` shows. */
  lemma {:induction false} FirstShown(m: Machine, executed: seq<seq<nat>>, k: nat) returns (f: nat)
    requires k < |executed| && m.event(executed[k]).Halt?
    ensures f <= k && IsFirst(m, executed, f) && m.event(executed[f]).digest == m.event(executed[k]).digest
  {
    if IsFirst(m, executed, k) {
      f := k;
    } else {
      var j :| 0 <= j < k && Shows(m, executed[j], m.event(executed[k]).digest);
      f := FirstShown(m, executed, j);
    }
  }

  /** An observation not yet reported is reported last. */
  lemma {:induction false} TallyLast(outcomes: seq<Outcome>, entry: Outcome)
    requires forall i :: 0 <= i < |outcomes| ==> outcomes[i].digest != entry.digest
    ensures Tally(outcomes, entry) == outcomes + [entry.(count := 1)]
  {
    if outcomes != [] {
      TallyLast(outcomes[1..], entry);
      assert outcomes == [outcomes[0]] + outcomes[1..];
    }
  }

  /** Where one is already reported the count goes up. */
  lemma {:induction false} TallyAt(outcomes: seq<Outcome>, entry: Outcome, i: nat)
    requires i < |outcomes| && outcomes[i].digest == entry.digest
    requires forall j :: 0 <= j < i ==> outcomes[j].digest != entry.digest
    ensures Tally(outcomes, entry) == outcomes[i := outcomes[i].(count := outcomes[i].count + 1)]
    decreases i
  {
    if i > 0 {
      var rest := outcomes[1..];
      assert rest[i - 1] == outcomes[i] && forall j :: 0 <= j < i - 1 ==> rest[j] == outcomes[j + 1];
      TallyAt(rest, entry, i - 1);
    }
  }

  /** What is filed for schedule `c`. */
  ghost predicate IsEntry(m: Machine, c: seq<nat>, entry: Outcome) {
    && Leaf(m, c) && m.event(c).Halt? && entry.choices == c
    && entry.digest == m.event(c).digest && entry.deadlocked == m.event(c).deadlocked
    && entry.preemptions == Preemptions(m, c, |c|)
  }

  lemma DigestsDiffer(m: Machine, executed: seq<seq<nat>>, outcomes: seq<Outcome>, first: seq<nat>, i: nat, j: nat)
    requires ReportsAll(m, executed, outcomes, first) && i < |outcomes| && j < |outcomes| && i != j
    ensures outcomes[i].digest != outcomes[j].digest
  {
    hide Leaf, Preemptions, CountShown;
    assert Reports(m, executed, outcomes[i], first[i]) && Reports(m, executed, outcomes[j], first[j]);
    assert Shows(m, executed[first[i]], outcomes[i].digest) && Shows(m, executed[first[j]], outcomes[j].digest);
  }

  lemma KnownIsCounted(m: Machine, executed: seq<seq<nat>>, outcomes: seq<Outcome>, first: seq<nat>, c: seq<nat>,
                       entry: Outcome, i: nat)
    requires ReportsAll(m, executed, outcomes, first) && IsEntry(m, c, entry)
    requires i < |outcomes| && outcomes[i].digest == entry.digest
    ensures ReportsAll(m, executed + [c], Tally(outcomes, entry), first)
  {
    hide Leaf, CountShown, Tally, Preemptions;
    var more := executed + [c];
    OneMoreCount(m, executed, c);
    forall j | 0 <= j < |outcomes| && j != i ensures outcomes[j].digest != entry.digest {
      DigestsDiffer(m, executed, outcomes, first, i, j);
    }
    TallyAt(outcomes, entry, i);
    var r := Tally(outcomes, entry);
    forall j | 0 <= j < |r| ensures Reports(m, more, r[j], first[j]) {
      assert Reports(m, executed, outcomes[j], first[j]);
      SameFirsts(m, executed, c, first[j]);
    }
    assert Reports(m, executed, outcomes[i], first[i]);
    assert Shows(m, more[first[i]], entry.digest);
    forall k | 0 <= k < |more| && IsFirst(m, more, k) ensures k in first {
      if k < |executed| {
        SameFirsts(m, executed, c, k);
      }
    }
  }

  lemma NewIsReported(m: Machine, executed: seq<seq<nat>>, outcomes: seq<Outcome>, first: seq<nat>, c: seq<nat>,
                      entry: Outcome)
    requires ReportsAll(m, executed, outcomes, first) && IsEntry(m, c, entry)
    requires forall i :: 0 <= i < |outcomes| ==> outcomes[i].digest != entry.digest
    requires forall e :: e in executed ==> Leaf(m, e)
    ensures ReportsAll(m, executed + [c], Tally(outcomes, entry), first + [|executed|])
  {
    hide CountShown, Tally, Preemptions, Legal;
    var more, n := executed + [c], |executed|;
    OneMoreCount(m, executed, c);
    TallyLast(outcomes, entry);
    forall i | 0 <= i < |first| ensures first[i] < n && m.event(executed[first[i]]).digest != entry.digest {
      assert Reports(m, executed, outcomes[i], first[i]);
    }
    forall k | 0 <= k < n ensures !Shows(m, executed[k], entry.digest) {
      if Shows(m, executed[k], entry.digest) {
        var f := FirstShown(m, executed, k);
      }
    }
    NoneShown(m, executed, entry.digest);
    assert IsFirst(m, more, n);
    var r, firsts := Tally(outcomes, entry), first + [n];
    forall j | 0 <= j < |r| ensures Reports(m, more, r[j], firsts[j]) {
      if j < |outcomes| {
        assert Reports(m, executed, outcomes[j], first[j]);
        SameFirsts(m, executed, c, first[j]);
      }
    }
    forall k | 0 <= k < |more| && IsFirst(m, more, k) ensures k in firsts {
      if k < n {
        SameFirsts(m, executed, c, k);
        assert k in first;
        var i :| 0 <= i < |first| && first[i] == k;
        assert firsts[i] == k;
      } else {
        assert firsts[|first|] == k;
      }
    }
  }

  lemma OneMoreOutcome(m: Machine, executed: seq<seq<nat>>, outcomes: seq<Outcome>, c: seq<nat>, entry: Outcome)
    requires OutcomesReport(m, executed, outcomes) && IsEntry(m, c, entry)
    requires forall e :: e in executed ==> Leaf(m, e)
    ensures OutcomesReport(m, executed + [c], Tally(outcomes, entry))
  {
    hide ReportsAll, IsEntry, Leaf, Tally;
    var first :| ReportsAll(m, executed, outcomes, first);
    if i :| 0 <= i < |outcomes| && outcomes[i].digest == entry.digest {
      KnownIsCounted(m, executed, outcomes, first, c, entry, i);
    } else {
      NewIsReported(m, executed, outcomes, first, c, entry);
    }
  }

  lemma OneMoreTotal(m: Machine, executed: seq<seq<nat>>, c: seq<nat>)
    requires m.event(c).Halt?
    ensures CountDeadlocks(m, executed + [c]) == CountDeadlocks(m, executed) + if m.event(c).deadlocked then 1 else 0
    ensures CountRaces(m, executed + [c]) == CountRaces(m, executed) + if m.event(c).race then 1 else 0
  {
    assert (executed + [c])[..|executed|] == executed;
  }

  lemma OneMoreDeep(executed: seq<seq<nat>>, c: seq<nat>, depth: nat)
    requires IsDeepest(executed, depth)
    ensures IsDeepest(executed + [c], if depth < |c| then |c| else depth)
  {
    var more := executed + [c];
    assert more[|executed|] == c;
    if depth > 0 {
      var e :| e in executed && |e| == depth;
      assert e in more;
    }
  }

  // -- what a run files ----------------------------------------------------------------------

  lemma {:induction false} DecisionsPreempt(m: Machine, c: seq<nat>, ds: seq<Decision>)
    requires |ds| <= |c| && forall i :: 0 <= i < |ds| ==> m.event(c[..i]).Decide? && ds[i] == DecisionAt(m, c, i)
    ensures DecisionPreemptions(ds) == Preemptions(m, c, |ds|)
  {
    if ds != [] {
      DecisionsPreempt(m, c, ds[..|ds| - 1]);
    }
  }

  lemma RunFiles(m: Machine, o: Options, st: State)
    requires Ready(m, o, st)
    ensures var t := Replay(m, st);
            var c := Chosen(t.decisions);
            && IsEntry(m, c, Entry(t)) && |t.decisions| == |c|
            && m.event(c) == Halt(t.digest, t.deadlocked, t.race)
  {
    hide LogFrom;
    PlanIsFaithful(m, o, st.path);
    ReplayIsExact(m, PlanOf(st.path));
    var t := Replay(m, st);
    DecisionsPreempt(m, Chosen(t.decisions), t.decisions);
  }

  // -- over the whole search --------------------------------------------------------------------

  ghost predicate Told(m: Machine, executed: seq<seq<nat>>, r: Report) {
    OutcomesReport(m, executed, r.outcomes) && TotalsReport(m, executed, r)
  }

  /** The scan changes no number of the schedules. */
  ghost predicate SameAccount(a: State, b: State) {
    && b.executed == a.executed
    && b.report == a.report.(slept := b.report.slept, notes := b.report.notes, frontierOpen := b.report.frontierOpen)
  }

  lemma {:induction false} ScanSameAccount(o: Options, st: State, firstPruned: nat, d: nat)
    requires d <= |st.path|
    ensures SameAccount(st, Scan(o, st, firstPruned, d))
    decreases d
  {
    hide Look, Settled;
    if d > 0 {
      if d - 1 >= firstPruned {
        ScanSameAccount(o, Dropped(st, d - 1), firstPruned, d - 1);
      } else if Look(o, st, d - 1).pick.None? {
        ScanSameAccount(o, Passed(o, st, d - 1), firstPruned, d - 1);
      }
    }
  }

  lemma RanFiles(m: Machine, o: Options, st: State)
    requires Ready(m, o, st)
    ensures var t := Replay(m, st);
            var ran, c := Ran(m, o, st), Chosen(t.decisions);
            && ran.executed == st.executed + [c]
            && ran.report.outcomes == Tally(st.report.outcomes, Entry(t))
            && ran.report.schedules == st.report.schedules + 1 && ran.report.executions == st.report.executions + 1
            && ran.report.deadlocks == st.report.deadlocks + (if t.deadlocked then 1 else 0)
            && ran.report.races == st.report.races + (if t.race then 1 else 0)
            && ran.report.maxDepth == if st.report.maxDepth < |c| then |c| else st.report.maxDepth
  {
    hide Tally, Prepared, CountConverged, Ready, Run;
  }

  lemma RanTells(m: Machine, o: Options, st: State)
    requires Ready(m, o, st) && Told(m, st.executed, st.report)
    ensures Told(m, Ran(m, o, st).executed, Ran(m, o, st).report)
  {
    hide Ran, OutcomesReport, IsDeepest, CountDeadlocks, CountRaces, Tally, Replay, Leaf, Behind, PathOk, Unpruned, Entry,
         Preemptions;
    RunFiles(m, o, st);
    RanFiles(m, o, st);
    var c := Chosen(Replay(m, st).decisions);
    OneMoreOutcome(m, st.executed, st.report.outcomes, c, Entry(Replay(m, st)));
    OneMoreTotal(m, st.executed, c);
    OneMoreDeep(st.executed, c, st.report.maxDepth);
  }

  lemma TurnTellsAll(m: Machine, o: Options, st: State)
    requires Ready(m, o, st) && Told(m, st.executed, st.report)
    ensures Told(m, Turn(m, o, st).executed, Turn(m, o, st).report)
  {
    hide OutcomesReport, TotalsReport, Scan, Ran, Ready, Replay;
    if Exhausted(o, st) {
      StopTells(m, st);
    } else {
      RunIsNew(m, o, st);
      RanTells(m, o, st);
      var ran := Ran(m, o, st);
      ScanSameAccount(o, ran, FirstPruned(ran.path), Min(|ran.path|, o.maxSteps));
      SameTells(m, ran, Turn(m, o, st));
    }
  }

  lemma StopTells(m: Machine, st: State)
    requires Told(m, st.executed, st.report)
    ensures forall note :: Told(m, Stopped(st, note).executed, Stopped(st, note).report)
  {
    hide OutcomesReport, IsDeepest;
  }

  lemma SameTells(m: Machine, a: State, b: State)
    requires SameAccount(a, b) && Told(m, a.executed, a.report)
    ensures Told(m, b.executed, b.report)
  {
    hide OutcomesReport, IsDeepest;
  }

  lemma {:induction false} SearchTellsAll(m: Machine, o: Options, st: State)
    requires Ready(m, o, st) && Told(m, st.executed, st.report)
    ensures Told(m, Search(m, o, st).executed, Search(m, o, st).report)
    decreases if st.report.executions < o.maxSchedules then o.maxSchedules - st.report.executions else 0
  {
    hide Told, Turn;
    TurnCounts(m, o, st);
    TurnKeeps(m, o, st);
    TurnTellsAll(m, o, st);
    if Turn(m, o, st).running {
      SearchTellsAll(m, o, Turn(m, o, st));
    }
  }

  /** In every mode each outcome carries the choices of the first executed schedule that was
    observed so, what the machine shows there, the preemptions along it and how many executed
    schedules were observed so; the outcomes stand in the order of those schedules, one for each
    observation; and the report's totals are those of the executed schedules. */
  lemma OutcomesCarryWitnesses(m: Machine, o: Options)
    ensures var st := Explore(m, o);
            OutcomesReport(m, st.executed, st.report.outcomes) && TotalsReport(m, st.executed, st.report)
  {
    hide OutcomesReport, TotalsReport, Search;
    StartTells(m);
    SearchTellsAll(m, o, START);
  }

  lemma StartTells(m: Machine)
    ensures OutcomesReport(m, [], []) && TotalsReport(m, [], EMPTY_REPORT)
  {
    assert ReportsAll(m, [], [], []);
  }
}
