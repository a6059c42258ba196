/** The explorer's state and one turn of its loop, as functions on values.

  `Explorer` (the class) keeps the same fields and is proved to take exactly these
  steps; the theorems about whole explorations are proved here and in the modules
  that import this one. */
module ExploreModel {
  import opened Wrappers
  import opened Scheduler

  /** `wallExpired(n)` answers whether the wall-clock budget is gone after `n` executions. */
  datatype Options = Options(maxSchedules: nat, maxSteps: nat, maxPreemptions: Option<nat>,
                             wallExpired: nat -> bool, naive: bool, prune: bool)

  datatype Sleeper = Sleeper(task: nat, footprint: Footprint)

  /** One decision point of the current path, with the bookkeeping the search grows on it. */
  datatype Node = Node(kind: Kind, candidates: seq<nat>, state: nat, current: nat, footprint: Footprint,
                       done: set<nat>, backtrack: set<nat>, sleep: seq<Sleeper>, pruned: bool)

  datatype Note =
    | ScheduleBudget(executions: nat)
    | WallBudget(executions: nat)
    | DepthCap(decisions: nat)
    | PreemptionBound(bound: nat)

  datatype Outcome = Outcome(digest: nat, choices: seq<nat>, preemptions: nat, deadlocked: bool, count: nat)

  datatype Report = Report(executions: nat, schedules: nat, slept: nat, pruned: nat, deadlocks: nat,
                           races: nat, frontierOpen: bool, notes: seq<Note>, outcomes: seq<Outcome>,
                           divergence: Option<nat>, maxDepth: nat)
  {
    predicate Stable() {
      |outcomes| <= 1 && divergence.None?
    }
  }

  /** A node that left the path, with the choices that led to it. */
  datatype Retired = Retired(prefix: seq<nat>, node: Node)

  /** The loop's variables; `executed` and `retired` are history no branch reads. */
  datatype State = State(path: seq<Node>, forced: nat, visited: map<nat, nat>, report: Report,
                         depthCapped: bool, running: bool,
                         executed: seq<seq<nat>>, retired: seq<Retired>)

  const EMPTY_REPORT := Report(0, 0, 0, 0, 0, 0, false, [], [], None, 0)
  const START := State([], 0, map[], EMPTY_REPORT, false, true, [], [])

  // -- nodes ---------------------------------------------------------------------

  function Elements(s: seq<nat>): (r: set<nat>)
    ensures forall x :: x in r <==> x in s
  {
    set x | x in s
  }

  /** Index of the first occurrence of `x`. */
  function IndexOf(s: seq<nat>, x: nat): (i: nat)
    ensures x in s ==> i < |s| && s[i] == x
    ensures x !in s ==> i == |s|
    ensures forall j :: 0 <= j < i ==> s[j] != x
  {
    if s == [] || s[0] == x then 0 else 1 + IndexOf(s[1..], x)
  }

  function Fresh(d: Decision, naive: bool): Node
    requires d.chosen < |d.candidates|
  {
    var current := d.candidates[d.chosen];
    Node(d.kind, d.candidates, d.state, current, [], {current},
         if naive || d.kind.Arm? then Elements(d.candidates) else {current}, [], false)
  }

  /** The path's choices, in the plan's spelling. */
  function Choices(path: seq<Node>): (c: seq<nat>)
    ensures |c| == |path|
    ensures forall i :: 0 <= i < |c| ==> c[i] == IndexOf(path[i].candidates, path[i].current)
  {
    seq(|path|, i requires 0 <= i < |path| => IndexOf(path[i].candidates, path[i].current))
  }

  function PlanOf(path: seq<Node>): Plan {
    Plan(Choices(path), seq(|path|, i requires 0 <= i < |path| => (path[i].kind, path[i].candidates)))
  }

  predicate OffFront(n: Node, candidate: nat) {
    n.kind.Task? && n.candidates != [] && candidate != n.candidates[0]
  }

  function PathPreemptions(path: seq<Node>): nat {
    if path == [] then 0
    else PathPreemptions(path[..|path| - 1])
         + if OffFront(path[|path| - 1], path[|path| - 1].current) then 1 else 0
  }

  function DecisionPreemptions(ds: seq<Decision>): nat {
    if ds == [] then 0
    else DecisionPreemptions(ds[..|ds| - 1])
         + if ds[|ds| - 1].kind.Task? && ds[|ds| - 1].chosen != 0 then 1 else 0
  }

  // -- preparing the path from a trace ---------------------------------------------

  function Min(a: nat, b: nat): nat { if a < b then a else b }

  /** The path re-grown past its forced prefix, up to the step cap. */
  function Rebuilt(o: Options, path: seq<Node>, ds: seq<Decision>): (r: seq<Node>)
    requires Offers(ds)
    ensures path <= r
    decreases |ds| - |path|
  {
    if |path| >= Min(|ds|, o.maxSteps) then path
    else Rebuilt(o, path + [Fresh(ds[|path|], o.naive)], ds)
  }

  function Stamped(path: seq<Node>, ops: seq<OpRecord>): (r: seq<Node>)
    ensures |r| == |path|
    ensures forall i :: 0 <= i < |r| ==> r[i] == path[i].(footprint := FootprintOf(ops, i))
  {
    seq(|path|, i requires 0 <= i < |path| => path[i].(footprint := FootprintOf(ops, i)))
  }

  /** Sleepers that a slice with footprint `fp` does not wake. */
  function StillAsleep(sleep: seq<Sleeper>, fp: Footprint): (r: seq<Sleeper>)
    ensures forall s :: s in r <==> s in sleep && !FootprintsConflict(s.footprint, fp)
  {
    if sleep == [] then []
    else
      var rest := StillAsleep(sleep[..|sleep| - 1], fp);
      var last := sleep[|sleep| - 1];
      assert sleep == sleep[..|sleep| - 1] + [last];
      if FootprintsConflict(last.footprint, fp) then rest else rest + [last]
  }

  /** Sleep inheritance for the nodes from `i` on, each from the one above it. */
  function Inherit(path: seq<Node>, i: nat): (r: seq<Node>)
    ensures |r| == |path|
    decreases |path| - i
  {
    if i >= |path| then path
    else if i == 0 then Inherit(path, 1)
    else Inherit(path[i := path[i].(sleep := StillAsleep(path[i - 1].sleep, path[i - 1].footprint))], i + 1)
  }

  predicate Races(a: OpRecord, b: OpRecord) {
    a.task != b.task && Conflicts(a, b) && !HappensBefore(a, b)
  }

  function GrowNode(n: Node, task: nat): Node {
    n.(backtrack := n.backtrack + if task in n.candidates then {task} else Elements(n.candidates))
  }

  function GrowPair(path: seq<Node>, a: OpRecord, b: OpRecord): (r: seq<Node>)
    ensures |r| == |path|
  {
    if Races(a, b) && a.slice.Some? && a.slice.value < |path|
    then path[a.slice.value := GrowNode(path[a.slice.value], b.task)]
    else path
  }

  /** All pairs `(a, ops[b])` with `a` from `b - 1` down to `k`. */
  function GrowRow(path: seq<Node>, ops: seq<OpRecord>, b: nat, k: nat): (r: seq<Node>)
    requires b < |ops| && k <= b
    ensures |r| == |path|
    decreases b - k
  {
    if k == b then path else GrowPair(GrowRow(path, ops, b, k + 1), ops[k], ops[b])
  }

  /** All pairs whose later operation is among the first `n`. */
  function Grow(path: seq<Node>, ops: seq<OpRecord>, n: nat): (r: seq<Node>)
    requires n <= |ops|
    ensures |r| == |path|
  {
    if n == 0 then path else GrowRow(Grow(path, ops, n - 1), ops, n - 1, 0)
  }

  predicate Converged(o: Options, visited: map<nat, nat>, n: Node, i: nat) {
    n.kind.Task? && n.state in visited && visited[n.state] + i >= o.maxSteps
  }

  /** Marks, from `i` on, the nodes whose state was already explored with budget to spare. */
  function Marked(o: Options, visited: map<nat, nat>, path: seq<Node>, i: nat): (r: seq<Node>)
    ensures |r| == |path|
    ensures forall j :: 0 <= j < |r| ==>
              r[j] == if j >= i && Converged(o, visited, path[j], j) then path[j].(pruned := true) else path[j]
  {
    seq(|path|, j requires 0 <= j < |path| =>
      if j >= i && Converged(o, visited, path[j], j) then path[j].(pruned := true) else path[j])
  }

  function CountConverged(o: Options, visited: map<nat, nat>, path: seq<Node>, i: nat): nat
    decreases |path| - i
  {
    if i >= |path| then 0
    else (if Converged(o, visited, path[i], i) then 1 else 0) + CountConverged(o, visited, path, i + 1)
  }

  function PruneOn(o: Options): bool { o.prune && !o.naive }

  /** The path after a run: rebuilt, footprinted, slept, grown and prune-marked. */
  function Prepared(o: Options, st: State, t: Trace): seq<Node>
    requires Offers(t.decisions)
  {
    var stamped := Stamped(Rebuilt(o, st.path, t.decisions), t.ops);
    var slept := if o.naive then stamped else Inherit(stamped, st.forced);
    var grown := if o.naive then slept else Grow(slept, t.ops, |t.ops|);
    if PruneOn(o) then Marked(o, st.visited, grown, st.forced) else grown
  }

  /** Counts one more schedule with the observation `entry` carries. */
  function Tally(outcomes: seq<Outcome>, entry: Outcome): (r: seq<Outcome>)
  {
    if outcomes == [] then [entry.(count := 1)]
    else if outcomes[0].digest == entry.digest
    then [outcomes[0].(count := outcomes[0].count + 1)] + outcomes[1..]
    else [outcomes[0]] + Tally(outcomes[1..], entry)
  }

  /** The report once the depth of a run has been noted. */
  function Deepened(o: Options, st: State, t: Trace): Report {
    var r := st.report;
    var capNote := |t.decisions| > o.maxSteps && !st.depthCapped;
    r.(maxDepth := if r.maxDepth < |t.decisions| then |t.decisions| else r.maxDepth,
       frontierOpen := r.frontierOpen || capNote,
       notes := if capNote then r.notes + [DepthCap(|t.decisions|)] else r.notes)
  }

  function Entry(t: Trace): Outcome {
    Outcome(t.digest, Chosen(t.decisions), DecisionPreemptions(t.decisions), t.deadlocked, 0)
  }

  /** The state once a run has been recorded as one more schedule. */
  function Judged(o: Options, st: State, t: Trace): State
    requires Offers(t.decisions)
  {
    var path := Prepared(o, st, t);
    var r := Deepened(o, st, t);
    var converged := if PruneOn(o) then CountConverged(o, st.visited, path, st.forced) else 0;
    st.(path := path,
        depthCapped := st.depthCapped || |t.decisions| > o.maxSteps,
        executed := st.executed + [Chosen(t.decisions)],
        report := r.(schedules := r.schedules + 1,
                     pruned := r.pruned + converged,
                     deadlocks := r.deadlocks + if t.deadlocked then 1 else 0,
                     races := r.races + if t.race then 1 else 0,
                     outcomes := Tally(r.outcomes, Entry(t))))
  }

  // -- backtracking ------------------------------------------------------------------

  ghost predicate IsLeast(s: set<nat>, x: nat) {
    x in s && forall y :: y in s ==> x <= y
  }

  ghost function Least(s: set<nat>): (x: nat)
    requires s != {}
    ensures IsLeast(s, x)
  {
    assert exists x :: IsLeast(s, x) by {
      var least := LeastOf(s);
    }
    var x :| IsLeast(s, x);
    x
  }

  lemma {:induction false} LeastOf(s: set<nat>) returns (least: nat)
    requires s != {}
    ensures IsLeast(s, least)
  {
    var a :| a in s;
    var rest := s - {a};
    least := a;
    if rest != {} {
      var x := LeastOf(rest);
      least := if a < x then a else x;
    }
    forall y | y in s
      ensures least <= y
    {
      assert y == a || y in rest;
    }
  }

  predicate Asleep(n: Node, task: nat) {
    exists i :: 0 <= i < |n.sleep| && n.sleep[i].task == task
  }

  predicate OverBound(o: Options, n: Node, before: nat, candidate: nat) {
    o.maxPreemptions.Some? && n.kind.Task?
    && before + (if OffFront(n, candidate) then 1 else 0) > o.maxPreemptions.value
  }

  /** What weighing a node's waiting alternatives found: the sleepers marked done on
    the way, whether the bound skipped one, and the one to take. */
  datatype Weighed = Weighed(slept: set<nat>, skipped: bool, pick: Option<nat>)

  /** Walks `waiting` in ascending order up to the first alternative to take. */
  ghost function Weigh(o: Options, n: Node, before: nat, waiting: set<nat>): (w: Weighed)
    ensures w.pick.Some? ==> w.pick.value in waiting && w.pick.value !in w.slept
    ensures w.slept <= waiting
    decreases |waiting|
  {
    if waiting == {} then Weighed({}, false, None)
    else
      var c := Least(waiting);
      if n.kind.Task? && !o.naive && Asleep(n, c) then
        var w := Weigh(o, n, before, waiting - {c});
        w.(slept := w.slept + {c})
      else if OverBound(o, n, before, c) then
        Weigh(o, n, before, waiting - {c}).(skipped := true)
      else Weighed({}, false, Some(c))
  }

  function FirstPruned(path: seq<Node>): (i: nat)
    ensures i <= |path|
    ensures forall j :: 0 <= j < i ==> !path[j].pruned
    ensures i < |path| ==> path[i].pruned
  {
    if path == [] || path[0].pruned then 0 else 1 + FirstPruned(path[1..])
  }

  /** The node once `pick` is taken from it. */
  function Advanced(o: Options, n: Node, pick: nat): Node {
    n.(sleep := if n.kind.Task? && !o.naive then n.sleep + [Sleeper(n.current, n.footprint)] else n.sleep,
       done := n.done + {pick},
       current := pick)
  }

  /** What the search sees waiting at level `k`. */
  ghost function Look(o: Options, st: State, k: nat): Weighed
    requires k < |st.path|
  {
    var n := st.path[k];
    Weigh(o, n, PathPreemptions(st.path[..k]), n.backtrack - n.done)
  }

  /** Level `k`'s node with its sleepers marked done. */
  ghost function Settled(o: Options, st: State, k: nat): Node
    requires k < |st.path|
  {
    st.path[k].(done := st.path[k].done + Look(o, st, k).slept)
  }

  ghost function Looked(o: Options, st: State, k: nat): Report
    requires k < |st.path|
  {
    var r := st.report;
    var w := Look(o, st, k);
    r.(slept := r.slept + |w.slept|,
       notes := if w.skipped && !r.frontierOpen
                then r.notes + [PreemptionBound(o.maxPreemptions.GetOr(0))] else r.notes,
       frontierOpen := r.frontierOpen || w.skipped)
  }

  function Dropped(st: State, k: nat): (r: State)
    requires k < |st.path|
    ensures r.path == st.path && r.running == st.running && r.report == st.report
  {
    st.(retired := st.retired + [Retired(Choices(st.path)[..k], st.path[k])])
  }

  /** Level `k` offers an alternative: it becomes the node's current choice. */
  ghost function Taken(o: Options, st: State, k: nat): State
    requires k < |st.path| && Look(o, st, k).pick.Some?
  {
    st.(path := st.path[..k] + [Advanced(o, Settled(o, st, k), Look(o, st, k).pick.value)],
        forced := k + 1,
        report := Looked(o, st, k))
  }

  /** Level `k` offers nothing more. */
  ghost function Passed(o: Options, st: State, k: nat): (r: State)
    requires k < |st.path|
    ensures |r.path| == |st.path| && r.running == st.running && r.executed == st.executed
    ensures r.report.executions == st.report.executions
  {
    var n := Settled(o, st, k);
    var explored := PruneOn(o) && n.kind.Task? && !Look(o, st, k).skipped && n.backtrack <= n.done;
    st.(path := st.path[k := n],
        report := Looked(o, st, k),
        retired := st.retired + [Retired(Choices(st.path)[..k], n)],
        visited := if explored then Explored(o, st.visited, n.state, k) else st.visited)
  }

  /** Visits levels `d - 1` down to 0 for the deepest alternative still to take. */
  ghost function Scan(o: Options, st: State, firstPruned: nat, d: nat): State
    requires d <= |st.path|
    decreases d
  {
    if d == 0 then st.(running := false)
    else if d - 1 >= firstPruned then Scan(o, Dropped(st, d - 1), firstPruned, d - 1)
    else if Look(o, st, d - 1).pick.Some? then Taken(o, st, d - 1)
    else Scan(o, Passed(o, st, d - 1), firstPruned, d - 1)
  }

  function Explored(o: Options, visited: map<nat, nat>, state: nat, k: nat): map<nat, nat> {
    var remaining := if o.maxSteps < k then 0 else o.maxSteps - k;
    visited[state := if state in visited && visited[state] > remaining then visited[state] else remaining]
  }

  // -- the loop --------------------------------------------------------------------------

  function Stopped(st: State, note: Note): State {
    st.(running := false, report := st.report.(frontierOpen := true, notes := st.report.notes + [note]))
  }

  function Counted(st: State): State {
    st.(report := st.report.(executions := st.report.executions + 1))
  }

  /** The replay a turn makes. */
  function Replay(m: Machine, st: State): (t: Trace)
    ensures Offers(t.decisions)
  {
    Run(m, PlanOf(st.path))
  }

  /** The state once that replay has been prepared and judged. */
  function Ran(m: Machine, o: Options, st: State): State {
    Judged(o, Counted(st), Replay(m, st))
  }

  predicate Exhausted(o: Options, st: State) {
    st.report.executions >= o.maxSchedules || o.wallExpired(st.report.executions)
  }

  /** One turn of the loop. */
  ghost function Turn(m: Machine, o: Options, st: State): State
  {
    if Exhausted(o, st) then
      var n := st.report.executions;
      Stopped(st, if n >= o.maxSchedules then ScheduleBudget(n) else WallBudget(n))
    else
      var t := Replay(m, st);
      if t.divergence.Some? then
        Counted(st).(running := false, report := Counted(st).report.(divergence := t.divergence))
      else
        var ran := Ran(m, o, st);
        Scan(o, ran, FirstPruned(ran.path), Min(|ran.path|, o.maxSteps))
  }

  ghost function Search(m: Machine, o: Options, st: State): State
    decreases if st.running then 1 + (if st.report.executions < o.maxSchedules
                                      then o.maxSchedules - st.report.executions else 0) else 0
  {
    if !st.running then st
    else
      TurnCounts(m, o, st);
      Search(m, o, Turn(m, o, st))
  }

  ghost function Explore(m: Machine, o: Options): State {
    Search(m, o, START)
  }

  lemma {:induction false} ScanCounts(o: Options, st: State, firstPruned: nat, d: nat)
    requires d <= |st.path|
    ensures Scan(o, st, firstPruned, d).report.executions == st.report.executions
    decreases d
  {
    hide Dropped, Passed, Look;
    if d > 0 {
      if d - 1 >= firstPruned {
        ScanCounts(o, Dropped(st, d - 1), firstPruned, d - 1);
      } else if Look(o, st, d - 1).pick.None? {
        ScanCounts(o, Passed(o, st, d - 1), firstPruned, d - 1);
      }
    }
  }

  lemma TurnCounts(m: Machine, o: Options, st: State)
    ensures var next := Turn(m, o, st);
            next.running ==> st.report.executions < o.maxSchedules
                             && next.report.executions == st.report.executions + 1
  {
    hide Judged, Scan, Replay;
    var t := Replay(m, st);
    if !Exhausted(o, st) && t.divergence.None? {
      JudgedCounts(o, Counted(st), t);
      var ran := Ran(m, o, st);
      ScanCounts(o, ran, FirstPruned(ran.path), Min(|ran.path|, o.maxSteps));
    }
  }

  lemma JudgedCounts(o: Options, st: State, t: Trace)
    requires Offers(t.decisions)
    ensures Judged(o, st, t).report.executions == st.report.executions
  {
  }
}
