/** What goes wrong when arms do not agree: a machine on which the DPOR search closes its
  frontier and reports a stable outcome although a schedule it never ran ends differently.

  Three tasks write one object.  Task 1, run first, meets a `select` whose second arm
  writes.  The sleep set below that arm was computed while the first, silent, arm was
  being explored, and is not computed again. */
module ExploreArms {
  import opened Wrappers
  import opened Scheduler
  import opened ExploreModel
  import opened ExploreOnce
  import opened ExploreFootprints
  import opened ExploreSleep

  const OBJECT := 7

  function Clock(task: nat): seq<nat> {
    if task == 0 then [1] else if task == 1 then [0, 1] else [0, 0, 1]
  }

  function Write(task: nat): Op { Op(task, OBJECT, true, Clock(task)) }

  function TaskOver(candidates: seq<nat>): Event { Decide(Kind.Task, candidates, 0) }

  function SelectEvent(c: seq<nat>): Event {
    if |c| == 0 then TaskOver([0, 1])
    else if |c| == 1 then if c[0] == 0 then TaskOver([1]) else Decide(Arm, [0, 1], 0)
    else if |c| == 2 then
      if c[0] == 0 then TaskOver([2]) else if c[1] == 0 then TaskOver([0]) else TaskOver([2, 0])
    else if |c| == 3 then
      if c[0] == 0 then Halt(0, false, false)
      else if c[1] == 0 then TaskOver([2]) else if c[2] == 0 then TaskOver([0]) else TaskOver([2])
    else Halt(if c[0] == 1 && c[1] == 1 && c[2] == 1 then 1 else 0, false, false)
  }

  function SelectOps(c: seq<nat>): seq<Op> {
    if |c| == 1 then if c[0] == 0 then [Write(0)] else []
    else if |c| == 2 then if c[0] == 0 || c[1] == 1 then [Write(1)] else []
    else if |c| == 3 then
      if c[0] == 0 then [Write(2)] else if c[1] == 0 || c[2] == 1 then [Write(0)] else [Write(2)]
    else if |c| == 4 then if c[1] == 0 || c[2] == 1 then [Write(2)] else [Write(0)]
    else []
  }

  function SelectMachine(): (m: Machine) {
    RawMachine(4, (c: seq<nat>) => SelectEvent(c), (c: seq<nat>) => SelectOps(c))
  }

  const DPOR := Options(100, 100, None, (n: nat) => false, false, false)

  // -- the three runs ------------------------------------------------------------------------

  function At(task: nat, slice: nat): OpRecord {
    OpRecord(task, Some(slice), OBJECT, true, Clock(task))
  }

  function TaskAt(candidates: seq<nat>, chosen: nat): Decision { Decision(Kind.Task, candidates, chosen, 0) }

  function FirstTrace(): Trace {
    Trace([TaskAt([0, 1], 0), TaskAt([1], 0), TaskAt([2], 0)], [At(0, 0), At(1, 1), At(2, 2)],
          None, 0, false, false)
  }

  function SecondTrace(): Trace {
    Trace([TaskAt([0, 1], 1), Decision(Arm, [0, 1], 0, 0), TaskAt([0], 0), TaskAt([2], 0)],
          [At(0, 2), At(2, 3)], None, 0, false, false)
  }

  function ThirdTrace(): Trace {
    Trace([TaskAt([0, 1], 1), Decision(Arm, [0, 1], 1, 0), TaskAt([2, 0], 0), TaskAt([0], 0)],
          [At(1, 0), At(2, 2), At(0, 3)], None, 0, false, false)
  }

  /** A run takes the decisions `ds` and leaves the log `ops`. */
  function Cleanly(ds: seq<Decision>, ops: seq<OpRecord>): Trace {
    Trace(ds, ops, None, 0, false, false)
  }

  /** One decision of a run on this machine, in front of what the rest of the run is. */
  lemma Step(plan: Plan, past: seq<nat>, slice: Option<nat>, d: Decision, here: seq<OpRecord>, next: seq<nat>,
             rest: Trace, t: Trace)
    requires SelectEvent(past) == Decide(d.kind, d.candidates, d.state)
    requires Stamp(SelectOps(past), slice) == here
    requires d.chosen < |d.candidates| && next == past + [d.chosen]
    requires d.chosen == if |past| < |plan.choices| then plan.choices[|past|] else 0
    requires |past| < |plan.expected| ==> plan.expected[|past|] == (d.kind, d.candidates)
    requires Play(SelectMachine(), plan, next, if d.kind.Task? then Some(|past|) else slice) == rest
    requires t == Trace([d] + rest.decisions, here + rest.ops, rest.divergence, rest.digest, rest.deadlocked, rest.race)
    ensures Play(SelectMachine(), plan, past, slice) == t
  {
    PlayStep(SelectMachine(), plan, past, slice, d.chosen);
    assert next[..|past|] == past;
  }

  lemma Last(plan: Plan, past: seq<nat>, slice: Option<nat>, here: seq<OpRecord>)
    requires SelectEvent(past) == Halt(0, false, false) && Stamp(SelectOps(past), slice) == here
    ensures Play(SelectMachine(), plan, past, slice) == Cleanly([], here)
  {
  }

  lemma Stamps(task: nat, slice: nat)
    ensures Stamp([Write(task)], Some(slice)) == [At(task, slice)]
    ensures forall s :: Stamp([], s) == []
  {
  }

  lemma FirstRun()
    ensures Run(SelectMachine(), Plan([], [])) == FirstTrace()
  {
    hide Play, Stamp, SelectEvent, SelectOps, Write, At;
    var plan := Plan([], []);
    Stamps(0, 0);
    Stamps(1, 1);
    Stamps(2, 2);
    FirstTree();
    var t3 := Cleanly([], [At(2, 2)]);
    var t2 := Cleanly([TaskAt([2], 0)], [At(1, 1), At(2, 2)]);
    var t1 := Cleanly([TaskAt([1], 0), TaskAt([2], 0)], FirstTrace().ops);
    Last(plan, [0, 0, 0], Some(2), [At(2, 2)]);
    Step(plan, [0, 0], Some(1), TaskAt([2], 0), [At(1, 1)], [0, 0, 0], t3, t2);
    Step(plan, [0], Some(0), TaskAt([1], 0), [At(0, 0)], [0, 0], t2, t1);
    Step(plan, [], None, TaskAt([0, 1], 0), [], [0], t1, FirstTrace());
  }

  lemma FirstTree()
    ensures SelectEvent([]) == TaskOver([0, 1]) && SelectOps([]) == []
    ensures SelectEvent([0]) == TaskOver([1]) && SelectOps([0]) == [Write(0)]
    ensures SelectEvent([0, 0]) == TaskOver([2]) && SelectOps([0, 0]) == [Write(1)]
    ensures SelectEvent([0, 0, 0]) == Halt(0, false, false) && SelectOps([0, 0, 0]) == [Write(2)]
  {
  }

  lemma SecondRun()
    ensures Run(SelectMachine(), Plan([1], [(Kind.Task, [0, 1])])) == SecondTrace()
  {
    hide Play, Stamp, SelectEvent, SelectOps, Write, At;
    var plan := Plan([1], [(Kind.Task, [0, 1])]);
    Stamps(0, 2);
    Stamps(2, 3);
    SecondTree();
    var ops := SecondTrace().ops;
    var t4 := Cleanly([], [At(2, 3)]);
    var t3 := Cleanly([TaskAt([2], 0)], ops);
    var t2 := Cleanly([TaskAt([0], 0), TaskAt([2], 0)], ops);
    var t1 := Cleanly([Decision(Arm, [0, 1], 0, 0), TaskAt([0], 0), TaskAt([2], 0)], ops);
    Last(plan, [1, 0, 0, 0], Some(3), [At(2, 3)]);
    Step(plan, [1, 0, 0], Some(2), TaskAt([2], 0), [At(0, 2)], [1, 0, 0, 0], t4, t3);
    Step(plan, [1, 0], Some(0), TaskAt([0], 0), [], [1, 0, 0], t3, t2);
    Step(plan, [1], Some(0), Decision(Arm, [0, 1], 0, 0), [], [1, 0], t2, t1);
    Step(plan, [], None, TaskAt([0, 1], 1), [], [1], t1, SecondTrace());
  }

  lemma SecondTree()
    ensures SelectEvent([]) == TaskOver([0, 1]) && SelectOps([]) == []
    ensures SelectEvent([1]) == Decide(Arm, [0, 1], 0) && SelectOps([1]) == []
    ensures SelectEvent([1, 0]) == TaskOver([0]) && SelectOps([1, 0]) == []
    ensures SelectEvent([1, 0, 0]) == TaskOver([2]) && SelectOps([1, 0, 0]) == [Write(0)]
    ensures SelectEvent([1, 0, 0, 0]) == Halt(0, false, false) && SelectOps([1, 0, 0, 0]) == [Write(2)]
  {
  }

  lemma ThirdRun()
    ensures Run(SelectMachine(), Plan([1, 1], [(Kind.Task, [0, 1]), (Arm, [0, 1])])) == ThirdTrace()
  {
    hide Play, Stamp, SelectEvent, SelectOps, Write, At;
    var plan := Plan([1, 1], [(Kind.Task, [0, 1]), (Arm, [0, 1])]);
    Stamps(1, 0);
    Stamps(2, 2);
    Stamps(0, 3);
    ThirdTree();
    var ops := ThirdTrace().ops;
    var t4 := Cleanly([], [At(0, 3)]);
    var t3 := Cleanly([TaskAt([0], 0)], [At(2, 2), At(0, 3)]);
    var t2 := Cleanly([TaskAt([2, 0], 0), TaskAt([0], 0)], ops);
    var t1 := Cleanly([Decision(Arm, [0, 1], 1, 0), TaskAt([2, 0], 0), TaskAt([0], 0)], ops);
    Last(plan, [1, 1, 0, 0], Some(3), [At(0, 3)]);
    Step(plan, [1, 1, 0], Some(2), TaskAt([0], 0), [At(2, 2)], [1, 1, 0, 0], t4, t3);
    Step(plan, [1, 1], Some(0), TaskAt([2, 0], 0), [At(1, 0)], [1, 1, 0], t3, t2);
    Step(plan, [1], Some(0), Decision(Arm, [0, 1], 1, 0), [], [1, 1], t2, t1);
    Step(plan, [], None, TaskAt([0, 1], 1), [], [1], t1, ThirdTrace());
  }

  lemma ThirdTree()
    ensures SelectEvent([]) == TaskOver([0, 1]) && SelectOps([]) == []
    ensures SelectEvent([1]) == Decide(Arm, [0, 1], 0) && SelectOps([1]) == []
    ensures SelectEvent([1, 1]) == TaskOver([2, 0]) && SelectOps([1, 1]) == [Write(1)]
    ensures SelectEvent([1, 1, 0]) == TaskOver([0]) && SelectOps([1, 1, 0]) == [Write(2)]
    ensures SelectEvent([1, 1, 0, 0]) == Halt(0, false, false) && SelectOps([1, 1, 0, 0]) == [Write(0)]
  {
  }

  // -- the paths they prepare ------------------------------------------------------------------

  const TOUCH: Footprint := [(OBJECT, true)]
  const SLEEPER := Sleeper(0, TOUCH)

  function Path1(): seq<Node> {
    [Node(Kind.Task, [0, 1], 0, 0, TOUCH, {0}, {0, 1}, [], false),
     Node(Kind.Task, [1], 0, 1, TOUCH, {1}, {1}, [], false),
     Node(Kind.Task, [2], 0, 2, TOUCH, {2}, {2}, [], false)]
  }

  /** The root once it has moved on from task 0 to task 1. */
  function Root(fp: Footprint): Node {
    Node(Kind.Task, [0, 1], 0, 1, fp, {0, 1}, {0, 1}, [SLEEPER], false)
  }

  function Path2(): seq<Node> {
    [Root([]),
     Node(Arm, [0, 1], 0, 0, [], {0}, {0, 1}, [SLEEPER], false),
     Node(Kind.Task, [0], 0, 0, TOUCH, {0}, {0}, [SLEEPER], false),
     Node(Kind.Task, [2], 0, 2, TOUCH, {2}, {2}, [], false)]
  }

  /** The second arm is taken; the sleep set of its node still lists task 0. */
  function Path3(): seq<Node> {
    [Root(TOUCH),
     Node(Arm, [0, 1], 0, 1, [], {0, 1}, {0, 1}, [SLEEPER], false),
     Node(Kind.Task, [2, 0], 0, 2, TOUCH, {2}, {0, 2}, [SLEEPER], false),
     Node(Kind.Task, [0], 0, 0, TOUCH, {0}, {0}, [], false)]
  }

  /** Footprints of a log of three writes by slices `a`, `b` and `c`. */
  lemma ThreeFootprints(x: OpRecord, y: OpRecord, z: OpRecord, i: nat)
    ensures FootprintOf([x, y, z], i)
            == (if x.slice == Some(i) then [(x.obj, x.write)] else [])
             + (if y.slice == Some(i) then [(y.obj, y.write)] else [])
             + (if z.slice == Some(i) then [(z.obj, z.write)] else [])
    ensures FootprintOf([x, y], i)
            == (if x.slice == Some(i) then [(x.obj, x.write)] else [])
             + (if y.slice == Some(i) then [(y.obj, y.write)] else [])
  {
    FootprintStep([], x, i);
    assert [] + [x] == [x];
    FootprintStep([x], y, i);
    assert [x] + [y] == [x, y];
    FootprintStep([x, y], z, i);
    assert [x, y] + [z] == [x, y, z];
  }

  lemma GrowThree(path: seq<Node>, ops: seq<OpRecord>)
    requires |ops| == 3
    ensures Grow(path, ops, 3)
            == GrowPair(GrowPair(GrowPair(path, ops[0], ops[1]), ops[1], ops[2]), ops[0], ops[2])
  {
    assert Grow(path, ops, 1) == path;
    assert Grow(path, ops, 2) == GrowPair(path, ops[0], ops[1]);
  }

  lemma GrowTwo(path: seq<Node>, ops: seq<OpRecord>)
    requires |ops| == 2
    ensures Grow(path, ops, 2) == GrowPair(path, ops[0], ops[1])
  {
    assert Grow(path, ops, 1) == path;
  }

  /** The write of task `a` in slice `s` and the later one of task `b` race on this machine. */
  lemma PairGrows(path: seq<Node>, a: nat, s: nat, b: nat, z: nat, next: seq<Node>)
    requires a < 3 && b < 3 && a != b && s < |path| == |next|
    requires forall k :: 0 <= k < |path| && k != s ==> next[k] == path[k]
    requires next[s] == path[s].(backtrack := next[s].backtrack)
    requires next[s].backtrack == path[s].backtrack + if b in path[s].candidates then {b} else Elements(path[s].candidates)
    ensures GrowPair(path, At(a, s), At(b, z)) == next
  {
    assert Races(At(a, s), At(b, z));
    assert next == path[s := next[s]];
  }

  lemma StampedStep(path: seq<Node>, ops: seq<OpRecord>, next: seq<Node>)
    requires |next| == |path|
    requires forall i :: 0 <= i < |path| ==> next[i] == path[i].(footprint := FootprintOf(ops, i))
    ensures Stamped(path, ops) == next
  {
  }

  lemma RebuiltStep(path: seq<Node>, ds: seq<Decision>, next: seq<Node>)
    requires Offers(ds) && |path| < |ds| <= DPOR.maxSteps
    requires |next| == |path| + 1 && next[..|path|] == path && next[|path|] == Fresh(ds[|path|], false)
    ensures Rebuilt(DPOR, path, ds) == Rebuilt(DPOR, next, ds)
  {
    assert next == path + [Fresh(ds[|path|], false)];
  }

  lemma RebuiltAll(path: seq<Node>, ds: seq<Decision>)
    requires Offers(ds) && |path| == |ds|
    ensures Rebuilt(DPOR, path, ds) == path
  {
  }

  lemma InheritStep(path: seq<Node>, i: nat, next: seq<Node>)
    requires 0 < i < |path| == |next|
    requires next[..i] == path[..i] && next[i + 1..] == path[i + 1..]
    requires next[i] == path[i].(sleep := StillAsleep(path[i - 1].sleep, path[i - 1].footprint))
    ensures Inherit(path, i) == Inherit(next, i + 1)
  {
    assert next == path[i := next[i]];
  }

  /** The one sleeper stays asleep past an idle slice, and a writing one wakes it. */
  lemma OneSleeper()
    ensures StillAsleep([SLEEPER], []) == [SLEEPER]
    ensures StillAsleep([SLEEPER], TOUCH) == []
    ensures StillAsleep([], TOUCH) == [] && StillAsleep([], []) == []
  {
    assert [SLEEPER][..0] == [];
    assert FootprintsConflict(SLEEPER.footprint, TOUCH) by {
      assert TOUCH[0].0 == TOUCH[0].0 && TOUCH[0].1;
    }
  }

  function Fresh1(fp: Footprint, backtrack: set<nat>): seq<Node> {
    [Node(Kind.Task, [0, 1], 0, 0, fp, {0}, backtrack, [], false),
     Node(Kind.Task, [1], 0, 1, fp, {1}, {1}, [], false),
     Node(Kind.Task, [2], 0, 2, fp, {2}, {2}, [], false)]
  }

  lemma FirstRebuilt()
    ensures Offers(FirstTrace().decisions) && Rebuilt(DPOR, [], FirstTrace().decisions) == Fresh1([], {0})
  {
    hide Rebuilt;
    var ds := FirstTrace().decisions;
    RebuiltStep([], ds, Fresh1([], {0})[..1]);
    RebuiltStep(Fresh1([], {0})[..1], ds, Fresh1([], {0})[..2]);
    RebuiltStep(Fresh1([], {0})[..2], ds, Fresh1([], {0}));
    RebuiltAll(Fresh1([], {0}), ds);
  }

  lemma FirstPath(st: State)
    requires st.path == [] && st.forced == 0
    ensures Offers(FirstTrace().decisions) && Prepared(DPOR, st, FirstTrace()) == Path1()
  {
    hide Rebuilt, FootprintOf, Grow, GrowPair, StillAsleep, Inherit, Stamped;
    var t := FirstTrace();
    FirstRebuilt();
    forall i: nat { ThreeFootprints(At(0, 0), At(1, 1), At(2, 2), i); }
    var stamped := Fresh1(TOUCH, {0});
    StampedStep(Fresh1([], {0}), t.ops, stamped);
    OneSleeper();
    FirstInherits();
    GrowThree(stamped, t.ops);
    PairGrows(stamped, 0, 0, 1, 1, Path1());
    PairGrows(Path1(), 1, 1, 2, 2, Path1());
    PairGrows(Path1(), 0, 0, 2, 2, Path1());
  }

  lemma FirstInherits()
    ensures Inherit(Fresh1(TOUCH, {0}), 0) == Fresh1(TOUCH, {0})
  {
    hide StillAsleep;
    OneSleeper();
    var p := Fresh1(TOUCH, {0});
    assert Inherit(p, 0) == Inherit(p, 1);
    InheritStep(p, 1, p);
    InheritStep(p, 2, p);
    assert Inherit(p, 3) == p;
  }

  // -- second run ---------------------------------------------------------------------------

  /** The root, the select and the two tasks below its first arm, before sleep is inherited. */
  function Fresh2(fp: Footprint, arm: seq<Sleeper>, task: seq<Sleeper>): seq<Node> {
    [Root([]),
     Node(Arm, [0, 1], 0, 0, [], {0}, {0, 1}, arm, false),
     Node(Kind.Task, [0], 0, 0, fp, {0}, {0}, task, false),
     Node(Kind.Task, [2], 0, 2, fp, {2}, {2}, [], false)]
  }

  lemma SecondRebuilt(fp: Footprint)
    ensures Offers(SecondTrace().decisions)
    ensures var r := Rebuilt(DPOR, [Root(fp)], SecondTrace().decisions);
            |r| == 4 && r[0] == Root(fp) && r[1..] == Fresh2([], [], [])[1..]
  {
    hide Rebuilt;
    var ds := SecondTrace().decisions;
    var r := [Root(fp)] + Fresh2([], [], [])[1..];
    RebuiltStep([Root(fp)], ds, r[..2]);
    RebuiltStep(r[..2], ds, r[..3]);
    RebuiltStep(r[..3], ds, r);
    RebuiltAll(r, ds);
  }

  lemma SecondInherits()
    ensures Inherit(Fresh2(TOUCH, [], []), 1) == Fresh2(TOUCH, [SLEEPER], [SLEEPER])
  {
    hide StillAsleep;
    OneSleeper();
    InheritStep(Fresh2(TOUCH, [], []), 1, Fresh2(TOUCH, [SLEEPER], []));
    InheritStep(Fresh2(TOUCH, [SLEEPER], []), 2, Fresh2(TOUCH, [SLEEPER], [SLEEPER]));
    InheritStep(Fresh2(TOUCH, [SLEEPER], [SLEEPER]), 3, Fresh2(TOUCH, [SLEEPER], [SLEEPER]));
    assert Inherit(Fresh2(TOUCH, [SLEEPER], [SLEEPER]), 4) == Fresh2(TOUCH, [SLEEPER], [SLEEPER]);
  }

  lemma SecondPath(st: State, fp: Footprint)
    requires st.path == [Root(fp)] && st.forced == 1
    ensures Offers(SecondTrace().decisions) && Prepared(DPOR, st, SecondTrace()) == Path2()
  {
    hide Rebuilt, FootprintOf, Grow, GrowPair, StillAsleep, Inherit, Stamped;
    var t := SecondTrace();
    SecondRebuilt(fp);
    var r := Rebuilt(DPOR, [Root(fp)], t.decisions);
    forall i: nat { ThreeFootprints(At(0, 2), At(2, 3), At(2, 3), i); }
    assert r[1] == r[1..][0] && r[2] == r[1..][1] && r[3] == r[1..][2];
    StampedStep(r, t.ops, Fresh2(TOUCH, [], []));
    SecondInherits();
    GrowTwo(Path2(), t.ops);
    PairGrows(Path2(), 0, 2, 2, 3, Path2());
  }

  // -- third run ----------------------------------------------------------------------------

  function Fresh3(root: Footprint, fp: Footprint, task: seq<Sleeper>, backtrack: set<nat>): seq<Node> {
    [Root(root),
     Node(Arm, [0, 1], 0, 1, [], {0, 1}, {0, 1}, [SLEEPER], false),
     Node(Kind.Task, [2, 0], 0, 2, fp, {2}, backtrack, task, false),
     Node(Kind.Task, [0], 0, 0, fp, {0}, {0}, [], false)]
  }

  lemma ThirdRebuilt()
    ensures Offers(ThirdTrace().decisions)
    ensures Rebuilt(DPOR, Fresh3([], [], [], {2})[..2], ThirdTrace().decisions) == Fresh3([], [], [], {2})
  {
    hide Rebuilt;
    var ds := ThirdTrace().decisions;
    var r := Fresh3([], [], [], {2});
    RebuiltStep(r[..2], ds, r[..3]);
    RebuiltStep(r[..3], ds, r);
    RebuiltAll(r, ds);
  }

  lemma ThirdInherits()
    ensures Inherit(Fresh3(TOUCH, TOUCH, [], {2}), 2) == Fresh3(TOUCH, TOUCH, [SLEEPER], {2})
  {
    hide StillAsleep;
    OneSleeper();
    InheritStep(Fresh3(TOUCH, TOUCH, [], {2}), 2, Fresh3(TOUCH, TOUCH, [SLEEPER], {2}));
    InheritStep(Fresh3(TOUCH, TOUCH, [SLEEPER], {2}), 3, Fresh3(TOUCH, TOUCH, [SLEEPER], {2}));
    assert Inherit(Fresh3(TOUCH, TOUCH, [SLEEPER], {2}), 4) == Fresh3(TOUCH, TOUCH, [SLEEPER], {2});
  }

  lemma ThirdPath(st: State)
    requires st.path == Fresh3([], [], [], {2})[..2] && st.forced == 2
    ensures Offers(ThirdTrace().decisions) && Prepared(DPOR, st, ThirdTrace()) == Path3()
  {
    hide Rebuilt, FootprintOf, Grow, GrowPair, StillAsleep, Inherit, Stamped;
    var t := ThirdTrace();
    ThirdRebuilt();
    forall i: nat { ThreeFootprints(At(1, 0), At(2, 2), At(0, 3), i); }
    StampedStep(Fresh3([], [], [], {2}), t.ops, Fresh3(TOUCH, TOUCH, [], {2}));
    ThirdInherits();
    var p := Fresh3(TOUCH, TOUCH, [SLEEPER], {2});
    GrowThree(p, t.ops);
    PairGrows(p, 1, 0, 2, 2, p);
    PairGrows(p, 2, 2, 0, 3, Path3());
    PairGrows(Path3(), 1, 0, 0, 3, Path3());
  }

  // -- the search, turn by turn -----------------------------------------------------------------

  /** What the argument follows of a state: where the search stands and what it has run. */
  ghost predicate Stands(st: State, path: seq<Node>, executed: seq<seq<nat>>) {
    && st.path == path && st.executed == executed
    && st.report.executions == |executed| && !st.report.frontierOpen && st.report.divergence.None?
    && |st.report.outcomes| <= 1
    && forall x :: x in st.report.outcomes ==> x.digest == 0
  }

  lemma JudgedStands(st: State, t: Trace, path: seq<Node>, executed: seq<seq<nat>>)
    requires Stands(st, st.path, executed) && Offers(t.decisions) && |t.decisions| <= 4 && t.digest == 0
    requires Prepared(DPOR, Counted(st), t) == path
    ensures var ran := Judged(DPOR, Counted(st), t);
            && Stands(ran, path, executed + [Chosen(t.decisions)]) && ran.running == st.running
  {
    hide Prepared, CountConverged;
  }

  lemma LookNothing(st: State, k: nat)
    requires k < |st.path| && st.path[k].backtrack <= st.path[k].done
    ensures Look(DPOR, st, k) == Weighed({}, false, None)
  {
    assert st.path[k].backtrack - st.path[k].done == {};
  }

  lemma LookOne(st: State, k: nat, x: nat)
    requires k < |st.path| && st.path[k].backtrack - st.path[k].done == {x}
    ensures Look(DPOR, st, k) == if st.path[k].kind.Task? && Asleep(st.path[k], x)
                                 then Weighed({x}, false, None) else Weighed({}, false, Some(x))
  {
    var n := st.path[k];
    assert Least({x}) == x;
    assert {x} - {x} == {};
    assert Weigh(DPOR, n, PathPreemptions(st.path[..k]), {}) == Weighed({}, false, None);
  }

  /** A level with nothing to take is passed: at most its done set grows. */
  lemma PassStands(st: State, k: nat, n: Node, executed: seq<seq<nat>>) returns (next: State)
    requires Stands(st, st.path, executed) && k < |st.path|
    requires Look(DPOR, st, k).pick.None? && !Look(DPOR, st, k).skipped && n == Settled(DPOR, st, k)
    ensures next == Passed(DPOR, st, k) && Stands(next, st.path[k := n], executed) && next.running == st.running
    ensures Scan(DPOR, st, |st.path|, k + 1) == Scan(DPOR, next, |st.path|, k)
  {
    hide Look, Explored;
    next := Passed(DPOR, st, k);
  }

  lemma TakeStands(st: State, k: nat, pick: nat, executed: seq<seq<nat>>) returns (next: State)
    requires Stands(st, st.path, executed) && k < |st.path|
    requires Look(DPOR, st, k) == Weighed({}, false, Some(pick))
    ensures next == Scan(DPOR, st, |st.path|, k + 1)
    ensures Stands(next, st.path[..k] + [Advanced(DPOR, st.path[k], pick)], executed)
    ensures next.running == st.running && next.forced == k + 1
  {
    hide Look;
    next := Taken(DPOR, st, k);
    assert st.path[k].done + {} == st.path[k].done;
    assert Settled(DPOR, st, k) == st.path[k];
  }

  /** Scans a level that has nothing waiting. */
  lemma PassQuietly(st: State, k: nat, executed: seq<seq<nat>>) returns (next: State)
    requires Stands(st, st.path, executed) && k < |st.path| && st.path[k].backtrack <= st.path[k].done
    ensures Stands(next, st.path, executed) && next.running == st.running
    ensures Scan(DPOR, st, |st.path|, k + 1) == Scan(DPOR, next, |st.path|, k)
  {
    LookNothing(st, k);
    assert st.path[k].done + {} == st.path[k].done;
    assert Settled(DPOR, st, k) == st.path[k];
    next := PassStands(st, k, st.path[k], executed);
    assert st.path[k := st.path[k]] == st.path;
  }

  lemma RunStands(st: State, t: Trace, path: seq<Node>, executed: seq<seq<nat>>) returns (ran: State)
    requires Stands(st, st.path, executed) && |executed| < 100 && st.running
    requires Offers(t.decisions) && |t.decisions| <= 4 && |path| <= 4 && t.digest == 0 && t.divergence.None?
    requires Run(SelectMachine(), PlanOf(st.path)) == t && Prepared(DPOR, Counted(st), t) == path
    requires forall i :: 0 <= i < |path| ==> !path[i].pruned
    ensures Stands(ran, path, executed + [Chosen(t.decisions)]) && ran.running
    ensures ran == Ran(SelectMachine(), DPOR, st)
    ensures Turn(SelectMachine(), DPOR, st) == Scan(DPOR, ran, |path|, |path|)
  {
    hide Prepared, Judged, Run, Scan;
    JudgedStands(st, t, path, executed);
    ran := Ran(SelectMachine(), DPOR, st);
  }

  lemma FirstTurn() returns (st: State)
    ensures st == Turn(SelectMachine(), DPOR, START) && st.running && st.forced == 1
    ensures Stands(st, [Root(TOUCH)], [[0, 0, 0]])
  {
    hide Scan, Prepared, Run, Stands, Judged;
    FirstRun();
    assert PlanOf([]) == Plan([], []);
    StartStands();
    FirstPath(Counted(START));
    var ran := RunStands(START, FirstTrace(), Path1(), []);
    ChosenThen([], FirstTrace().decisions, [0, 0, 0], [[0, 0, 0]]);
    st := FirstScan(ran);
  }

  lemma ChosenThen(executed: seq<seq<nat>>, ds: seq<Decision>, c: seq<nat>, next: seq<seq<nat>>)
    requires |c| == |ds| && forall i :: 0 <= i < |ds| ==> ds[i].chosen == c[i]
    requires |next| == |executed| + 1 && next[..|executed|] == executed && next[|executed|] == c
    ensures executed + [Chosen(ds)] == next
  {
    assert Chosen(ds) == c;
  }

  lemma StartStands()
    ensures Stands(START, [], [])
  {
  }

  lemma FirstScan(ran: State) returns (st: State)
    requires Stands(ran, Path1(), [[0, 0, 0]]) && ran.running
    ensures st == Scan(DPOR, ran, 3, 3) && st.running && st.forced == 1
    ensures Stands(st, [Root(TOUCH)], [[0, 0, 0]])
  {
    hide Scan, Look, Passed, Taken;
    var s2 := PassQuietly(ran, 2, [[0, 0, 0]]);
    var s1 := PassQuietly(s2, 1, [[0, 0, 0]]);
    assert Path1()[0].backtrack - Path1()[0].done == {1};
    LookOne(s1, 0, 1);
    st := TakeStands(s1, 0, 1, [[0, 0, 0]]);
    assert Advanced(DPOR, Path1()[0], 1) == Root(TOUCH);
    assert Path1()[..0] + [Root(TOUCH)] == [Root(TOUCH)];
  }

  const TWO := [[0, 0, 0], [1, 0, 0, 0]]
  const THREE := [[0, 0, 0], [1, 0, 0, 0], [1, 1, 0, 0]]

  lemma SecondTurn(st: State) returns (next: State)
    requires Stands(st, [Root(TOUCH)], [[0, 0, 0]]) && st.running && st.forced == 1
    ensures next == Turn(SelectMachine(), DPOR, st) && next.running && next.forced == 2
    ensures Stands(next, Fresh3([], [], [], {2})[..2], TWO)
  {
    hide Scan, Prepared, Run, Judged, Path2, SecondTrace;
    SecondRun();
    SecondPath(Counted(st), TOUCH);
    SecondFacts();
    var ran := RunStands(st, SecondTrace(), Path2(), [[0, 0, 0]]);
    next := SecondScan(ran);
  }

  lemma SecondFacts()
    ensures PlanOf([Root(TOUCH)]) == Plan([1], [(Kind.Task, [0, 1])])
    ensures [[0, 0, 0]] + [Chosen(SecondTrace().decisions)] == TWO
    ensures |SecondTrace().decisions| == 4 == |Path2()| && SecondTrace().divergence.None? && SecondTrace().digest == 0
    ensures forall i :: 0 <= i < 4 ==> !Path2()[i].pruned
  {
    ChosenThen([[0, 0, 0]], SecondTrace().decisions, [1, 0, 0, 0], TWO);
  }

  lemma SecondScan(ran: State) returns (next: State)
    requires Stands(ran, Path2(), TWO) && ran.running
    ensures next == Scan(DPOR, ran, 4, 4) && next.running && next.forced == 2
    ensures Stands(next, Fresh3([], [], [], {2})[..2], TWO)
  {
    hide Scan, Look, Passed, Taken;
    var s3 := PassQuietly(ran, 3, TWO);
    var s2 := PassQuietly(s3, 2, TWO);
    assert Path2()[1].backtrack - Path2()[1].done == {1};
    LookOne(s2, 1, 1);
    next := TakeStands(s2, 1, 1, TWO);
    assert Advanced(DPOR, Path2()[1], 1) == Fresh3([], [], [], {2})[1];
    assert Path2()[..1] + [Fresh3([], [], [], {2})[1]] == Fresh3([], [], [], {2})[..2];
  }

  lemma ThirdTurn(st: State) returns (next: State)
    requires Stands(st, Fresh3([], [], [], {2})[..2], TWO) && st.running && st.forced == 2
    ensures next == Turn(SelectMachine(), DPOR, st) && !next.running
    ensures next.executed == THREE && !next.report.frontierOpen && next.report.Stable()
    ensures Ran(SelectMachine(), DPOR, st).path == Path3()
  {
    hide Scan, Prepared, Run, Judged, Path3, ThirdTrace;
    ThirdRun();
    ThirdPath(Counted(st));
    ThirdFacts();
    var ran := RunStands(st, ThirdTrace(), Path3(), TWO);
    next := ThirdScan(ran);
  }

  lemma ThirdFacts()
    ensures PlanOf(Fresh3([], [], [], {2})[..2]) == Plan([1, 1], [(Kind.Task, [0, 1]), (Arm, [0, 1])])
    ensures TWO + [Chosen(ThirdTrace().decisions)] == THREE
    ensures |ThirdTrace().decisions| == 4 == |Path3()| && ThirdTrace().divergence.None? && ThirdTrace().digest == 0
    ensures forall i :: 0 <= i < 4 ==> !Path3()[i].pruned
  {
    ChosenThen(TWO, ThirdTrace().decisions, [1, 1, 0, 0], THREE);
  }

  lemma ThirdScan(ran: State) returns (next: State)
    requires Stands(ran, Path3(), THREE) && ran.running
    ensures next == Scan(DPOR, ran, 4, 4) && !next.running
    ensures next.executed == THREE && !next.report.frontierOpen && next.report.Stable()
  {
    hide Look, Passed, Taken;
    var s3 := PassQuietly(ran, 3, THREE);
    assert Path3()[2].backtrack - Path3()[2].done == {0};
    LookOne(s3, 2, 0);
    assert Path3()[2].sleep[0].task == 0;
    var n := Path3()[2].(done := {0, 2});
    assert Path3()[2].done + {0} == {0, 2};
    var s2 := PassStands(s3, 2, n, THREE);
    var s1 := PassQuietly(s2, 1, THREE);
    var s0 := PassQuietly(s1, 0, THREE);
    next := Scan(DPOR, s0, 4, 0);
  }

  lemma SearchTurns(st: State, next: State)
    requires st.running && next == Turn(SelectMachine(), DPOR, st)
    ensures Search(SelectMachine(), DPOR, st) == Search(SelectMachine(), DPOR, next)
  {
    hide Turn;
  }

  lemma ThreeTurns() returns (s2: State, s3: State)
    ensures s2 == After(SelectMachine(), DPOR, 2) && s2.running && !Exhausted(DPOR, s2)
    ensures Ran(SelectMachine(), DPOR, s2).path == Path3()
    ensures s3 == Explore(SelectMachine(), DPOR)
    ensures s3.executed == THREE && !s3.report.frontierOpen && s3.report.Stable()
  {
    hide Turn, Search;
    var s1 := FirstTurn();
    SearchTurns(START, s1);
    assert After(SelectMachine(), DPOR, 1) == s1;
    s2 := SecondTurn(s1);
    SearchTurns(s1, s2);
    s3 := ThirdTurn(s2);
    SearchTurns(s2, s3);
    SearchStops(s3);
  }

  /** On this machine the DPOR search closes its frontier and reports a stable outcome after
    three schedules; the complete schedule `[1, 1, 1, 0]` is not among them, and it ends
    differently. */
  lemma ArmsBreakSleep()
    ensures var st := Explore(SelectMachine(), DPOR);
            && !st.report.frontierOpen && st.report.Stable()
            && Leaf(SelectMachine(), [1, 1, 1, 0]) && [1, 1, 1, 0] !in st.executed
    ensures SelectMachine().event([1, 1, 1, 0]) == Halt(1, false, false)
    ensures SelectMachine().event([0, 0, 0]) == Halt(0, false, false) && Leaf(SelectMachine(), [0, 0, 0])
  {
    hide Explore, After, Ran;
    var s2, s3 := ThreeTurns();
    MissedLeaf();
  }

  /** Why: at the third turn level 2 of the path still lists task 0 as asleep, although the
    root's slice - which lies between task 0's exploration and that level - has just
    touched the object task 0 writes. */
  lemma StaleSleeper()
    ensures var st := After(SelectMachine(), DPOR, 2);
            && st.running && !Exhausted(DPOR, st)
            && var path := Ran(SelectMachine(), DPOR, st).path;
               && |path| == 4 && SLEEPER in path[2].sleep
               && FootprintsConflict(SLEEPER.footprint, path[0].footprint)
  {
    hide Explore, After, Ran;
    var s2, s3 := ThreeTurns();
    assert Path3()[2].sleep[0] == SLEEPER;
    assert TOUCH[0].0 == TOUCH[0].0 && TOUCH[0].1;
  }

  /** And this is the machine's doing: its two arms are followed by different touches. */
  lemma SelectIsUndetermined()
    ensures !Determined(SelectMachine())
  {
    DeterminedMeansArmsAgree(SelectMachine());
    hide Determined, ArmAgrees, Legal, SliceAfter;
    SelectIsReached();
    SelectDisagrees();
    var p: seq<nat> := [1];
    assert |p| == 1;
  }

  lemma SelectIsReached()
    ensures Legal(SelectMachine(), [1]) && SliceAfter(SelectMachine(), [1], 1) == Some(0)
  {
    hide SelectOps;
    var p: seq<nat> := [1];
    assert p[..0] == [];
  }

  lemma SelectDisagrees()
    ensures !ArmAgrees(SelectMachine(), [1])
  {
    var m := SelectMachine();
    assert [1] + [0] == [1, 0] && [1] + [1] == [1, 1];
    assert Tail(m, [1, 0]) == [] by {
      assert m.ops([1, 0]) == [] && !ArmAt(m, [1, 0]);
    }
    assert Tail(m, [1, 1]) != [] by {
      assert m.ops([1, 1]) == [Write(1)];
      assert |Touches([Write(1)])| == 1;
    }
    assert ArmAt(m, [1]) && |m.event([1]).candidates| == 2;
  }

  lemma SearchStops(st: State)
    requires !st.running
    ensures Search(SelectMachine(), DPOR, st) == st
  {
  }

  lemma MissedLeaf()
    ensures Leaf(SelectMachine(), [1, 1, 1, 0]) && [1, 1, 1, 0] !in THREE
    ensures Leaf(SelectMachine(), [0, 0, 0])
  {
    var d := [0, 0, 0];
    assert d[..0] == [] && d[..1] == [0] && d[..2] == [0, 0];
    var c := [1, 1, 1, 0];
    assert c[..0] == [] && c[..1] == [1] && c[..2] == [1, 1] && c[..3] == [1, 1, 1];
    assert c[2] == 1 && THREE[0][0] == 0 && THREE[1][1] == 0 && THREE[2][2] == 0;
  }
}
