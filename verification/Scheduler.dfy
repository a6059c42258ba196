/** The deterministic machine the schedule explorer replays.

  The interpreter behind `Machine::with_plan(..).run()` is abstracted to what the
  explorer can observe of it: after any list of choices the machine either halts
  with an observation or offers one more decision, and between two decisions it
  performs operations on shared objects.  A machine is therefore a tree, and a run
  is one root-to-leaf walk through it. */
module Scheduler {
  import opened Wrappers

  /** Which alphabet a decision draws from. */
  datatype Kind = Task | Arm

  /** One operation on a shared object, with the acting task's vector clock. */
  datatype Op = Op(task: nat, obj: nat, write: bool, vc: seq<nat>)

  /** What happens after a list of choices.  `digest` stands for everything the
    stability oracle compares (verdict, output, leaks). */
  datatype Event =
    | Halt(digest: nat, deadlocked: bool, race: bool)
    | Decide(kind: Kind, candidates: seq<nat>, state: nat)

  datatype RawMachine = RawMachine(depth: nat, event: seq<nat> -> Event, ops: seq<nat> -> seq<Op>)

  predicate NoDuplicates(s: seq<nat>) {
    forall i, j :: 0 <= i < j < |s| ==> s[i] != s[j]
  }

  /** Every run is finite and every decision offers distinct alternatives. */
  ghost predicate WellFormed(m: RawMachine) {
    && (forall c :: |c| >= m.depth ==> m.event(c).Halt?)
    && (forall c :: m.event(c).Decide? ==>
          m.event(c).candidates != [] && NoDuplicates(m.event(c).candidates))
  }

  type Machine = m: RawMachine | WellFormed(m)
    ghost witness RawMachine(0, (c: seq<nat>) => Halt(0, false, false), (c: seq<nat>) => [])

  datatype Decision = Decision(kind: Kind, candidates: seq<nat>, chosen: nat, state: nat)

  /** `slice` is the index of the `Task` decision that scheduled the running slice. */
  datatype OpRecord = OpRecord(task: nat, slice: Option<nat>, obj: nat, write: bool, vc: seq<nat>)

  /** `divergence` is the first position where a replay saw something other than planned. */
  datatype Trace = Trace(decisions: seq<Decision>, ops: seq<OpRecord>, divergence: Option<nat>,
                         digest: nat, deadlocked: bool, race: bool)

  datatype Plan = Plan(choices: seq<nat>, expected: seq<(Kind, seq<nat>)>)

  function Stamp(ops: seq<Op>, slice: Option<nat>): (r: seq<OpRecord>)
    ensures |r| == |ops|
  {
    seq(|ops|, i requires 0 <= i < |ops| => OpRecord(ops[i].task, slice, ops[i].obj, ops[i].write, ops[i].vc))
  }

  predicate Offers(ds: seq<Decision>) {
    forall i :: 0 <= i < |ds| ==> ds[i].chosen < |ds[i].candidates|
  }

  /** Runs the machine from `past`: forced choices first, the front of the queue after. */
  function Play(m: Machine, plan: Plan, past: seq<nat>, slice: Option<nat>): (t: Trace)
    ensures Offers(t.decisions)
    decreases m.depth - |past|
  {
    var here := Stamp(m.ops(past), slice);
    match m.event(past)
    case Halt(digest, deadlocked, race) => Trace([], here, None, digest, deadlocked, race)
    case Decide(kind, candidates, state) =>
      var position := |past|;
      var want := if position < |plan.choices| then plan.choices[position] else 0;
      var chosen := if want < |candidates| then want else 0;
      var missed := want >= |candidates|
                    || (position < |plan.expected| && plan.expected[position] != (kind, candidates));
      var rest := Play(m, plan, past + [chosen], if kind.Task? then Some(position) else slice);
      Trace([Decision(kind, candidates, chosen, state)] + rest.decisions, here + rest.ops,
            if missed then Some(position) else rest.divergence,
            rest.digest, rest.deadlocked, rest.race)
  }

  function Run(m: Machine, plan: Plan): (t: Trace)
    ensures Offers(t.decisions)
  {
    Play(m, plan, [], None)
  }

  // -- the machine as a tree ---------------------------------------------------

  function Chosen(decisions: seq<Decision>): (c: seq<nat>)
    ensures |c| == |decisions|
    ensures forall i :: 0 <= i < |c| ==> c[i] == decisions[i].chosen
  {
    seq(|decisions|, i requires 0 <= i < |decisions| => decisions[i].chosen)
  }

  /** Every choice in `c` picks an offered alternative. */
  ghost predicate Legal(m: Machine, c: seq<nat>) {
    forall i {:trigger c[..i]} :: 0 <= i < |c| ==> m.event(c[..i]).Decide? && c[i] < |m.event(c[..i]).candidates|
  }

  /** A complete schedule. */
  ghost predicate Leaf(m: Machine, c: seq<nat>) {
    Legal(m, c) && m.event(c).Halt?
  }

  function DecisionAt(m: Machine, c: seq<nat>, i: nat): Decision
    requires i < |c| && m.event(c[..i]).Decide?
  {
    var e := m.event(c[..i]);
    Decision(e.kind, e.candidates, c[i], e.state)
  }

  predicate TaskAt(m: Machine, c: seq<nat>, k: nat)
    requires k <= |c|
  {
    var e := m.event(c[..k]);
    e.Decide? && e.kind.Task?
  }

  predicate NoTaskFrom(m: Machine, c: seq<nat>, from: nat, to: nat)
    requires to <= |c|
  {
    forall k :: from <= k < to ==> !TaskAt(m, c, k)
  }

  /** The slice in which the operations after `c[..i]` run: the last `Task` decision's. */
  function SliceAfter(m: Machine, c: seq<nat>, i: nat): (s: Option<nat>)
    requires i <= |c|
    ensures s.Some? ==> s.value < i && TaskAt(m, c, s.value) && NoTaskFrom(m, c, s.value + 1, i)
    ensures s.None? ==> NoTaskFrom(m, c, 0, i)
  {
    if i == 0 then None
    else
      if TaskAt(m, c, i - 1) then Some(i - 1) else SliceAfter(m, c, i - 1)
  }

  /** The operation log of a schedule, from its `i`-th decision on. */
  function LogFrom(m: Machine, c: seq<nat>, i: nat): seq<OpRecord>
    requires i <= |c|
    decreases |c| - i
  {
    Stamp(m.ops(c[..i]), SliceAfter(m, c, i)) + (if i == |c| then [] else LogFrom(m, c, i + 1))
  }

  function Log(m: Machine, c: seq<nat>): seq<OpRecord> {
    LogFrom(m, c, 0)
  }

  /** What a forced prefix `p` selects: `p` itself, then front-of-queue choices. */
  ghost predicate Follows(c: seq<nat>, p: seq<nat>) {
    && p <= c
    && forall i :: |p| <= i < |c| ==> c[i] == 0
  }

  /** The plan names exactly what the tree offers along `p`. */
  ghost predicate Faithful(m: Machine, plan: Plan) {
    && Legal(m, plan.choices)
    && |plan.expected| == |plan.choices|
    && forall i :: 0 <= i < |plan.choices| ==>
         plan.expected[i] == (m.event(plan.choices[..i]).kind, m.event(plan.choices[..i]).candidates)
  }

  /** `t` is the part of the walk that continues `past` under `plan`. */
  ghost predicate Continues(m: Machine, plan: Plan, past: seq<nat>, t: Trace) {
    var c := past + Chosen(t.decisions);
    && Leaf(m, c)
    && (forall i :: 0 <= i < |c| ==> c[i] == if i < |plan.choices| then plan.choices[i] else 0)
    && (forall i :: |past| <= i < |c| ==> t.decisions[i - |past|] == DecisionAt(m, c, i))
    && t.ops == LogFrom(m, c, |past|)
    && t.divergence.None?
    && Halt(t.digest, t.deadlocked, t.race) == m.event(c)
  }

  lemma {:induction false} PlayIsTheTree(m: Machine, plan: Plan, past: seq<nat>)
    requires Legal(m, past) && Faithful(m, plan)
    requires forall i :: 0 <= i < |past| ==> past[i] == if i < |plan.choices| then plan.choices[i] else 0
    ensures Continues(m, plan, past, Play(m, plan, past, SliceAfter(m, past, |past|)))
    decreases m.depth - |past|
  {
    hide Continues, LogFrom, Stamp, Play, SliceAfter, Legal, Faithful;
    var slice := SliceAfter(m, past, |past|);
    var t := Play(m, plan, past, slice);
    if m.event(past).Halt? {
      HaltContinues(m, plan, past, t);
    } else {
      var want := Forced(m, plan, past);
      var next := past + [want];
      NextSlice(m, past, want);
      PlayIsTheTree(m, plan, next);
      PlayStep(m, plan, past, slice, want);
      PrependStep(m, plan, past, want, Play(m, plan, next, SliceAfter(m, next, |next|)), t);
    }
  }

  lemma PlayStep(m: Machine, plan: Plan, past: seq<nat>, slice: Option<nat>, want: nat)
    requires m.event(past).Decide? && want < |m.event(past).candidates|
    requires want == if |past| < |plan.choices| then plan.choices[|past|] else 0
    requires |past| < |plan.expected| ==>
               plan.expected[|past|] == (m.event(past).kind, m.event(past).candidates)
    ensures var rest := Play(m, plan, past + [want], if m.event(past).kind.Task? then Some(|past|) else slice);
            Play(m, plan, past, slice)
            == Trace([DecisionAt(m, past + [want], |past|)] + rest.decisions,
                     Stamp(m.ops(past), slice) + rest.ops, rest.divergence,
                     rest.digest, rest.deadlocked, rest.race)
  {
    assert (past + [want])[..|past|] == past;
  }

  lemma HaltContinues(m: Machine, plan: Plan, past: seq<nat>, t: Trace)
    requires Legal(m, past) && m.event(past).Halt?
    requires forall i :: 0 <= i < |past| ==> past[i] == if i < |plan.choices| then plan.choices[i] else 0
    requires t == Play(m, plan, past, SliceAfter(m, past, |past|))
    ensures Continues(m, plan, past, t)
  {
    assert past + Chosen(t.decisions) == past == past[..|past|];
  }

  /** The choice a faithful plan makes next is legal, and nothing is missed there. */
  lemma Forced(m: Machine, plan: Plan, past: seq<nat>) returns (want: nat)
    requires Legal(m, past) && Faithful(m, plan) && m.event(past).Decide?
    requires forall i :: 0 <= i < |past| ==> past[i] == if i < |plan.choices| then plan.choices[i] else 0
    ensures want == if |past| < |plan.choices| then plan.choices[|past|] else 0
    ensures want < |m.event(past).candidates|
    ensures |past| < |plan.expected| ==>
              plan.expected[|past|] == (m.event(past).kind, m.event(past).candidates)
    ensures Legal(m, past + [want])
  {
    want := if |past| < |plan.choices| then plan.choices[|past|] else 0;
    if |past| < |plan.choices| {
      assert past == plan.choices[..|past|];
    }
    assert forall i :: 0 <= i <= |past| ==> (past + [want])[..i] == past[..i];
    assert past[..|past|] == past;
  }

  lemma NextSlice(m: Machine, past: seq<nat>, want: nat)
    requires m.event(past).Decide?
    ensures SliceAfter(m, past + [want], |past| + 1)
            == if m.event(past).kind.Task? then Some(|past|) else SliceAfter(m, past, |past|)
  {
    var next := past + [want];
    assert next[..|past|] == past == past[..|past|];
    SliceExtends(m, past, next, |past|);
  }

  lemma ChosenPrepends(past: seq<nat>, d: Decision, rest: seq<Decision>)
    ensures past + Chosen([d] + rest) == past + [d.chosen] + Chosen(rest)
  {
  }

  lemma PrependStep(m: Machine, plan: Plan, past: seq<nat>, want: nat, rest: Trace, t: Trace)
    requires m.event(past).Decide? && want < |m.event(past).candidates|
    requires Continues(m, plan, past + [want], rest)
    requires t == Trace([DecisionAt(m, past + [want], |past|)] + rest.decisions,
                        Stamp(m.ops(past), SliceAfter(m, past, |past|)) + rest.ops,
                        rest.divergence, rest.digest, rest.deadlocked, rest.race)
    ensures Continues(m, plan, past, t)
  {
    var next := past + [want];
    var c := next + Chosen(rest.decisions);
    ChosenPrepends(past, DecisionAt(m, next, |past|), rest.decisions);
    assert c[..|past|] == past == past[..|past|] == next[..|past|];
    SliceExtends(m, past, c, |past|);
    assert t.ops == LogFrom(m, c, |past|);
    forall i | |past| <= i < |c|
      ensures t.decisions[i - |past|] == DecisionAt(m, c, i)
    {
      if i > |past| {
        assert t.decisions[i - |past|] == rest.decisions[i - |next|];
      }
    }
  }

  /** The slice bookkeeping reads only the decisions made so far. */
  lemma {:induction false} SliceExtends(m: Machine, c: seq<nat>, d: seq<nat>, i: nat)
    requires i <= |c| && i <= |d| && c[..i] == d[..i]
    ensures SliceAfter(m, c, i) == SliceAfter(m, d, i)
  {
    if i > 0 {
      assert c[..i - 1] == c[..i][..i - 1] == d[..i][..i - 1] == d[..i - 1];
      SliceExtends(m, c, d, i - 1);
    }
  }

  /** A complete schedule that agrees with a legal prefix as far as it goes, goes on from it. */
  lemma LeafCovers(m: Machine, c: seq<nat>, p: seq<nat>)
    requires Leaf(m, c) && Legal(m, p) && forall i :: 0 <= i < |c| && i < |p| ==> c[i] == p[i]
    ensures p <= c
  {
    var n := if |c| < |p| then |c| else |p|;
    assert c[..n] == p[..n] && c[..|c|] == c;
  }

  /** A replay of a faithful plan never diverges and walks the tree from the root. */
  lemma ReplayIsExact(m: Machine, plan: Plan)
    requires Faithful(m, plan)
    ensures var t := Run(m, plan);
            var c := Chosen(t.decisions);
            && t.divergence.None?
            && Leaf(m, c)
            && Follows(c, plan.choices)
            && (forall i :: 0 <= i < |c| ==> t.decisions[i] == DecisionAt(m, c, i))
            && t.ops == Log(m, c)
            && Halt(t.digest, t.deadlocked, t.race) == m.event(c)
  {
    var t := Run(m, plan);
    var c := Chosen(t.decisions);
    assert [] + c == c;
    assert Legal(m, []) && Legal(m, plan.choices);
    hide LogFrom, Play, NoTaskFrom, Legal, Faithful, Leaf, TaskAt;
    PlayIsTheTree(m, plan, []);
    LeafCovers(m, c, plan.choices);
  }

  // -- footprints -----------------------------------------------------------------

  type Footprint = seq<(nat, bool)>

  predicate FootprintsConflict(a: Footprint, b: Footprint) {
    exists i, j :: 0 <= i < |a| && 0 <= j < |b| && a[i].0 == b[j].0 && (a[i].1 || b[j].1)
  }

  predicate Conflicts(a: OpRecord, b: OpRecord) {
    a.obj == b.obj && (a.write || b.write)
  }

  function Component(vc: seq<nat>, task: nat): nat {
    if task < |vc| then vc[task] else 0
  }

  predicate HappensBefore(a: OpRecord, b: OpRecord) {
    Component(b.vc, a.task) >= Component(a.vc, a.task)
  }

  /** What slice `i` touched, in log order. */
  function FootprintOf(ops: seq<OpRecord>, i: nat): (f: Footprint)
  {
    if ops == [] then []
    else
      var last := ops[|ops| - 1];
      FootprintOf(ops[..|ops| - 1], i) + (if last.slice == Some(i) then [(last.obj, last.write)] else [])
  }

  lemma FootprintStep(ops: seq<OpRecord>, last: OpRecord, i: nat)
    ensures FootprintOf(ops + [last], i)
            == FootprintOf(ops, i) + if last.slice == Some(i) then [(last.obj, last.write)] else []
  {
    assert (ops + [last])[..|ops|] == ops;
  }
}
