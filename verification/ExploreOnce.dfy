/** No repeated work: every turn executes a new complete schedule, and every node is
  placed on the path once. */
module ExploreOnce {
  import opened Wrappers
  import opened Scheduler
  import opened ExploreModel

  // -- the shape of a path ---------------------------------------------------------

  /** `n` is the decision the machine offers after the choices `p`. */
  ghost predicate NodeOk(m: Machine, o: Options, p: seq<nat>, n: Node) {
    && m.event(p) == Decide(n.kind, n.candidates, n.state)
    && n.current in n.candidates
    && n.current in n.done
    && n.done <= Elements(n.candidates)
    && n.backtrack <= Elements(n.candidates)
    && (o.naive || n.kind.Arm? ==> n.backtrack == Elements(n.candidates))
  }

  ghost predicate PathOk(m: Machine, o: Options, path: seq<Node>) {
    forall i :: 0 <= i < |path| ==> NodeOk(m, o, Choices(path)[..i], path[i])
  }

  ghost predicate Unpruned(path: seq<Node>) {
    forall i :: 0 <= i < |path| ==> !path[i].pruned
  }

  /** `c` leaves `path` at level `d`, through an alternative that node is done with. */
  ghost predicate LeavesAt(path: seq<Node>, c: seq<nat>, d: nat) {
    && d < |path| && d < |c|
    && Choices(path)[..d] == c[..d]
    && c[d] < |path[d].candidates|
    && path[d].candidates[c[d]] in path[d].done
    && path[d].candidates[c[d]] != path[d].current
  }

  /** The search has left `c` behind: it will not come back to it. */
  ghost predicate Behind(path: seq<Node>, c: seq<nat>) {
    exists d :: LeavesAt(path, c, d)
  }

  lemma ChoicesPrefix(path: seq<Node>, d: nat)
    requires d <= |path|
    ensures Choices(path[..d]) == Choices(path)[..d]
  {
  }

  lemma NodeAt(m: Machine, o: Options, path: seq<Node>, i: nat)
    requires PathOk(m, o, path) && i < |path|
    ensures NodeOk(m, o, Choices(path)[..i], path[i])
  {
  }

  lemma PathOkPrefix(m: Machine, o: Options, path: seq<Node>, d: nat)
    requires PathOk(m, o, path) && d <= |path|
    ensures PathOk(m, o, path[..d])
  {
    ChoicesPrefix(path, d);
    forall i | 0 <= i < d
      ensures NodeOk(m, o, Choices(path[..d])[..i], path[..d][i])
    {
      assert Choices(path)[..d][..i] == Choices(path)[..i];
    }
  }

  /** A path that is well placed spells a legal prefix, and its plan is faithful. */
  lemma PlanIsFaithful(m: Machine, o: Options, path: seq<Node>)
    requires PathOk(m, o, path)
    ensures Faithful(m, PlanOf(path))
  {
    var c := Choices(path);
    forall i | 0 <= i < |path|
      ensures m.event(c[..i]) == Decide(path[i].kind, path[i].candidates, path[i].state)
      ensures c[i] < |path[i].candidates|
    {
      assert NodeOk(m, o, c[..i], path[i]);
    }
  }

  // -- what preparing a path keeps -----------------------------------------------------

  /** Same decision, same choice, same explored alternatives; only more to try. */
  ghost predicate Kept(a: Node, b: Node) {
    && a.kind == b.kind && a.candidates == b.candidates && a.state == b.state
    && a.current == b.current && a.done == b.done
    && a.backtrack <= b.backtrack <= a.backtrack + Elements(a.candidates)
  }

  ghost predicate AllKept(a: seq<Node>, b: seq<Node>) {
    |a| == |b| && forall i :: 0 <= i < |a| ==> Kept(a[i], b[i])
  }

  lemma {:induction false} InheritAt(path: seq<Node>, i: nat, j: nat)
    requires j < |path|
    ensures var r := Inherit(path, i);
            && r[j] == path[j].(sleep := r[j].sleep)
            && (j < i || j == 0 ==> r[j] == path[j])
            && (0 < j && i <= j ==> r[j].sleep == StillAsleep(r[j - 1].sleep, path[j - 1].footprint))
    decreases |path| - i
  {
    if i == 0 {
      InheritAt(path, 1, j);
    } else if i < |path| {
      var next := path[i := path[i].(sleep := StillAsleep(path[i - 1].sleep, path[i - 1].footprint))];
      InheritAt(next, i + 1, j);
      if j == i {
        InheritAt(next, i + 1, j - 1);
      }
    }
  }

  lemma InheritKeeps(path: seq<Node>, i: nat)
    ensures var r := Inherit(path, i);
            && |r| == |path|
            && (forall j :: 0 <= j < |path| ==> r[j] == path[j].(sleep := r[j].sleep))
            && (forall j :: 0 <= j < i && j < |path| ==> r[j] == path[j])
            && (forall j :: 0 < j && i <= j < |path| ==>
                  r[j].sleep == StillAsleep(r[j - 1].sleep, path[j - 1].footprint))
            && (i == 0 < |path| ==> r[0] == path[0])
  {
    hide Inherit, StillAsleep;
    var r := Inherit(path, i);
    forall j | 0 <= j < |path|
      ensures r[j] == path[j].(sleep := r[j].sleep)
      ensures j < i || j == 0 ==> r[j] == path[j]
      ensures 0 < j && i <= j ==> r[j].sleep == StillAsleep(r[j - 1].sleep, path[j - 1].footprint)
    {
      InheritAt(path, i, j);
    }
  }

  /** `b` goes on from `a`. */
  ghost predicate KeptBelow(a: seq<Node>, b: seq<Node>) {
    |a| <= |b| && forall i :: 0 <= i < |a| ==> Kept(a[i], b[i])
  }

  ghost predicate OnlyGrew(a: seq<Node>, b: seq<Node>) {
    && |a| == |b|
    && forall i :: 0 <= i < |a| ==>
         && b[i] == a[i].(backtrack := b[i].backtrack)
         && a[i].backtrack <= b[i].backtrack <= a[i].backtrack + Elements(a[i].candidates)
  }

  lemma {:induction false} GrowRowKeeps(path: seq<Node>, ops: seq<OpRecord>, b: nat, k: nat)
    requires b < |ops| && k <= b
    ensures OnlyGrew(path, GrowRow(path, ops, b, k))
    decreases b - k
  {
    if k < b {
      GrowRowKeeps(path, ops, b, k + 1);
    }
  }

  lemma {:induction false} GrowKeeps(path: seq<Node>, ops: seq<OpRecord>, n: nat)
    requires n <= |ops|
    ensures OnlyGrew(path, Grow(path, ops, n))
  {
    if n > 0 {
      GrowKeeps(path, ops, n - 1);
      GrowRowKeeps(Grow(path, ops, n - 1), ops, n - 1, 0);
    }
  }

  lemma PreparedKeeps(o: Options, st: State, t: Trace)
    requires Offers(t.decisions)
    ensures AllKept(Rebuilt(o, st.path, t.decisions), Prepared(o, st, t))
    ensures forall i :: 0 <= i < |Prepared(o, st, t)| ==>
              Prepared(o, st, t)[i].footprint == FootprintOf(t.ops, i)
  {
    var stamped := Stamped(Rebuilt(o, st.path, t.decisions), t.ops);
    var slept := if o.naive then stamped else Inherit(stamped, st.forced);
    if !o.naive {
      InheritKeeps(stamped, st.forced);
      GrowKeeps(slept, t.ops, |t.ops|);
    }
  }

  /** The path the search stands on when it starts looking for the next schedule. */
  lemma PreparedIsPlaced(m: Machine, o: Options, st: State, t: Trace)
    requires PathOk(m, o, st.path) && |st.path| <= o.maxSteps
    requires t == Run(m, PlanOf(st.path))
    ensures Offers(t.decisions) && t.divergence.None? && Leaf(m, Chosen(t.decisions))
    ensures m.event(Chosen(t.decisions)) == Halt(t.digest, t.deadlocked, t.race)
    ensures Follows(Chosen(t.decisions), Choices(st.path))
    ensures t.ops == Log(m, Chosen(t.decisions))
    ensures var p := Prepared(o, st, t);
            && |st.path| <= |p| == Min(|t.decisions|, o.maxSteps)
            && Choices(p) <= Chosen(t.decisions)
            && PathOk(m, o, p)
            && KeptBelow(st.path, p)
            && (forall i :: |st.path| <= i < |p| ==> p[i].done == {p[i].current})
  {
    PlanIsFaithful(m, o, st.path);
    ReplayIsExact(m, PlanOf(st.path));
    var c := Chosen(t.decisions);
    forall i | 0 <= i < |c|
      ensures t.decisions[i] == DecisionAt(m, c, i) && c[i] < |t.decisions[i].candidates|
    {
    }
    hide Prepared, Run, PathOk, Legal;
    PreparedKeeps(o, st, t);
    RebuiltIsPlaced(m, o, st.path, t.decisions);
    KeptIsPlaced(m, o, Rebuilt(o, st.path, t.decisions), Prepared(o, st, t));
  }

  lemma {:induction false} RebuiltIsPlaced(m: Machine, o: Options, path: seq<Node>, ds: seq<Decision>)
    requires PathOk(m, o, path) && |path| <= o.maxSteps && Offers(ds)
    requires Leaf(m, Chosen(ds)) && Choices(path) <= Chosen(ds)
    requires forall i :: 0 <= i < |ds| ==> ds[i] == DecisionAt(m, Chosen(ds), i)
    ensures var r := Rebuilt(o, path, ds);
            && |r| == Min(|ds|, o.maxSteps)
            && Choices(r) <= Chosen(ds)
            && PathOk(m, o, r)
            && (forall i :: |path| <= i < |r| ==> r[i].done == {r[i].current})
    decreases |ds| - |path|
  {
    if |path| < Min(|ds|, o.maxSteps) {
      var n := Fresh(ds[|path|], o.naive);
      FreshIsPlaced(m, o, Chosen(ds), |path|);
      Pushed(m, o, path, n, Chosen(ds));
      RebuiltIsPlaced(m, o, path + [n], ds);
    }
  }

  lemma Pushed(m: Machine, o: Options, path: seq<Node>, n: Node, c: seq<nat>)
    requires PathOk(m, o, path) && Choices(path) <= c && |path| < |c|
    requires NodeOk(m, o, c[..|path|], n) && IndexOf(n.candidates, n.current) == c[|path|]
    ensures PathOk(m, o, path + [n]) && Choices(path + [n]) <= c
  {
    var longer := path + [n];
    assert Choices(longer) == Choices(path) + [c[|path|]];
    assert Choices(path) == c[..|path|];
    assert forall i :: 0 <= i <= |path| ==> Choices(longer)[..i] == c[..i];
    assert forall i :: 0 <= i < |path| ==> Choices(path)[..i] == c[..i];
  }

  lemma FreshIsPlaced(m: Machine, o: Options, c: seq<nat>, i: nat)
    requires Leaf(m, c) && i < |c|
    ensures var n := Fresh(DecisionAt(m, c, i), o.naive);
            && NodeOk(m, o, c[..i], n)
            && IndexOf(n.candidates, n.current) == c[i]
            && n.done == {n.current}
  {
    FrontIndex(m, c[..i], c[i]);
  }

  lemma FrontIndex(m: Machine, p: seq<nat>, i: nat)
    requires m.event(p).Decide? && i < |m.event(p).candidates|
    ensures IndexOf(m.event(p).candidates, m.event(p).candidates[i]) == i
  {
    var s := m.event(p).candidates;
    var j := IndexOf(s, s[i]);
    assert s[j] == s[i] && NoDuplicates(s);
  }

  lemma KeptIsPlaced(m: Machine, o: Options, a: seq<Node>, b: seq<Node>)
    requires PathOk(m, o, a) && AllKept(a, b)
    ensures PathOk(m, o, b) && Choices(a) == Choices(b)
  {
    assert Choices(a) == Choices(b);
    forall i | 0 <= i < |b|
      ensures NodeOk(m, o, Choices(b)[..i], b[i])
    {
      assert NodeOk(m, o, Choices(a)[..i], a[i]);
      assert Kept(a[i], b[i]);
    }
  }

  // -- the invariant ---------------------------------------------------------------------

  ghost predicate Distinct<T>(s: seq<T>) {
    forall i, j :: 0 <= i < j < |s| ==> s[i] != s[j]
  }

  function Prefixes(rs: seq<Retired>): (r: seq<seq<nat>>)
    ensures |r| == |rs|
    ensures forall i :: 0 <= i < |r| ==> r[i] == rs[i].prefix
  {
    seq(|rs|, i requires 0 <= i < |rs| => rs[i].prefix)
  }

  function TotalCount(outcomes: seq<Outcome>): nat {
    if outcomes == [] then 0 else outcomes[0].count + TotalCount(outcomes[1..])
  }

  /** Every execution is in the history as a complete schedule, and counted once. */
  ghost predicate Accounted(m: Machine, st: State) {
    && (forall e :: e in st.executed ==> Leaf(m, e))
    && Distinct(st.executed)
    && Distinct(Prefixes(st.retired))
    && |st.executed| == st.report.schedules == st.report.executions == TotalCount(st.report.outcomes)
    && st.report.divergence.None?
  }

  /** What holds whenever the loop is about to turn. */
  ghost predicate Ready(m: Machine, o: Options, st: State) {
    && st.running
    && |st.path| == st.forced <= o.maxSteps
    && PathOk(m, o, st.path) && Unpruned(st.path)
    && Accounted(m, st)
    && (forall e :: e in st.executed ==> Behind(st.path, e))
    && (forall r :: r in st.retired ==> Behind(st.path, r.prefix))
  }

  /** `c` is behind the first `d` levels, or runs through them. */
  ghost predicate BehindOrThrough(path: seq<Node>, d: nat, c: seq<nat>)
    requires d <= |path|
  {
    Behind(path[..d], c) || Choices(path)[..d] <= c
  }

  /** What holds while the scan has levels `d - 1` down to 0 still to visit. */
  ghost predicate Scanning(m: Machine, o: Options, st: State, d: nat) {
    && d <= |st.path| <= o.maxSteps
    && PathOk(m, o, st.path)
    && Accounted(m, st)
    && (forall e :: e in st.executed ==> BehindOrThrough(st.path, d, e))
    && (forall r :: r in st.retired ==> BehindOrThrough(st.path, d, r.prefix))
    && (forall r :: r in st.retired && Choices(st.path)[..d] <= r.prefix ==> d <= |r.prefix|)
  }

  lemma BehindExtends(path: seq<Node>, longer: seq<Node>, c: seq<nat>)
    requires KeptBelow(path, longer) && Behind(path, c)
    ensures Behind(longer, c)
  {
    var d: nat :| LeavesAt(path, c, d);
    assert d < |path|;
    assert Kept(path[d], longer[d]);
    assert Choices(longer)[..d] == Choices(path)[..d];
    assert LeavesAt(longer, c, d);
  }

  lemma {:induction false} TallyAdds(outcomes: seq<Outcome>, entry: Outcome)
    ensures TotalCount(Tally(outcomes, entry)) == TotalCount(outcomes) + 1
  {
    if outcomes != [] && outcomes[0].digest != entry.digest {
      TallyAdds(outcomes[1..], entry);
    }
  }

  // -- one turn keeps it -----------------------------------------------------------------

  /** The run a turn makes is a schedule the search had not executed. */
  lemma RunIsNew(m: Machine, o: Options, st: State)
    requires Ready(m, o, st)
    ensures Replay(m, st).divergence.None?
    ensures var ran := Ran(m, o, st);
            Scanning(m, o, ran, |ran.path|) && ran.running && |ran.path| <= o.maxSteps
  {
    hide Prepared, PathOk, Choices, Behind, Chosen, Leaf, Judged, Run, KeptBelow, Follows;
    var t := Replay(m, st);
    PreparedIsPlaced(m, o, Counted(st), t);
    var path := Prepared(o, Counted(st), t);
    forall e | Behind(st.path, e)
      ensures Behind(path, e)
    {
      BehindExtends(st.path, path, e);
    }
    BehindDiffers(m, o, path, Chosen(t.decisions));
    JudgedScans(m, o, Counted(st), t, path);
  }

  lemma JudgedScans(m: Machine, o: Options, st: State, t: Trace, path: seq<Node>)
    requires Offers(t.decisions) && path == Prepared(o, st, t)
    requires PathOk(m, o, path) && |path| <= o.maxSteps && Choices(path) <= Chosen(t.decisions)
    requires Leaf(m, Chosen(t.decisions)) && !Behind(path, Chosen(t.decisions))
    requires Accounted(m, st.(report := st.report.(executions := st.report.schedules)))
    requires st.report.executions == st.report.schedules + 1
    requires forall e :: e in st.executed ==> Behind(path, e)
    requires forall r :: r in st.retired ==> Behind(path, r.prefix)
    ensures var judged := Judged(o, st, t);
            Scanning(m, o, judged, |path|) && judged.path == path && judged.running == st.running
  {
    var judged := Judged(o, st, t);
    assert path[..|path|] == path && Choices(path)[..|path|] == Choices(path);
    TallyAdds(st.report.outcomes,
              Outcome(t.digest, Chosen(t.decisions), DecisionPreemptions(t.decisions), t.deadlocked, 0));
    forall e | e in judged.executed
      ensures BehindOrThrough(path, |path|, e) && Leaf(m, e)
    {
      assert e == Chosen(t.decisions) || e in st.executed;
    }
    assert Distinct(judged.executed) by {
      assert forall i :: 0 <= i < |st.executed| ==> st.executed[i] in st.executed;
    }
  }

  /** A list of choices that runs along the path is not behind it. */
  lemma BehindDiffers(m: Machine, o: Options, path: seq<Node>, c: seq<nat>)
    requires PathOk(m, o, path) && Choices(path) <= c
    ensures !Behind(path, c)
  {
    forall d: nat | d < |path|
      ensures !LeavesAt(path, c, d)
    {
      NodeAt(m, o, path, d);
      assert Choices(path)[d] == c[d];
    }
  }

  lemma NodeStays(m: Machine, o: Options, p: seq<nat>, n: Node, slept: set<nat>)
    requires NodeOk(m, o, p, n) && slept <= n.backtrack
    ensures NodeOk(m, o, p, n.(done := n.done + slept))
  {
  }

  /** Moving one level up: what ran through the level is behind it or runs through less. */
  lemma OneLevelUp(path: seq<Node>, k: nat, c: seq<nat>)
    requires k < |path| && BehindOrThrough(path, k + 1, c)
    ensures Behind(path[..k], c) || (Choices(path)[..k] <= c && k < |c| && (LeavesAt(path, c, k) || c[k] == Choices(path)[k]))
    ensures BehindOrThrough(path, k, c)
  {
    ChoicesPrefix(path, k);
    ChoicesPrefix(path, k + 1);
    if Behind(path[..k + 1], c) {
      var d: nat :| LeavesAt(path[..k + 1], c, d);
      if d < k {
        assert Choices(path[..k])[..d] == Choices(path)[..d] == Choices(path[..k + 1])[..d];
        assert LeavesAt(path[..k], c, d);
      } else {
        assert d == k;
        assert Choices(path[..k + 1])[..k] == Choices(path)[..k];
        assert LeavesAt(path, c, k);
      }
    } else {
      assert Choices(path)[..k + 1][k] == c[k];
      assert Choices(path)[..k] == Choices(path)[..k + 1][..k] == c[..k];
    }
  }

  lemma PassedScans(m: Machine, o: Options, st: State, k: nat)
    requires Scanning(m, o, st, k + 1)
    ensures Scanning(m, o, Passed(o, st, k), k)
  {
    var next := Passed(o, st, k);
    PathUpdated(m, o, st.path, k, Settled(o, st, k));
    RetireOne(m, o, st, k, Settled(o, st, k), next);
  }

  lemma DroppedScans(m: Machine, o: Options, st: State, k: nat)
    requires Scanning(m, o, st, k + 1)
    ensures Scanning(m, o, Dropped(st, k), k)
  {
    RetireOne(m, o, st, k, st.path[k], Dropped(st, k));
  }

  lemma PathUpdated(m: Machine, o: Options, path: seq<Node>, k: nat, n: Node)
    requires PathOk(m, o, path) && k < |path|
    requires NodeOk(m, o, Choices(path)[..k], path[k]) ==> NodeOk(m, o, Choices(path)[..k], n)
    requires n.candidates == path[k].candidates && n.current == path[k].current
    ensures PathOk(m, o, path[k := n]) && Choices(path[k := n]) == Choices(path)
  {
    assert Choices(path[k := n]) == Choices(path);
  }

  lemma RetireOne(m: Machine, o: Options, st: State, k: nat, n: Node, next: State)
    requires Scanning(m, o, st, k + 1)
    requires |next.path| == |st.path| && next.path[..k] == st.path[..k] && Choices(next.path) == Choices(st.path)
    requires PathOk(m, o, next.path)
    requires next.executed == st.executed
    requires next.report.(slept := 0, notes := [], frontierOpen := true)
             == st.report.(slept := 0, notes := [], frontierOpen := true)
    requires next.retired == st.retired + [Retired(Choices(st.path)[..k], n)]
    ensures Scanning(m, o, next, k)
  {
    var here := Choices(st.path)[..k];
    forall e | e in st.executed || exists r :: r in st.retired && r.prefix == e
      ensures BehindOrThrough(next.path, k, e)
    {
      OneLevelUp(st.path, k, e);
    }
    forall i | 0 <= i < |st.retired|
      ensures st.retired[i].prefix != here
    {
      var p := st.retired[i].prefix;
      assert st.retired[i] in st.retired;
      OneLevelUp(st.path, k, p);
      ChoicesPrefix(st.path, k);
      if p == here {
        PathOkPrefix(m, o, st.path, k);
        BehindDiffers(m, o, st.path[..k], p);
      }
    }
    assert BehindOrThrough(next.path, k, here);
  }

  lemma TakenIsReady(m: Machine, o: Options, st: State, k: nat)
    requires k < |st.path| && Scanning(m, o, st, k + 1) && st.running && Unpruned(st.path[..k + 1])
    requires Look(o, st, k).pick.Some?
    ensures Ready(m, o, Taken(o, st, k))
  {
    hide PathOk, Choices, Weigh, PathPreemptions, Behind, Unpruned;
    var next := Taken(o, st, k);
    var n := Advanced(o, Settled(o, st, k), Look(o, st, k).pick.value);
    TakenIsPlaced(m, o, st, k);
    NodeAt(m, o, st.path, k);
    forall c | BehindOrThrough(st.path, k + 1, c)
      ensures Behind(next.path, c)
    {
      OneLevelUp(st.path, k, c);
      if Behind(st.path[..k], c) {
        BehindExtends(st.path[..k], next.path, c);
      } else {
        LeftThroughPick(st.path, k, n, c);
      }
    }
  }

  lemma TakenIsPlaced(m: Machine, o: Options, st: State, k: nat)
    requires k < |st.path| && PathOk(m, o, st.path) && Unpruned(st.path[..k + 1])
    requires Look(o, st, k).pick.Some?
    ensures PathOk(m, o, Taken(o, st, k).path) && Unpruned(Taken(o, st, k).path)
  {
    hide PathOk, Choices, Weigh, PathPreemptions;
    var n := Advanced(o, Settled(o, st, k), Look(o, st, k).pick.value);
    ChoicesPrefix(st.path, k);
    PathOkPrefix(m, o, st.path, k);
    NodeAt(m, o, st.path, k);
    PathAppended(m, o, st.path[..k], n);
    assert st.path[..k + 1][k] == st.path[k];
    forall i | 0 <= i < k
      ensures !st.path[i].pruned
    {
      assert st.path[..k + 1][i] == st.path[i];
    }
  }

  lemma PathAppended(m: Machine, o: Options, path: seq<Node>, n: Node)
    requires PathOk(m, o, path) && NodeOk(m, o, Choices(path), n)
    ensures PathOk(m, o, path + [n])
  {
    var longer := path + [n];
    assert forall i :: 0 <= i <= |path| ==> Choices(longer)[..i] == Choices(path)[..i];
    assert Choices(path)[..|path|] == Choices(path);
  }

  /** Whatever ran through level `k` is behind the node that moved on to a new choice. */
  lemma LeftThroughPick(path: seq<Node>, k: nat, n: Node, c: seq<nat>)
    requires k < |path| && k < |c| && Choices(path)[..k] <= c
    requires LeavesAt(path, c, k) || c[k] == Choices(path)[k]
    requires path[k].current in path[k].candidates && path[k].current in path[k].done
    requires n.candidates == path[k].candidates && path[k].done <= n.done && n.current !in path[k].done
    ensures Behind(path[..k] + [n], c)
  {
    var next := path[..k] + [n];
    assert Choices(next)[..k] == Choices(path)[..k] == c[..k];
    assert LeavesAt(next, c, k);
  }

  lemma PassedUnpruned(o: Options, st: State, k: nat, firstPruned: nat)
    requires k < |st.path| && firstPruned <= |st.path| && Unpruned(st.path[..firstPruned])
    ensures Unpruned(Passed(o, st, k).path[..firstPruned])
  {
    var next := Passed(o, st, k).path;
    forall i | 0 <= i < firstPruned
      ensures !next[..firstPruned][i].pruned
    {
      assert !st.path[..firstPruned][i].pruned;
    }
  }

  lemma {:induction false} ScanKeeps(m: Machine, o: Options, st: State, firstPruned: nat, d: nat)
    requires d <= |st.path| && Scanning(m, o, st, d) && st.running
    requires firstPruned <= |st.path| && Unpruned(st.path[..firstPruned])
    ensures var next := Scan(o, st, firstPruned, d);
            Accounted(m, next) && (next.running ==> Ready(m, o, next))
    decreases d
  {
    hide Scanning, Ready, Accounted, Look, Taken, Passed, Dropped, Unpruned;
    if d == 0 {
      ScanEnds(m, o, st);
    } else {
      var k := d - 1;
      if k >= firstPruned {
        DroppedScans(m, o, st, k);
        ScanKeeps(m, o, Dropped(st, k), firstPruned, k);
      } else if Look(o, st, k).pick.Some? {
        UnprunedPrefix(st.path, firstPruned, k + 1);
        TakenIsReady(m, o, st, k);
        ReadyIsAccounted(m, o, Taken(o, st, k));
      } else {
        PassedScans(m, o, st, k);
        PassedUnpruned(o, st, k, firstPruned);
        ScanKeeps(m, o, Passed(o, st, k), firstPruned, k);
      }
    }
  }

  lemma ScanEnds(m: Machine, o: Options, st: State)
    requires Scanning(m, o, st, 0)
    ensures Accounted(m, st.(running := false))
  {
  }

  lemma ReadyIsAccounted(m: Machine, o: Options, st: State)
    requires Ready(m, o, st)
    ensures Accounted(m, st)
  {
  }

  lemma UnprunedPrefix(path: seq<Node>, a: nat, b: nat)
    requires b <= a <= |path| && Unpruned(path[..a])
    ensures Unpruned(path[..b])
  {
    assert path[..b] == path[..a][..b];
  }

  lemma TurnKeeps(m: Machine, o: Options, st: State)
    requires Ready(m, o, st)
    ensures var next := Turn(m, o, st);
            Accounted(m, next) && (next.running ==> Ready(m, o, next))
  {
    hide Judged, Scan, Replay, Ready, Accounted, Scanning, Ran, Unpruned, Stopped;
    if Exhausted(o, st) {
      StopKeeps(m, o, st);
    } else {
      RunIsNew(m, o, st);
      var ran := Ran(m, o, st);
      FirstPrunedIsFirst(ran.path);
      ScanKeeps(m, o, ran, FirstPruned(ran.path), |ran.path|);
    }
  }

  lemma StopKeeps(m: Machine, o: Options, st: State)
    requires Ready(m, o, st)
    ensures forall note :: Accounted(m, Stopped(st, note)) && !Stopped(st, note).running
  {
  }

  /** With pruning off no node is ever marked. */
  lemma PreparedUnpruned(o: Options, st: State, t: Trace)
    requires Offers(t.decisions) && !PruneOn(o) && Unpruned(st.path)
    ensures Unpruned(Prepared(o, st, t))
  {
    var stamped := Stamped(Rebuilt(o, st.path, t.decisions), t.ops);
    RebuiltUnpruned(o, st.path, t.decisions);
    InheritKeeps(stamped, st.forced);
    GrowKeeps(Inherit(stamped, st.forced), t.ops, |t.ops|);
  }

  lemma {:induction false} RebuiltUnpruned(o: Options, path: seq<Node>, ds: seq<Decision>)
    requires Offers(ds) && Unpruned(path)
    ensures Unpruned(Rebuilt(o, path, ds))
    decreases |ds| - |path|
  {
    if |path| < Min(|ds|, o.maxSteps) {
      RebuiltUnpruned(o, path + [Fresh(ds[|path|], o.naive)], ds);
    }
  }

  lemma FirstPrunedIsFirst(path: seq<Node>)
    ensures Unpruned(path[..FirstPruned(path)])
  {
  }

  lemma {:induction false} SearchKeeps(m: Machine, o: Options, st: State)
    requires Ready(m, o, st)
    ensures Accounted(m, Search(m, o, st)) && !Search(m, o, st).running
    decreases if st.report.executions < o.maxSchedules then o.maxSchedules - st.report.executions else 0
  {
    TurnKeeps(m, o, st);
    TurnCounts(m, o, st);
    var next := Turn(m, o, st);
    if next.running {
      SearchKeeps(m, o, next);
    }
  }

  /** In every mode - naive, DPOR, pruned, bounded - the executed schedules are complete
    and pairwise distinct, no replay diverges, no node is placed twice, and the outcome
    counts sum to the schedules. */
  lemma NoScheduleTwice(m: Machine, o: Options)
    ensures Accounted(m, Explore(m, o)) && !Explore(m, o).running
  {
    SearchKeeps(m, o, START);
  }

  // -- the schedule budget is not what ends a search -------------------------------------

  /** The complete schedules below `p`, through the alternatives from `i` on. */
  ghost function LeavesBelow(m: Machine, p: seq<nat>, i: nat): (s: set<seq<nat>>)
    requires m.event(p).Decide? && i <= |m.event(p).candidates|
    decreases m.depth - |p|, 0, |m.event(p).candidates| - i
  {
    if i == |m.event(p).candidates| then {}
    else LeavesUnder(m, p + [i]) + LeavesBelow(m, p, i + 1)
  }

  ghost function LeavesUnder(m: Machine, p: seq<nat>): (s: set<seq<nat>>)
    decreases m.depth - |p|, 1
  {
    if m.event(p).Halt? then {p} else LeavesBelow(m, p, 0)
  }

  lemma {:induction false} LeafIsListed(m: Machine, c: seq<nat>, n: nat)
    requires Leaf(m, c) && n <= |c|
    ensures c in LeavesUnder(m, c[..n])
    decreases |c| - n
  {
    assert c[..|c|] == c;
    if n < |c| {
      assert c[..n] + [c[n]] == c[..n + 1];
      LeafIsListed(m, c, n + 1);
      ListedBelow(m, c, c[..n], 0, c[n]);
    }
  }

  lemma {:induction false} ListedBelow(m: Machine, c: seq<nat>, p: seq<nat>, i: nat, j: nat)
    requires m.event(p).Decide? && i <= j < |m.event(p).candidates|
    requires c in LeavesUnder(m, p + [j])
    ensures c in LeavesBelow(m, p, i)
    decreases j - i
  {
    if i < j {
      ListedBelow(m, c, p, i + 1, j);
    }
  }

  lemma {:induction false} DistinctFit(s: seq<seq<nat>>, all: set<seq<nat>>)
    requires Distinct(s) && forall x :: x in s ==> x in all
    ensures |s| <= |all|
  {
    if s != [] {
      var last := s[|s| - 1];
      var rest := s[..|s| - 1];
      assert forall x :: x in rest ==> x in s && x != last;
      DistinctFit(rest, all - {last});
    }
  }

  /** A search never makes more executions than the machine has complete schedules, so a
    budget above that number is never what stops it. */
  lemma BudgetIsSlack(m: Machine, o: Options)
    ensures var st := Explore(m, o);
            && st.report.executions <= |LeavesUnder(m, [])|
            && (forall n :: ScheduleBudget(n) in st.report.notes ==> o.maxSchedules <= |LeavesUnder(m, [])|)
  {
    SearchFits(m, o, START);
    NoScheduleTwice(m, o);
    ExecutedFit(m, Explore(m, o));
  }

  lemma ExecutedFit(m: Machine, st: State)
    requires Accounted(m, st)
    ensures st.report.executions <= |LeavesUnder(m, [])|
  {
    forall e | e in st.executed
      ensures e in LeavesUnder(m, [])
    {
      LeafIsListed(m, e, 0);
      assert e[..0] == [];
    }
    DistinctFit(st.executed, LeavesUnder(m, []));
  }

  ghost predicate BudgetNotesFit(m: Machine, o: Options, st: State) {
    forall n :: ScheduleBudget(n) in st.report.notes ==> o.maxSchedules <= |LeavesUnder(m, [])|
  }

  lemma {:induction false} ScanNotes(m: Machine, o: Options, st: State, firstPruned: nat, d: nat)
    requires d <= |st.path|
    ensures forall n :: ScheduleBudget(n) in Scan(o, st, firstPruned, d).report.notes
                        ==> ScheduleBudget(n) in st.report.notes
    decreases d
  {
    if d > 0 {
      if d - 1 >= firstPruned {
        ScanNotes(m, o, Dropped(st, d - 1), firstPruned, d - 1);
      } else if Look(o, st, d - 1).pick.None? {
        ScanNotes(m, o, Passed(o, st, d - 1), firstPruned, d - 1);
      }
    }
  }

  lemma {:induction false} SearchFits(m: Machine, o: Options, st: State)
    requires Ready(m, o, st) && BudgetNotesFit(m, o, st)
    ensures BudgetNotesFit(m, o, Search(m, o, st))
    decreases if st.report.executions < o.maxSchedules then o.maxSchedules - st.report.executions else 0
  {
    TurnKeeps(m, o, st);
    TurnCounts(m, o, st);
    ExecutedFit(m, st);
    TurnFits(m, o, st);
    if Turn(m, o, st).running {
      SearchFits(m, o, Turn(m, o, st));
    }
  }

  lemma TurnFits(m: Machine, o: Options, st: State)
    requires Ready(m, o, st) && BudgetNotesFit(m, o, st)
    requires st.report.executions <= |LeavesUnder(m, [])|
    ensures BudgetNotesFit(m, o, Turn(m, o, st))
  {
    hide Scanning, Scan, Replay, Judged, Ready, LeavesUnder;
    if !Exhausted(o, st) {
      RunIsNew(m, o, st);
      var ran := Ran(m, o, st);
      JudgedNotes(o, Counted(st), Replay(m, st));
      ScanNotes(m, o, ran, FirstPruned(ran.path), Min(|ran.path|, o.maxSteps));
    }
  }

  lemma JudgedNotes(o: Options, st: State, t: Trace)
    requires Offers(t.decisions)
    ensures forall n :: ScheduleBudget(n) in Judged(o, st, t).report.notes ==> ScheduleBudget(n) in st.report.notes
  {
    hide Prepared, Tally, CountConverged;
  }
}
