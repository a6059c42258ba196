/** The reducer: it drops helpers, removes and unwraps statements and replaces expressions by
  a literal, as long as the caller's predicate holds, until nothing more can go. */
module FuzzReduce {
  import opened FuzzTree

  // -- structural edits -----------------------------------------------------------------------

  datatype Edit = Remove(path: seq<nat>) | Unwrap(path: seq<nat>)

  function Kept(s: Stmt): seq<Stmt> {
    if s.If? then s.then_ + s.otherwise else if HasBody(s) then s.body else [s]
  }

  /** `stmts` with the statement at `path` removed or unwrapped.  A path does not tell the arms
    of an `if` apart: the first arm it changes is the one it edits. */
  function Rebuild(stmts: seq<Stmt>, path: seq<nat>, unwrap: bool): seq<Stmt>
    decreases |path|, 0
  {
    if path == [] || path[0] >= |stmts| then stmts
    else stmts[..path[0]] + RebuildAt(stmts[path[0]], path[1..], unwrap) + stmts[path[0] + 1..]
  }

  function RebuildAt(s: Stmt, rest: seq<nat>, unwrap: bool): seq<Stmt>
    decreases |rest|, 2
  {
    if rest != [] then [RebuildInside(s, rest, unwrap)] else if unwrap then Kept(s) else []
  }

  function RebuildInside(s: Stmt, rest: seq<nat>, unwrap: bool): Stmt
    decreases |rest|, 1
  {
    if s.If? then
      var rebuilt := Rebuild(s.then_, rest, unwrap);
      if rebuilt != s.then_ then If(s.cond, rebuilt, s.otherwise)
      else If(s.cond, s.then_, Rebuild(s.otherwise, rest, unwrap))
    else if HasBody(s) then WithBody(s, Rebuild(s.body, rest, unwrap))
    else s
  }

  function ApplyEdit(stmts: seq<Stmt>, edit: Edit): seq<Stmt> {
    match edit
    case Remove(path) => Rebuild(stmts, path, false)
    case Unwrap(path) => Rebuild(stmts, path, true)
  }

  /** Every edit offered on the statements from number `index` on, in program order. */
  function EditsFrom(stmts: seq<Stmt>, index: nat, path: seq<nat>): seq<Edit>
    decreases stmts
  {
    if stmts == [] then []
    else EditsOf(stmts[0], path + [index]) + EditsFrom(stmts[1..], index + 1, path)
  }

  function EditsOf(s: Stmt, here: seq<nat>): seq<Edit>
    decreases s
  {
    [Remove(here)] +
    match s
    case If(_, t, o) => [Unwrap(here)] + EditsFrom(t, 0, here) + EditsFrom(o, 0, here)
    case While(_, _, body) => [Unwrap(here)] + EditsFrom(body, 0, here)
    case Block(body) => [Unwrap(here)] + EditsFrom(body, 0, here)
    case Region(_, body) => [Unwrap(here)] + EditsFrom(body, 0, here)
    case _ => []
  }

  function StmtEdits(stmts: seq<Stmt>): seq<Edit> {
    EditsFrom(stmts, 0, [])
  }

  // -- expressions --------------------------------------------------------------------------------

  function CountExpr(e: Expr): (n: nat)
    ensures n > 0
  {
    match e
    case Bin(_, a, b) => 1 + CountExpr(a) + CountExpr(b)
    case Cmp(_, a, b) => 1 + CountExpr(a) + CountExpr(b)
    case IfVal(c, a, b) => 1 + CountExpr(c) + CountExpr(a) + CountExpr(b)
    case Call(_, args) => 1 + CountArgs(args)
    case Group(inner) => 1 + CountExpr(inner)
    case _ => 1
  }

  function CountArgs(args: seq<Expr>): nat {
    if args == [] then 0 else CountExpr(args[0]) + CountArgs(args[1..])
  }

  function CountStmt(s: Stmt): nat {
    match s
    case LetStmt(_, v) => CountExpr(v)
    case VarStmt(_, v) => CountExpr(v)
    case Assign(_, v) => CountExpr(v)
    case Print(_, v) => CountExpr(v)
    case If(cond, t, o) => CountExpr(cond) + CountExprs(t) + CountExprs(o)
    case While(_, _, body) => CountExprs(body)
    case Block(body) => CountExprs(body)
    case Region(_, body) => CountExprs(body)
    case _ => 0
  }

  function CountExprs(stmts: seq<Stmt>): nat {
    if stmts == [] then 0 else CountStmt(stmts[0]) + CountExprs(stmts[1..])
  }

  /** Numbers the nodes of `e` from `counter` on and replaces node `target` by the literal one;
    also the next number.  The nodes under a replaced one are not numbered. */
  function SimplifyExpr(e: Expr, target: nat, counter: nat): (r: (Expr, nat))
    ensures r.1 > counter
    decreases e
  {
    if counter == target && !e.Lit? then (Lit(1), counter + 1)
    else
      match e
      case Bin(op, a, b) =>
        var (x, n) := SimplifyExpr(a, target, counter + 1);
        var (y, m) := SimplifyExpr(b, target, n);
        (Bin(op, x, y), m)
      case Cmp(op, a, b) =>
        var (x, n) := SimplifyExpr(a, target, counter + 1);
        var (y, m) := SimplifyExpr(b, target, n);
        (Cmp(op, x, y), m)
      case IfVal(c, a, b) =>
        var (x, n) := SimplifyExpr(c, target, counter + 1);
        var (y, m) := SimplifyExpr(a, target, n);
        var (z, k) := SimplifyExpr(b, target, m);
        (IfVal(x, y, z), k)
      case Call(f, args) =>
        var (xs, n) := SimplifyArgs(args, target, counter + 1);
        (Call(f, xs), n)
      case Group(inner) =>
        var (x, n) := SimplifyExpr(inner, target, counter + 1);
        (Group(x), n)
      case _ => (e, counter + 1)
  }

  function SimplifyArgs(args: seq<Expr>, target: nat, counter: nat): (r: (seq<Expr>, nat))
    ensures r.1 >= counter && |r.0| == |args|
    decreases args
  {
    if args == [] then ([], counter)
    else
      var (x, n) := SimplifyExpr(args[0], target, counter);
      var (xs, m) := SimplifyArgs(args[1..], target, n);
      ([x] + xs, m)
  }

  function SimplifyStmt(s: Stmt, target: nat, counter: nat): (r: (Stmt, nat))
    ensures r.1 >= counter
    decreases s
  {
    match s
    case LetStmt(name, v) => var (x, n) := SimplifyExpr(v, target, counter); (LetStmt(name, x), n)
    case VarStmt(name, v) => var (x, n) := SimplifyExpr(v, target, counter); (VarStmt(name, x), n)
    case Assign(name, v) => var (x, n) := SimplifyExpr(v, target, counter); (Assign(name, x), n)
    case Print(prefix, v) => var (x, n) := SimplifyExpr(v, target, counter); (Print(prefix, x), n)
    case If(cond, t, o) =>
      var (x, n) := SimplifyExpr(cond, target, counter);
      var (ts, m) := SimplifyNth(t, target, n);
      var (os, k) := SimplifyNth(o, target, m);
      (If(x, ts, os), k)
    case While(c, bound, body) => var (b, n) := SimplifyNth(body, target, counter); (While(c, bound, b), n)
    case Block(body) => var (b, n) := SimplifyNth(body, target, counter); (Block(b), n)
    case Region(name, body) => var (b, n) := SimplifyNth(body, target, counter); (Region(name, b), n)
    case _ => (s, counter)
  }

  function SimplifyNth(stmts: seq<Stmt>, target: nat, counter: nat): (r: (seq<Stmt>, nat))
    ensures r.1 >= counter && |r.0| == |stmts|
    decreases stmts
  {
    if stmts == [] then ([], counter)
    else
      var (s, n) := SimplifyStmt(stmts[0], target, counter);
      var (rest, m) := SimplifyNth(stmts[1..], target, n);
      ([s] + rest, m)
  }

  function Simplified(stmts: seq<Stmt>, target: nat): seq<Stmt> {
    SimplifyNth(stmts, target, 0).0
  }

  // -- what shrinks -------------------------------------------------------------------------------

  function Size(s: Stmt): (n: nat)
    ensures n > 0
  {
    match s
    case If(_, t, o) => 1 + Sizes(t) + Sizes(o)
    case While(_, _, body) => 1 + Sizes(body)
    case Block(body) => 1 + Sizes(body)
    case Region(_, body) => 1 + Sizes(body)
    case _ => 1
  }

  function Sizes(stmts: seq<Stmt>): nat {
    if stmts == [] then 0 else Size(stmts[0]) + Sizes(stmts[1..])
  }

  /** Nodes that are not literals. */
  function Open(e: Expr): nat {
    match e
    case Lit(_) => 0
    case Var(_) => 1
    case Bin(_, a, b) => 1 + Open(a) + Open(b)
    case Cmp(_, a, b) => 1 + Open(a) + Open(b)
    case IfVal(c, a, b) => 1 + Open(c) + Open(a) + Open(b)
    case Call(_, args) => 1 + OpenArgs(args)
    case Group(inner) => 1 + Open(inner)
  }

  function OpenArgs(args: seq<Expr>): nat {
    if args == [] then 0 else Open(args[0]) + OpenArgs(args[1..])
  }

  function OpenStmt(s: Stmt): nat {
    match s
    case LetStmt(_, v) => Open(v)
    case VarStmt(_, v) => Open(v)
    case Assign(_, v) => Open(v)
    case Print(_, v) => Open(v)
    case If(cond, t, o) => Open(cond) + OpenStmts(t) + OpenStmts(o)
    case While(_, _, body) => OpenStmts(body)
    case Block(body) => OpenStmts(body)
    case Region(_, body) => OpenStmts(body)
    case _ => 0
  }

  function OpenStmts(stmts: seq<Stmt>): nat {
    if stmts == [] then 0 else OpenStmt(stmts[0]) + OpenStmts(stmts[1..])
  }

  lemma {:induction false} SizesAppend(a: seq<Stmt>, b: seq<Stmt>)
    ensures Sizes(a + b) == Sizes(a) + Sizes(b)
  {
    if a == [] {
      assert a + b == b;
    } else {
      assert (a + b)[1..] == a[1..] + b;
      SizesAppend(a[1..], b);
    }
  }

  lemma SizesAround(stmts: seq<Stmt>, k: nat, middle: seq<Stmt>)
    requires k < |stmts|
    ensures Sizes(stmts[..k] + middle + stmts[k + 1..]) + Size(stmts[k]) == Sizes(stmts) + Sizes(middle)
  {
    SizesAppend(stmts[..k] + middle, stmts[k + 1..]);
    SizesAppend(stmts[..k], middle);
    assert stmts == stmts[..k] + stmts[k..];
    SizesAppend(stmts[..k], stmts[k..]);
    assert stmts[k..][1..] == stmts[k + 1..];
  }

  /** An edit that changes anything leaves fewer statements. */
  lemma {:induction false} EditShrinks(stmts: seq<Stmt>, path: seq<nat>, unwrap: bool)
    ensures Rebuild(stmts, path, unwrap) == stmts || Sizes(Rebuild(stmts, path, unwrap)) < Sizes(stmts)
    decreases |path|, 0
  {
    if path != [] && path[0] < |stmts| {
      var s, rest := stmts[path[0]], path[1..];
      SizesAround(stmts, path[0], RebuildAt(s, rest, unwrap));
      if rest == [] {
        KeptIsSmaller(s, unwrap);
        assert stmts[..path[0]] + [s] + stmts[path[0] + 1..] == stmts;
      } else {
        InsideShrinks(s, rest, unwrap);
        assert Sizes([RebuildInside(s, rest, unwrap)]) == Size(RebuildInside(s, rest, unwrap));
        assert stmts[..path[0]] + [s] + stmts[path[0] + 1..] == stmts;
      }
    }
  }

  lemma KeptIsSmaller(s: Stmt, unwrap: bool)
    ensures RebuildAt(s, [], unwrap) == [s] || Sizes(RebuildAt(s, [], unwrap)) < Size(s)
  {
    if s.If? {
      SizesAppend(s.then_, s.otherwise);
    }
  }

  lemma {:induction false} InsideShrinks(s: Stmt, rest: seq<nat>, unwrap: bool)
    ensures RebuildInside(s, rest, unwrap) == s || Size(RebuildInside(s, rest, unwrap)) < Size(s)
    decreases |rest|, 1
  {
    if s.If? {
      EditShrinks(s.then_, rest, unwrap);
      EditShrinks(s.otherwise, rest, unwrap);
    } else if HasBody(s) {
      EditShrinks(s.body, rest, unwrap);
    }
  }

  lemma {:induction false} ExprSimplifies(e: Expr, target: nat, counter: nat)
    ensures var x := SimplifyExpr(e, target, counter).0; x == e || Open(x) < Open(e)
    decreases e
  {
    if !(counter == target && !e.Lit?) {
      match e
      case Bin(_, a, b) =>
        ExprSimplifies(a, target, counter + 1);
        ExprSimplifies(b, target, SimplifyExpr(a, target, counter + 1).1);
      case Cmp(_, a, b) =>
        ExprSimplifies(a, target, counter + 1);
        ExprSimplifies(b, target, SimplifyExpr(a, target, counter + 1).1);
      case IfVal(c, a, b) =>
        var (_, n) := SimplifyExpr(c, target, counter + 1);
        ExprSimplifies(c, target, counter + 1);
        ExprSimplifies(a, target, n);
        ExprSimplifies(b, target, SimplifyExpr(a, target, n).1);
      case Call(_, args) => ArgsSimplify(args, target, counter + 1);
      case Group(inner) => ExprSimplifies(inner, target, counter + 1);
      case _ =>
    }
  }

  lemma {:induction false} ArgsSimplify(args: seq<Expr>, target: nat, counter: nat)
    ensures var xs := SimplifyArgs(args, target, counter).0; xs == args || OpenArgs(xs) < OpenArgs(args)
    decreases args
  {
    if args != [] {
      ExprSimplifies(args[0], target, counter);
      ArgsSimplify(args[1..], target, SimplifyExpr(args[0], target, counter).1);
      assert [args[0]] + args[1..] == args;
    }
  }

  lemma {:induction false} StmtSimplifies(s: Stmt, target: nat, counter: nat)
    ensures var x := SimplifyStmt(s, target, counter).0; x == s || OpenStmt(x) < OpenStmt(s)
    ensures Size(SimplifyStmt(s, target, counter).0) == Size(s)
    decreases s
  {
    match s
    case LetStmt(_, v) => ExprSimplifies(v, target, counter);
    case VarStmt(_, v) => ExprSimplifies(v, target, counter);
    case Assign(_, v) => ExprSimplifies(v, target, counter);
    case Print(_, v) => ExprSimplifies(v, target, counter);
    case If(cond, t, o) =>
      var (_, n) := SimplifyExpr(cond, target, counter);
      ExprSimplifies(cond, target, counter);
      StmtsSimplify(t, target, n);
      StmtsSimplify(o, target, SimplifyNth(t, target, n).1);
    case While(_, _, body) => StmtsSimplify(body, target, counter);
    case Block(body) => StmtsSimplify(body, target, counter);
    case Region(_, body) => StmtsSimplify(body, target, counter);
    case _ =>
  }

  /** A simplification that changes anything leaves as many statements and fewer open nodes. */
  lemma {:induction false} StmtsSimplify(stmts: seq<Stmt>, target: nat, counter: nat)
    ensures var xs := SimplifyNth(stmts, target, counter).0; xs == stmts || OpenStmts(xs) < OpenStmts(stmts)
    ensures Sizes(SimplifyNth(stmts, target, counter).0) == Sizes(stmts)
    decreases stmts
  {
    if stmts != [] {
      StmtSimplifies(stmts[0], target, counter);
      StmtsSimplify(stmts[1..], target, SimplifyStmt(stmts[0], target, counter).1);
      assert [stmts[0]] + stmts[1..] == stmts;
    }
  }

  // -- what the steps reach -----------------------------------------------------------------------

  lemma {:induction false} OfferedAt(stmts: seq<Stmt>, index: nat, path: seq<nat>, k: nat)
    requires k < |stmts|
    ensures Remove(path + [index + k]) in EditsFrom(stmts, index, path)
    ensures stmts[k].If? || HasBody(stmts[k]) ==> Unwrap(path + [index + k]) in EditsFrom(stmts, index, path)
    decreases |stmts|
  {
    if k == 0 {
      var edits := EditsOf(stmts[0], path + [index]);
      assert edits[0] == Remove(path + [index]);
      assert stmts[0].If? || HasBody(stmts[0]) ==> edits[1] == Unwrap(path + [index]);
    } else {
      OfferedAt(stmts[1..], index + 1, path, k - 1);
    }
  }

  /** Every statement of `main` itself may be dropped, and every container there unwrapped. */
  lemma TopLevelIsReached(stmts: seq<Stmt>, k: nat)
    requires k < |stmts|
    ensures Remove([k]) in StmtEdits(stmts) && ApplyEdit(stmts, Remove([k])) == stmts[..k] + stmts[k + 1..]
    ensures stmts[k].If? || HasBody(stmts[k]) ==>
              Unwrap([k]) in StmtEdits(stmts) && ApplyEdit(stmts, Unwrap([k])) == stmts[..k] + Kept(stmts[k]) + stmts[k + 1..]
  {
    hide EditsFrom;
    var nowhere: seq<nat>, here: seq<nat> := [], [k];
    OfferedAt(stmts, 0, nowhere, k);
    assert nowhere + [0 + k] == here && here[1..] == nowhere;
    assert RebuildAt(stmts[k], nowhere, false) == [] && RebuildAt(stmts[k], nowhere, true) == Kept(stmts[k]);
    assert stmts[..k] + [] == stmts[..k];
  }

  lemma {:induction false} PassesOver(stmts: seq<Stmt>, target: nat, counter: nat)
    requires target >= counter + CountExprs(stmts) || target < counter
    ensures SimplifyNth(stmts, target, counter) == (stmts, counter + CountExprs(stmts))
    decreases stmts
  {
    if stmts != [] {
      PassesStmt(stmts[0], target, counter);
      PassesOver(stmts[1..], target, counter + CountStmt(stmts[0]));
      assert [stmts[0]] + stmts[1..] == stmts;
    }
  }

  lemma {:induction false} PassesStmt(s: Stmt, target: nat, counter: nat)
    requires target >= counter + CountStmt(s) || target < counter
    ensures SimplifyStmt(s, target, counter) == (s, counter + CountStmt(s))
    decreases s
  {
    match s
    case LetStmt(_, v) => PassesExpr(v, target, counter);
    case VarStmt(_, v) => PassesExpr(v, target, counter);
    case Assign(_, v) => PassesExpr(v, target, counter);
    case Print(_, v) => PassesExpr(v, target, counter);
    case If(cond, t, o) =>
      PassesExpr(cond, target, counter);
      PassesOver(t, target, counter + CountExpr(cond));
      PassesOver(o, target, counter + CountExpr(cond) + CountExprs(t));
    case While(_, _, body) => PassesOver(body, target, counter);
    case Block(body) => PassesOver(body, target, counter);
    case Region(_, body) => PassesOver(body, target, counter);
    case _ =>
  }

  lemma {:induction false} PassesExpr(e: Expr, target: nat, counter: nat)
    requires target >= counter + CountExpr(e) || target < counter
    ensures SimplifyExpr(e, target, counter) == (e, counter + CountExpr(e))
    decreases e
  {
    match e
    case Bin(_, a, b) =>
      PassesExpr(a, target, counter + 1);
      PassesExpr(b, target, counter + 1 + CountExpr(a));
    case Cmp(_, a, b) =>
      PassesExpr(a, target, counter + 1);
      PassesExpr(b, target, counter + 1 + CountExpr(a));
    case IfVal(c, a, b) =>
      PassesExpr(c, target, counter + 1);
      PassesExpr(a, target, counter + 1 + CountExpr(c));
      PassesExpr(b, target, counter + 1 + CountExpr(c) + CountExpr(a));
    case Call(_, args) => PassesArgs(args, target, counter + 1);
    case Group(inner) => PassesExpr(inner, target, counter + 1);
    case _ =>
  }

  lemma {:induction false} PassesArgs(args: seq<Expr>, target: nat, counter: nat)
    requires target >= counter + CountArgs(args) || target < counter
    ensures SimplifyArgs(args, target, counter) == (args, counter + CountArgs(args))
    decreases args
  {
    if args != [] {
      PassesExpr(args[0], target, counter);
      PassesArgs(args[1..], target, counter + CountExpr(args[0]));
      assert [args[0]] + args[1..] == args;
    }
  }

  /** A statement of the second arm can stay although dropping it alone would do. */
  lemma ElseArmIsShadowed(a: Stmt, b: Stmt, cond: Expr)
    requires !a.If? && !HasBody(a) && !b.If? && !HasBody(b)
    ensures var main := [If(cond, [a], [b])];
            && StmtEdits(main) == [Remove([0]), Unwrap([0]), Remove([0, 0]), Remove([0, 0])]
            && ApplyEdit(main, Remove([0, 0])) == [If(cond, [], [b])]
            && forall e :: e in StmtEdits(main) ==> ApplyEdit(main, e) != [If(cond, [a], [])]
  {
    var main := [If(cond, [a], [b])];
    TwoArmEdits(a, b, cond);
    hide EditsFrom;
    TopLevelIsReached(main, 0);
    hide Rebuild;
    assert Rebuild(main, [0, 0], false) == [If(cond, [], [b])] by { FirstArmGoes(a, b, cond); }
    assert main[..0] + [] + main[1..] == [];
    assert main[..0] + ([a] + [b]) + main[1..] == [a, b];
  }

  lemma TwoArmEdits(a: Stmt, b: Stmt, cond: Expr)
    requires !a.If? && !HasBody(a) && !b.If? && !HasBody(b)
    ensures StmtEdits([If(cond, [a], [b])]) == [Remove([0]), Unwrap([0]), Remove([0, 0]), Remove([0, 0])]
  {
    var main := [If(cond, [a], [b])];
    var nowhere: seq<nat> := [];
    assert nowhere + [0] == [0] && [0] + [0] == [0, 0];
    OneEdit(a, [0]);
    OneEdit(b, [0]);
    hide EditsFrom;
    assert EditsOf(main[0], [0]) == [Remove([0]), Unwrap([0]), Remove([0, 0]), Remove([0, 0])];
    OnlyOne(main, nowhere);
  }

  lemma OnlyOne(main: seq<Stmt>, path: seq<nat>)
    requires |main| == 1
    ensures EditsFrom(main, 0, path) == EditsOf(main[0], path + [0])
  {
    hide EditsOf;
    assert main[1..] == [];
  }

  lemma FirstArmGoes(a: Stmt, b: Stmt, cond: Expr)
    ensures Rebuild([If(cond, [a], [b])], [0, 0], false) == [If(cond, [], [b])]
  {
    var path: seq<nat>, one: seq<nat>, nowhere: seq<nat> := [0, 0], [0], [];
    assert path[1..] == one && one[1..] == nowhere;
    assert Rebuild([a], one, false) == [];
  }

  lemma OneEdit(s: Stmt, path: seq<nat>)
    requires !s.If? && !HasBody(s)
    ensures EditsFrom([s], 0, path) == [Remove(path + [0])]
  {
    assert [s][1..] == [];
    assert EditsOf(s, path + [0]) == [Remove(path + [0])];
  }

  // -- reduction ---------------------------------------------------------------------------------------

  function WithoutFunc(p: Program, index: nat): Program
    requires index < |p.funcs|
  {
    p.(funcs := p.funcs[..index] + p.funcs[index + 1..])
  }

  /** No single step the reducer knows still satisfies the predicate. */
  ghost predicate NoHelperGoes(p: Program, keeps: Program -> bool) {
    forall k :: 0 <= k < |p.funcs| ==> !keeps(WithoutFunc(p, k))
  }

  ghost predicate NoEditGoes(p: Program, keeps: Program -> bool) {
    forall k :: 0 <= k < |StmtEdits(p.main)| ==>
      ApplyEdit(p.main, StmtEdits(p.main)[k]) == p.main
      || !keeps(p.(main := ApplyEdit(p.main, StmtEdits(p.main)[k])))
  }

  ghost predicate NothingSimplifies(p: Program, keeps: Program -> bool) {
    forall t: nat :: t < CountExprs(p.main) ==>
      Simplified(p.main, t) == p.main || !keeps(p.(main := Simplified(p.main, t)))
  }

  ghost predicate OneMinimal(p: Program, keeps: Program -> bool) {
    NoHelperGoes(p, keeps) && NoEditGoes(p, keeps) && NothingSimplifies(p, keeps)
  }

  /** `q` is what `p` is, or less: fewer helpers, then fewer statements, then fewer open nodes. */
  predicate NoLarger(q: Program, p: Program) {
    || q == p
    || |q.funcs| < |p.funcs|
    || (|q.funcs| == |p.funcs| && Sizes(q.main) < Sizes(p.main))
    || (|q.funcs| == |p.funcs| && Sizes(q.main) == Sizes(p.main) && OpenStmts(q.main) < OpenStmts(p.main))
  }

  /** Drops every helper that can go, last first. */
  method DropHelpers(p: Program, keeps: Program -> bool) returns (r: Program, progressed: bool)
    ensures r.main == p.main && r.mode == p.mode && NoLarger(r, p)
    ensures if progressed then |r.funcs| < |p.funcs| && keeps(r) else r == p && NoHelperGoes(p, keeps)
  {
    r, progressed := p, false;
    var index := |p.funcs|;
    while index > 0
      invariant 0 <= index <= |r.funcs| && r.main == p.main && r.mode == p.mode
      invariant if progressed then |r.funcs| < |p.funcs| && keeps(r)
                else r == p && forall k :: index <= k < |p.funcs| ==> !keeps(WithoutFunc(p, k))
    {
      index := index - 1;
      var candidate := WithoutFunc(r, index);
      if keeps(candidate) {
        r, progressed := candidate, true;
      }
    }
  }

  /** Applies the first offered edit that can go, if any. */
  method EditOnce(p: Program, keeps: Program -> bool) returns (r: Program, found: bool)
    ensures r.funcs == p.funcs && r.mode == p.mode
    ensures if found then Sizes(r.main) < Sizes(p.main) && keeps(r) else r == p && NoEditGoes(p, keeps)
  {
    hide ApplyEdit, Sizes;
    var edits := StmtEdits(p.main);
    var k := 0;
    while k < |edits|
      invariant 0 <= k <= |edits|
      invariant forall j :: 0 <= j < k ==>
                  ApplyEdit(p.main, edits[j]) == p.main || !keeps(p.(main := ApplyEdit(p.main, edits[j])))
    {
      var main := ApplyEdit(p.main, edits[k]);
      if main != p.main && keeps(p.(main := main)) {
        AppliedShrinks(p.main, edits[k]);
        return p.(main := main), true;
      }
      k := k + 1;
    }
    r, found := p, false;
  }

  lemma AppliedShrinks(stmts: seq<Stmt>, edit: Edit)
    ensures ApplyEdit(stmts, edit) == stmts || Sizes(ApplyEdit(stmts, edit)) < Sizes(stmts)
  {
    EditShrinks(stmts, edit.path, edit.Unwrap?);
  }

  /** Replaces the first expression that can go by a literal, if any. */
  method SimplifyOnce(p: Program, keeps: Program -> bool) returns (r: Program, found: bool)
    ensures r.funcs == p.funcs && r.mode == p.mode
    ensures if found then Sizes(r.main) == Sizes(p.main) && OpenStmts(r.main) < OpenStmts(p.main) && keeps(r)
            else r == p && NothingSimplifies(p, keeps)
  {
    hide SimplifyNth, CountExprs, Sizes, OpenStmts;
    var target := 0;
    while target < CountExprs(p.main)
      invariant 0 <= target <= CountExprs(p.main)
      invariant forall t: nat :: t < target ==> Simplified(p.main, t) == p.main || !keeps(p.(main := Simplified(p.main, t)))
    {
      var main := Simplified(p.main, target);
      if main != p.main && keeps(p.(main := main)) {
        StmtsSimplify(p.main, target, 0);
        return p.(main := main), true;
      }
      target := target + 1;
    }
    r, found := p, false;
  }

  /** Shrinks a program while `keeps` holds.  It stops, for every predicate; the result still
    satisfies a predicate the program satisfied; and no one step of the reducer's own would
    leave a smaller program that does. */
  method Reduce(program: Program, keeps: Program -> bool) returns (r: Program)
    ensures keeps(program) ==> keeps(r)
    ensures OneMinimal(r, keeps) && NoLarger(r, program) && r.mode == program.mode
  {
    hide OneMinimal, NoHelperGoes, NoEditGoes, NothingSimplifies, Sizes, OpenStmts;
    r := program;
    var progressed := true;
    while progressed
      invariant (keeps(program) ==> keeps(r)) && NoLarger(r, program) && r.mode == program.mode
      invariant !progressed ==> NoHelperGoes(r, keeps) && NoEditGoes(r, keeps) && NothingSimplifies(r, keeps)
      decreases progressed, |r.funcs|, Sizes(r.main), OpenStmts(r.main)
    {
      ghost var before := r;
      r, progressed := DropHelpers(r, keeps);
      var found := true;
      while found
        invariant (keeps(program) ==> keeps(r)) && r.mode == program.mode && r.funcs == r.funcs
        invariant NoLarger(r, before) && (progressed || r == before) && (!found ==> NoEditGoes(r, keeps))
        invariant r == before ==> NoHelperGoes(r, keeps)
        invariant progressed ==> r != before && NoLarger(r, before)
        decreases found, |r.funcs|, Sizes(r.main)
      {
        r, found := EditOnce(r, keeps);
        progressed := progressed || found;
      }
      found := true;
      while found
        invariant (keeps(program) ==> keeps(r)) && r.mode == program.mode
        invariant NoLarger(r, before) && (progressed || r == before) && (!found ==> NothingSimplifies(r, keeps))
        invariant r == before ==> NoHelperGoes(r, keeps) && NoEditGoes(r, keeps)
        invariant progressed ==> r != before
        decreases found, |r.funcs|, Sizes(r.main), OpenStmts(r.main)
      {
        r, found := SimplifyOnce(r, keeps);
        progressed := progressed || found;
      }
    }
    assert OneMinimal(r, keeps) by { Minimal(r, keeps); }
  }

  lemma Minimal(p: Program, keeps: Program -> bool)
    requires NoHelperGoes(p, keeps) && NoEditGoes(p, keeps) && NothingSimplifies(p, keeps)
    ensures OneMinimal(p, keeps)
  {
  }

  /** The reducer can therefore stop at a program that a single dropped statement would still
    make smaller: nothing it can do satisfies this predicate, and dropping `b` does. */
  lemma ReducerCanStopEarly(mode: Mode, cond: Expr, a: Stmt, b: Stmt) returns (p: Program, keeps: Program -> bool)
    requires !a.If? && !HasBody(a) && !b.If? && !HasBody(b)
    ensures p.main == [If(cond, [a], [b])] && keeps(p) && OneMinimal(p, keeps)
    ensures keeps(p.(main := [If(cond, [a], [])]))
  {
    p := Program(mode, [], [If(cond, [a], [b])]);
    var whole, less := [If(cond, [a], [b])], [If(cond, [a], [])];
    keeps := (q: Program) => q.main == whole || q.main == less;
    ElseArmIsShadowed(a, b, cond);
    forall t: nat | t < CountExprs(whole) ensures Simplified(whole, t) == whole || Simplified(whole, t) != less {
      StmtsSimplify(whole, t, 0);
      assert Sizes(whole) == 3 && Sizes(less) == 2 by { SmallSizes(cond, a, b); }
    }
    assert NoEditGoes(p, keeps);
  }

  lemma SmallSizes(cond: Expr, a: Stmt, b: Stmt)
    requires !a.If? && !HasBody(a) && !b.If? && !HasBody(b)
    ensures Sizes([If(cond, [a], [b])]) == 3 && Sizes([If(cond, [a], [])]) == 2
  {
    assert [a][1..] == [] && [b][1..] == [] && [If(cond, [a], [b])][1..] == [] && [If(cond, [a], [])][1..] == [];
    assert Size(a) == 1 && Size(b) == 1;
    assert Sizes([a]) == 1 && Sizes([b]) == 1;
  }
}
