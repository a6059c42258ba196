/** Running a generated program over unbounded integers.

  These are total functions: that Dafny accepts them is the proof that every well-formed
  program stops.  A call only reaches helpers before its own, and a loop's measure is the
  distance of its counter from its bound, which the body cannot touch. */
module FuzzEval {
  import opened FuzzTree
  import opened FuzzScope

  type Values = map<Name, int>

  /** Division that rounds toward zero, and the remainder that goes with it. */
  function Quotient(a: int, b: int): int
    requires b > 0
  {
    if a >= 0 then a / b else -((-a) / b)
  }

  function Operate(op: BinOp, a: int, b: int): int
    requires op == Div || op == Rem ==> b > 0
  {
    match op
    case Add => a + b
    case Sub => a - b
    case Mul => a * b
    case Div => Quotient(a, b)
    case Rem => a - b * Quotient(a, b)
  }

  function Holds(op: CmpOp, a: int, b: int): bool {
    match op
    case Lt => a < b
    case Gt => a > b
    case Eq => a == b
    case Ne => a != b
  }

  /** Which helper a call reaches. */
  function IndexOf(funcs: seq<Func>, sig: Sig): (k: nat)
    requires sig in Sigs(funcs)
    ensures k < |funcs| && SigOf(funcs[k]) == sig
    decreases |funcs|
  {
    var last := |funcs| - 1;
    assert exists j :: 0 <= j < |funcs| && Sigs(funcs)[j] == sig;
    if SigOf(funcs[last]) == sig then last
    else
      IsBefore(funcs, sig);
      IndexOf(funcs[..last], sig)
  }

  lemma IsBefore(funcs: seq<Func>, sig: Sig)
    requires sig in Sigs(funcs) && funcs != [] && SigOf(funcs[|funcs| - 1]) != sig
    ensures sig in Sigs(funcs[..|funcs| - 1])
  {
    var j :| 0 <= j < |funcs| && Sigs(funcs)[j] == sig;
    assert Sigs(funcs[..|funcs| - 1])[j] == sig;
  }

  function Bind(params: seq<Name>, args: seq<int>): (r: Values)
    requires |params| == |args|
    ensures r.Keys == Params(params)
    decreases |params|
  {
    if params == [] then map[]
    else
      var last := |params| - 1;
      ParamsLast(params);
      Bind(params[..last], args[..last])[params[last] := args[last]]
  }

  lemma ParamsLast(params: seq<Name>)
    requires params != []
    ensures Params(params) == Params(params[..|params| - 1]) + {params[|params| - 1]}
  {
    var last := |params| - 1;
    forall n | n in Params(params) ensures n in Params(params[..last]) + {params[last]} {
      var k :| 0 <= k < |params| && params[k] == n;
      if k < last {
        assert params[..last][k] == n;
      }
    }
    forall n | n in Params(params[..last]) ensures n in Params(params) {
      var k :| 0 <= k < last && params[..last][k] == n;
      assert params[k] == n;
    }
  }

  lemma EarlierAreScoped(funcs: seq<Func>, k: nat)
    requires ScopedFuncs(funcs) && k < |funcs|
    ensures ScopedFuncs(funcs[..k])
  {
    hide ScopedExpr;
    forall j | 0 <= j < k ensures ScopedFunc(funcs[..k], j) {
      assert ScopedFunc(funcs, j);
      assert funcs[..k][..j] == funcs[..j];
    }
  }

  // -- expressions --------------------------------------------------------------------------------

  function EvalExpr(e: Expr, names: set<Name>, vals: Values, funcs: seq<Func>, defined: bool): int
    requires ScopedFuncs(funcs) && names <= vals.Keys && ScopedExpr(e, names, Sigs(funcs), defined)
    decreases |funcs|, e
  {
    match e
    case Lit(n) => n
    case Var(name) => vals[name]
    case Bin(op, a, b) =>
      var x := EvalExpr(a, names, vals, funcs, defined);
      if op == Div || op == Rem then Operate(op, x, b.value) else Operate(op, x, EvalExpr(b, names, vals, funcs, defined))
    case IfVal(c, a, b) =>
      if EvalCond(c, names, vals, funcs, defined) then EvalExpr(a, names, vals, funcs, defined)
      else EvalExpr(b, names, vals, funcs, defined)
    case Call(f, args) =>
      var values := EvalArgs(args, names, vals, funcs, defined);
      var k := IndexOf(funcs, Sig(f, |args|, false));
      EarlierAreScoped(funcs, k);
      assert ScopedFunc(funcs, k);
      EvalExpr(funcs[k].body, Params(funcs[k].params), Bind(funcs[k].params, values), funcs[..k], true)
    case Group(inner) => EvalExpr(inner, names, vals, funcs, defined)
  }

  predicate EvalCond(e: Expr, names: set<Name>, vals: Values, funcs: seq<Func>, defined: bool)
    requires ScopedFuncs(funcs) && names <= vals.Keys && ScopedCond(e, names, Sigs(funcs), defined)
    decreases |funcs|, e
  {
    Holds(e.cmp, EvalExpr(e.left, names, vals, funcs, defined), EvalExpr(e.right, names, vals, funcs, defined))
  }

  function EvalArgs(args: seq<Expr>, names: set<Name>, vals: Values, funcs: seq<Func>, defined: bool): (r: seq<int>)
    requires ScopedFuncs(funcs) && names <= vals.Keys && ScopedArgs(args, names, Sigs(funcs), defined)
    ensures |r| == |args|
    decreases |funcs|, args
  {
    if args == [] then []
    else [EvalExpr(args[0], names, vals, funcs, defined)] + EvalArgs(args[1..], names, vals, funcs, defined)
  }

  // -- statements -----------------------------------------------------------------------------------

  /** Nothing but `touched` changed, and nothing was lost. */
  ghost predicate Spares(before: Values, after: Values, touched: set<Name>) {
    before.Keys <= after.Keys && forall n :: n in before && n !in touched ==> after[n] == before[n]
  }

  function ExecStmt(s: Stmt, env: Env, vals: Values, funcs: seq<Func>, defined: bool): (r: Values)
    requires ScopedFuncs(funcs) && Names(env) <= vals.Keys && ScopedStmt(s, env, Sigs(funcs), defined)
    ensures Names(EnvAfter(s, env)) <= r.Keys && Spares(vals, r, TargetsOf(s) + DeclaresOf(s))
    decreases s, 0
  {
    match s
    case LetStmt(name, value) =>
      NamesAppend(env, name, false);
      vals[name := EvalExpr(value, Names(env), vals, funcs, defined)]
    case VarStmt(name, value) =>
      NamesAppend(env, name, true);
      vals[name := EvalExpr(value, Names(env), vals, funcs, defined)]
    case Assign(name, value) => vals[name := EvalExpr(value, Names(env), vals, funcs, defined)]
    case Print(_, value) => vals
    case If(cond, t, o) =>
      if EvalCond(cond, Names(env), vals, funcs, defined) then ExecBlock(t, env, vals, funcs, defined)
      else ExecBlock(o, env, vals, funcs, defined)
    case While(counter, bound, body) => Loop(counter, bound, body, env, vals[counter := 0], funcs, defined)
    case Block(body) => ExecBlock(body, env, vals, funcs, defined)
    case Region(_, body) => ExecBlock(body, env, vals, funcs, defined)
    case Move(from, to, _) =>
      NamesAppend(env, to, false);
      vals[to := vals[from]]
    case CallMut(f, target) =>
      VariableIsNamed(env, target);
      var _ := MutatorResult(f, vals[target] + 1, funcs);
      vals[target := vals[target] + 1]
  }

  /** A mutating helper adds one to its parameter and returns its body's value, which the
    statement discards. */
  function MutatorResult(f: Name, argument: int, funcs: seq<Func>): int
    requires ScopedFuncs(funcs) && Sig(f, 1, true) in Sigs(funcs)
  {
    var k := IndexOf(funcs, Sig(f, 1, true));
    EarlierAreScoped(funcs, k);
    assert ScopedFunc(funcs, k);
    EvalExpr(funcs[k].body, Params(funcs[k].params), Bind(funcs[k].params, [argument]), funcs[..k], true)
  }

  function ExecBlock(stmts: seq<Stmt>, env: Env, vals: Values, funcs: seq<Func>, defined: bool): (r: Values)
    requires ScopedFuncs(funcs) && Names(env) <= vals.Keys && ScopedBlock(stmts, env, Sigs(funcs), defined)
    ensures Names(EnvAfterAll(stmts, env)) <= r.Keys && Spares(vals, r, Targets(stmts) + Declares(stmts))
    decreases stmts, 0
  {
    if stmts == [] then vals
    else
      var next := ExecStmt(stmts[0], env, vals, funcs, defined);
      ExecBlock(stmts[1..], EnvAfter(stmts[0], env), next, funcs, defined)
  }

  /** `while counter < bound { body; counter = counter + 1 }`. */
  function Loop(counter: Name, bound: int, body: seq<Stmt>, env: Env, vals: Values, funcs: seq<Func>,
                defined: bool): (r: Values)
    requires ScopedFuncs(funcs) && Names(env) <= vals.Keys && ScopedBlock(body, env, Sigs(funcs), defined)
    requires counter in vals && counter !in Targets(body) && counter !in Declares(body)
    ensures Spares(vals, r, Targets(body) + Declares(body) + {counter})
    ensures r[counter] == if vals[counter] < bound then bound else vals[counter]
    decreases body, 1, if vals[counter] < bound then bound - vals[counter] else 0
  {
    if vals[counter] >= bound then vals
    else
      var after := ExecBlock(body, env, vals, funcs, defined);
      Loop(counter, bound, body, env, after[counter := after[counter] + 1], funcs, defined)
  }

  /** Runs a program's main body; every helper, loop and block of it stops, and what is in scope
    at the end has a value. */
  function Run(p: Program): (r: Values)
    requires WellFormed(p)
    ensures Names(EnvAfterAll(p.main, [])) <= r.Keys
  {
    assert Names([]) == {};
    ExecBlock(p.main, [], map[], p.funcs, p.mode == Defined)
  }
}
