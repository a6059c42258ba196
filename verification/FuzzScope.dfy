/** When a generated program is well-formed, judged on the tree alone. */
module FuzzScope {
  import opened FuzzTree

  datatype Sig = Sig(name: Name, arity: nat, mutates: bool)

  /** The names in scope, each with whether it is a `var`. */
  type Env = seq<(Name, bool)>

  function Names(env: Env): set<Name> {
    set k | 0 <= k < |env| :: env[k].0
  }

  function Params(names: seq<Name>): set<Name> {
    set k | 0 <= k < |names| :: names[k]
  }

  predicate IsVariable(env: Env, name: Name) {
    (name, true) in env && (name, false) !in env
  }

  /** A call fits a helper that does not mutate. */
  predicate Fits(sigs: seq<Sig>, func: Name, arity: nat) {
    Sig(func, arity, false) in sigs
  }

  /** Every variable is in scope, every call goes to a known helper with its arity, every
    divisor is a nonzero literal; products are of literals where overflow must be impossible. */
  predicate ScopedExpr(e: Expr, names: set<Name>, sigs: seq<Sig>, defined: bool) {
    match e
    case Lit(_) => true
    case Var(name) => name in names
    case Bin(op, a, b) =>
      && ScopedExpr(a, names, sigs, defined) && ScopedExpr(b, names, sigs, defined)
      && (op == Div || op == Rem ==> b.Lit? && 1 <= b.value <= 9)
      && (op == Mul && defined ==> a.Lit? && b.Lit? && 0 <= a.value < 10 && 0 <= b.value < 10)
    case IfVal(c, a, b) =>
      ScopedCond(c, names, sigs, defined) && ScopedExpr(a, names, sigs, defined) && ScopedExpr(b, names, sigs, defined)
    case Call(f, args) => Fits(sigs, f, |args|) && ScopedArgs(args, names, sigs, defined)
    case Cmp(_, _, _) => false
    case Group(inner) => ScopedExpr(inner, names, sigs, defined)
  }

  predicate ScopedCond(e: Expr, names: set<Name>, sigs: seq<Sig>, defined: bool) {
    e.Cmp? && ScopedExpr(e.left, names, sigs, defined) && ScopedExpr(e.right, names, sigs, defined)
  }

  predicate ScopedArgs(args: seq<Expr>, names: set<Name>, sigs: seq<Sig>, defined: bool) {
    args == [] || (ScopedExpr(args[0], names, sigs, defined) && ScopedArgs(args[1..], names, sigs, defined))
  }

  function EnvAfter(s: Stmt, env: Env): Env {
    match s
    case LetStmt(name, _) => env + [(name, false)]
    case VarStmt(name, _) => env + [(name, true)]
    case Move(_, to, _) => env + [(to, false)]
    case _ => env
  }

  /** A statement in its scope.  Declarations never shadow, assignments and `mut` targets are
    variables in scope, and no loop's body assigns its counter. */
  predicate ScopedStmt(s: Stmt, env: Env, sigs: seq<Sig>, defined: bool) {
    var names := Names(env);
    match s
    case LetStmt(name, value) => name !in names && ScopedExpr(value, names, sigs, defined)
    case VarStmt(name, value) => name !in names && ScopedExpr(value, names, sigs, defined)
    case Assign(name, value) => IsVariable(env, name) && ScopedExpr(value, names, sigs, defined)
    case Print(_, value) => ScopedExpr(value, names, sigs, defined)
    case If(cond, t, o) =>
      ScopedCond(cond, names, sigs, defined) && ScopedBlock(t, env, sigs, defined) && ScopedBlock(o, env, sigs, defined)
    case While(counter, bound, body) =>
      counter !in names && 1 <= bound <= 6 && ScopedBlock(body, env, sigs, defined)
      && counter !in Targets(body) && counter !in Declares(body)
    case Block(body) => ScopedBlock(body, env, sigs, defined)
    case Region(_, body) => !defined && ScopedBlock(body, env, sigs, defined)
    case Move(from, to, _) => !defined && from in names && to !in names
    case CallMut(f, target) => !defined && Sig(f, 1, true) in sigs && IsVariable(env, target)
  }

  predicate ScopedBlock(stmts: seq<Stmt>, env: Env, sigs: seq<Sig>, defined: bool) {
    stmts == []
    || (ScopedStmt(stmts[0], env, sigs, defined) && ScopedBlock(stmts[1..], EnvAfter(stmts[0], env), sigs, defined))
  }

  /** The variables a block assigns, at any depth. */
  function Targets(stmts: seq<Stmt>): set<Name> {
    if stmts == [] then {} else TargetsOf(stmts[0]) + Targets(stmts[1..])
  }

  function TargetsOf(s: Stmt): set<Name> {
    match s
    case Assign(name, _) => {name}
    case CallMut(_, target) => {target}
    case If(_, t, o) => Targets(t) + Targets(o)
    case While(_, _, body) => Targets(body)
    case Block(body) => Targets(body)
    case Region(_, body) => Targets(body)
    case _ => {}
  }

  /** The values a block declares, loop counters included, at any depth. */
  function Declares(stmts: seq<Stmt>): set<Name> {
    if stmts == [] then {} else DeclaresOf(stmts[0]) + Declares(stmts[1..])
  }

  function DeclaresOf(s: Stmt): set<Name> {
    match s
    case LetStmt(name, _) => {name}
    case VarStmt(name, _) => {name}
    case Move(_, to, _) => {to}
    case If(_, t, o) => Declares(t) + Declares(o)
    case While(counter, _, body) => {counter} + Declares(body)
    case Block(body) => Declares(body)
    case Region(_, body) => Declares(body)
    case _ => {}
  }

  function SigOf(f: Func): Sig {
    Sig(f.name, |f.params|, f.mutates)
  }

  function Sigs(funcs: seq<Func>): (r: seq<Sig>)
    ensures |r| == |funcs| && forall k :: 0 <= k < |r| ==> r[k] == SigOf(funcs[k])
  {
    seq(|funcs|, k requires 0 <= k < |funcs| => SigOf(funcs[k]))
  }

  /** Helpers have names and parameters of their own and call only helpers before them. */
  predicate ScopedFunc(funcs: seq<Func>, k: nat)
    requires k < |funcs|
  {
    var f := funcs[k];
    && (forall j :: 0 <= j < k ==> funcs[j].name != f.name)
    && (forall i, j :: 0 <= i < j < |f.params| ==> f.params[i] != f.params[j])
    && ScopedExpr(f.body, Params(f.params), Sigs(funcs[..k]), true)
    && (f.mutates ==> |f.params| == 1)
  }

  ghost predicate ScopedFuncs(funcs: seq<Func>) {
    forall k :: 0 <= k < |funcs| ==> ScopedFunc(funcs, k)
  }

  ghost predicate WellFormed(p: Program) {
    && ScopedFuncs(p.funcs)
    && (p.mode == Defined ==> forall k :: 0 <= k < |p.funcs| ==> !p.funcs[k].mutates)
    && ScopedBlock(p.main, [], Sigs(p.funcs), p.mode == Defined)
    && p.main != [] && p.main[|p.main| - 1].Print?
  }

  // -- growing blocks --------------------------------------------------------------------------

  function EnvAfterAll(stmts: seq<Stmt>, env: Env): Env {
    if stmts == [] then env else EnvAfterAll(stmts[1..], EnvAfter(stmts[0], env))
  }

  lemma {:induction false} BlockGrows(stmts: seq<Stmt>, s: Stmt, env: Env, sigs: seq<Sig>, defined: bool)
    requires ScopedBlock(stmts, env, sigs, defined)
    requires ScopedStmt(s, EnvAfterAll(stmts, env), sigs, defined)
    ensures ScopedBlock(stmts + [s], env, sigs, defined)
    ensures EnvAfterAll(stmts + [s], env) == EnvAfter(s, EnvAfterAll(stmts, env))
    ensures Targets(stmts + [s]) == Targets(stmts) + TargetsOf(s)
    ensures Declares(stmts + [s]) == Declares(stmts) + DeclaresOf(s)
    decreases |stmts|
  {
    var all := stmts + [s];
    if stmts == [] {
      assert all[1..] == [];
    } else {
      assert all[1..] == stmts[1..] + [s];
      BlockGrows(stmts[1..], s, EnvAfter(stmts[0], env), sigs, defined);
    }
  }

  lemma NamesAppend(env: Env, name: Name, isVar: bool)
    ensures Names(env + [(name, isVar)]) == Names(env) + {name}
  {
    var more := env + [(name, isVar)];
    assert more[|env|].0 == name;
    assert forall k :: 0 <= k < |env| ==> more[k] == env[k];
    forall n | n in Names(env) ensures n in Names(more) {
      var k :| 0 <= k < |env| && env[k].0 == n;
      assert more[k].0 == n;
    }
  }

  lemma VariableIsNamed(env: Env, name: Name)
    requires IsVariable(env, name)
    ensures name in Names(env)
  {
    var k :| 0 <= k < |env| && env[k] == (name, true);
    assert env[k].0 == name;
  }

  /** What a well-scoped block assigns was in scope or is its own. */
  lemma {:induction false} TargetsAreKnown(stmts: seq<Stmt>, env: Env, sigs: seq<Sig>, defined: bool)
    requires ScopedBlock(stmts, env, sigs, defined)
    ensures Targets(stmts) <= Names(env) + Declares(stmts)
    decreases stmts
  {
    if stmts != [] {
      TargetsOfAreKnown(stmts[0], env, sigs, defined);
      TargetsAreKnown(stmts[1..], EnvAfter(stmts[0], env), sigs, defined);
      match stmts[0]
      case LetStmt(name, _) => NamesAppend(env, name, false);
      case VarStmt(name, _) => NamesAppend(env, name, true);
      case Move(_, to, _) => NamesAppend(env, to, false);
      case _ =>
    }
  }

  lemma {:induction false} TargetsOfAreKnown(s: Stmt, env: Env, sigs: seq<Sig>, defined: bool)
    requires ScopedStmt(s, env, sigs, defined)
    ensures TargetsOf(s) <= Names(env) + DeclaresOf(s)
    decreases s
  {
    match s
    case Assign(name, _) => VariableIsNamed(env, name);
    case CallMut(_, target) => VariableIsNamed(env, target);
    case If(_, t, o) =>
      TargetsAreKnown(t, env, sigs, defined);
      TargetsAreKnown(o, env, sigs, defined);
    case While(_, _, body) => TargetsAreKnown(body, env, sigs, defined);
    case Block(body) => TargetsAreKnown(body, env, sigs, defined);
    case Region(_, body) => TargetsAreKnown(body, env, sigs, defined);
    case _ =>
  }
}
