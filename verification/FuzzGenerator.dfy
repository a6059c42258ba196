/** The program generator: one object drawing from a random stream while it tracks the names
  in scope.  Whatever the stream holds, it stops with the program that the stream stands for,
  and that is well-formed. */
module FuzzGenerator {
  import opened FuzzTree
  import opened FuzzScope
  import opened FuzzDraws

  /** The numbers below `bound` are all that `env` uses. */
  predicate Below(env: Env, bound: nat) {
    forall n :: n in Names(env) ==> n.index < bound
  }

  predicate Between(names: set<Name>, low: nat, high: nat) {
    forall n :: n in names ==> low <= n.index < high
  }

  /** No name is both a `let` and a `var`. */
  predicate Distinct(env: Env) {
    forall i, j :: 0 <= i < j < |env| ==> env[i].0 != env[j].0
  }

  lemma FreshIsNew(env: Env, name: Name, isVar: bool)
    requires Below(env, name.index) && Distinct(env)
    ensures name !in Names(env) && Distinct(env + [(name, isVar)]) && Below(env + [(name, isVar)], name.index + 1)
  {
    NamesAppend(env, name, isVar);
    forall i | 0 <= i < |env| ensures env[i].0 != name {
      assert env[i].0 in Names(env);
    }
  }

  class Generator {
    /** The raw draws; one is consumed at each step. */
    const stream: nat -> nat
    const mode: Mode

    var drawn: nat
    var live: Env
    var sigs: seq<Sig>
    var nextName: nat
    var depth: nat

    ghost predicate Valid()
      reads this
    {
      Below(live, nextName) && Distinct(live) && depth <= 2 && MutatorsAreUnary(sigs)
    }

    constructor (stream: nat -> nat, mode: Mode)
      ensures Valid() && this.stream == stream && this.mode == mode && live == [] && sigs == [] && depth == 0
      ensures drawn == 0 && nextName == 0
    {
      this.stream, this.mode := stream, mode;
      drawn, live, sigs, nextName, depth := 0, [], [], 0, 0;
    }

    /** Uniform in `0..n`. */
    method Draw(n: nat) returns (k: nat)
      requires n > 0
      modifies this`drawn
      ensures k < n && k == stream(old(drawn)) % n && drawn == old(drawn) + 1
    {
      k := stream(drawn) % n;
      drawn := drawn + 1;
    }

    method Chance(num: nat, den: nat) returns (yes: bool)
      requires den > 0
      modifies this`drawn
      ensures yes <==> stream(old(drawn)) % den < num
      ensures drawn == old(drawn) + 1
    {
      var k := Draw(den);
      yes := k < num;
    }

    method NewName(prefix: char) returns (name: Name)
      modifies this`nextName
      ensures name == Name(prefix, old(nextName)) && nextName == old(nextName) + 1
    {
      name := Name(prefix, nextName);
      nextName := nextName + 1;
    }

    // -- expressions --------------------------------------------------------------------------

    method Leaf(names: seq<Name>) returns (e: Expr)
      modifies this`drawn
      ensures ScopedExpr(e, Params(names), sigs, true) && ScopedExpr(e, Params(names), sigs, false)
      ensures Drawn(e, drawn) == LeafFrom(stream, old(drawn), names)
    {
      if names != [] {
        var variable := Chance(1, 2);
        if variable {
          var k := Draw(|names|);
          return Var(names[k]);
        }
      }
      var n := Draw(50);
      e := Lit(n);
    }

    method GenExpr(names: seq<Name>, fuel: nat, defined: bool) returns (e: Expr)
      modifies this`drawn
      ensures ScopedExpr(e, Params(names), sigs, defined)
      ensures Drawn(e, drawn) == ExprFrom(stream, old(drawn), names, sigs, fuel, defined)
      decreases fuel, 1
    {
      hide LeafFrom, BinFrom, CondFrom, ArgsFrom, ScopedArgs, ScopedCond;
      if fuel == 0 {
        e := Leaf(names);
        return;
      }
      var choice := Draw(8);
      if choice <= 1 {
        e := Leaf(names);
      } else if choice <= 4 {
        e := GenBin(names, fuel, defined);
      } else if choice == 5 {
        var c := GenCond(names, fuel - 1, defined);
        var a := GenExpr(names, fuel - 1, defined);
        var b := GenExpr(names, fuel - 1, defined);
        e := IfVal(c, a, b);
      } else if choice == 6 && sigs != [] {
        var k := Draw(|sigs|);
        if sigs[k].mutates {
          e := Leaf(names);
        } else {
          var args := GenArgs(names, sigs[k].arity, if fuel < 2 then 0 else fuel - 2, defined);
          assert sigs[k] == Sig(sigs[k].name, |args|, false);
          e := Call(sigs[k].name, args);
        }
      } else {
        var inner := GenExpr(names, fuel - 1, defined);
        e := Group(inner);
      }
    }

    method GenBin(names: seq<Name>, fuel: nat, defined: bool) returns (e: Expr)
      requires fuel > 0
      modifies this`drawn
      ensures ScopedExpr(e, Params(names), sigs, defined)
      ensures Drawn(e, drawn) == BinFrom(stream, old(drawn), names, sigs, fuel, defined)
      decreases fuel, 0
    {
      hide ExprFrom;
      var k := Draw(5);
      var op := if k == 0 then Add else if k == 1 then Sub else if k == 2 then Mul else if k == 3 then Div else Rem;
      if op == Div || op == Rem {
        var left := GenExpr(names, fuel - 1, defined);
        var divisor := Draw(9);
        e := Bin(op, left, Lit(1 + divisor));
      } else if op == Mul && defined {
        var left := Draw(10);
        var right := Draw(10);
        e := Bin(op, Lit(left), Lit(right));
      } else {
        var left := GenExpr(names, fuel - 1, defined);
        var right := GenExpr(names, fuel - 1, defined);
        e := Bin(op, left, right);
      }
    }

    method GenArgs(names: seq<Name>, arity: nat, fuel: nat, defined: bool) returns (args: seq<Expr>)
      modifies this`drawn
      ensures |args| == arity && ScopedArgs(args, Params(names), sigs, defined)
      ensures Drawn(args, drawn) == ArgsFrom(stream, old(drawn), names, sigs, arity, fuel, defined)
      decreases fuel, 2
    {
      args := [];
      while |args| < arity
        invariant |args| <= arity && ScopedArgs(args, Params(names), sigs, defined)
        invariant Drawn(args, drawn) == ArgsFrom(stream, old(drawn), names, sigs, |args|, fuel, defined)
      {
        var arg := GenExpr(names, fuel, defined);
        ArgsGrow(args, arg, Params(names), sigs, defined);
        args := args + [arg];
      }
    }

    method GenCond(names: seq<Name>, fuel: nat, defined: bool) returns (e: Expr)
      modifies this`drawn
      ensures ScopedCond(e, Params(names), sigs, defined)
      ensures Drawn(e, drawn) == CondFrom(stream, old(drawn), names, sigs, fuel, defined)
      decreases fuel, 2
    {
      var k := Draw(4);
      var op := if k == 0 then Lt else if k == 1 then Gt else if k == 2 then Eq else Ne;
      var left := GenExpr(names, fuel, defined);
      var right := GenExpr(names, fuel, defined);
      e := Cmp(op, left, right);
    }

    // -- statements -----------------------------------------------------------------------------

    /** The names in scope, and those of them that are variables. */
    method LiveNames() returns (names: seq<Name>, vars: seq<Name>)
      requires Distinct(live)
      ensures Params(names) == Names(live)
      ensures forall k :: 0 <= k < |vars| ==> IsVariable(live, vars[k])
      ensures names == NamesIn(live) && vars == VarsIn(live)
    {
      names, vars := [], [];
      var k := 0;
      while k < |live|
        invariant 0 <= k <= |live| && |names| == k
        invariant forall j :: 0 <= j < k ==> names[j] == live[j].0
        invariant forall j :: 0 <= j < |vars| ==> IsVariable(live, vars[j])
        invariant vars == VarsIn(live[..k])
      {
        assert live[..k + 1][..k] == live[..k];
        names := names + [live[k].0];
        if live[k].1 {
          OnlyOnce(live, k);
          vars := vars + [live[k].0];
        }
        k := k + 1;
      }
      assert live[..k] == live;
      SameNames(names, live);
    }

    /** The names in scope, the next number and the depth. */
    function Here(): Scope
      reads this
    {
      Scope(live, nextName, depth)
    }

    /** What every statement leaves behind. */
    twostate predicate Stepped(s: Stmt)
      reads this
    {
      && Valid() && live == EnvAfter(s, old(live)) && sigs == old(sigs) && depth == old(depth)
      && old(nextName) <= nextName
      && ScopedStmt(s, old(live), sigs, mode == Defined)
      && Between(DeclaresOf(s), old(nextName), nextName)
    }

    method GenLet(names: seq<Name>, fuel: nat, prefix: char, isVar: bool) returns (s: Stmt)
      requires Valid() && Params(names) == Names(live) && names == NamesIn(live)
      requires prefix == if isVar then 'v' else 'x'
      modifies this
      ensures Stepped(s)
      ensures Made(s, Here(), drawn) == DeclareFrom(stream, old(drawn), old(Here()), old(sigs), mode, fuel, isVar)
    {
      hide ScopedExpr, ExprFrom;
      var name := NewName(prefix);
      var value := GenExpr(names, fuel, mode == Defined);
      FreshIsNew(live, name, isVar);
      s := if isVar then VarStmt(name, value) else LetStmt(name, value);
      live := live + [(name, isVar)];
    }

    method GenStmt() returns (s: Stmt)
      requires Valid()
      modifies this
      ensures Stepped(s)
      ensures Made(s, Here(), drawn) == StmtFrom(stream, old(drawn), old(Here()), old(sigs), mode)
      decreases 2 - depth, 1
    {
      hide ScopedExpr, ScopedStmt, Between, DeclareFrom, AssignFrom, IfFrom, WhileFrom, BlockFrom, RegionFrom, MoveFrom,
           CallMutFrom;
      var names, vars := LiveNames();
      var boundary := mode == Boundary;
      var choice := Draw(if boundary then 10 else 7);
      if choice <= 1 {
        s := GenLet(names, 3, 'x', false);
      } else if choice == 2 {
        s := GenLet(names, 2, 'v', true);
      } else if choice == 3 {
        if vars == [] {
          s := GenLet(names, 2, 'x', false);
        } else {
          s := GenAssign(names, vars);
        }
      } else if choice == 4 && depth < 2 {
        s := GenIf(names);
      } else if choice == 5 && depth < 2 {
        s := GenWhile();
      } else if choice == 6 && depth < 2 {
        s := GenBlock();
      } else if choice == 7 && boundary && depth < 2 {
        s := GenRegion();
      } else if choice == 8 && boundary && names != [] {
        s := GenMove(names);
      } else if boundary {
        s := GenCallMut(names, vars);
      } else {
        s := GenLet(names, 3, 'x', false);
      }
    }

    method GenAssign(names: seq<Name>, vars: seq<Name>) returns (s: Stmt)
      requires Valid() && Params(names) == Names(live) && vars != []
      requires forall k :: 0 <= k < |vars| ==> IsVariable(live, vars[k])
      requires names == NamesIn(live) && vars == VarsIn(live)
      modifies this`drawn
      ensures Stepped(s)
      ensures Made(s, Here(), drawn) == AssignFrom(stream, old(drawn), old(Here()), old(sigs), mode)
    {
      hide ScopedExpr, ExprFrom;
      var k := Draw(|vars|);
      var value := GenExpr(names, 2, mode == Defined);
      s := Assign(vars[k], value);
    }

    /** One statement in a scope of its own. */
    method GenNested() returns (body: seq<Stmt>)
      requires Valid() && 0 < depth
      modifies this
      ensures Valid() && live == old(live) && sigs == old(sigs) && depth == old(depth) && old(nextName) <= nextName
      ensures ScopedBlock(body, live, sigs, mode == Defined) && Between(Declares(body), old(nextName), nextName)
      ensures Made(body, Here(), drawn) == NestedFrom(stream, old(drawn), old(Here()), old(sigs), mode)
      decreases 2 - depth, 2
    {
      hide ScopedStmt, Between, Below, Distinct, StmtFrom;
      var visible := live;
      ghost var bound := nextName;
      var s := GenStmt();
      live := visible;
      body := [s];
      OneInBlock(s, live, sigs, mode == Defined);
      BelowLater(live, bound, nextName);
    }

    method GenIf(names: seq<Name>) returns (s: Stmt)
      requires Valid() && Params(names) == Names(live) && names == NamesIn(live) && depth < 2
      modifies this
      ensures Stepped(s)
      ensures Made(s, Here(), drawn) == IfFrom(stream, old(drawn), old(Here()), old(sigs), mode)
      decreases 2 - depth, 0
    {
      hide ScopedCond, ScopedBlock, Below, Distinct, CondFrom, StmtFrom;
      depth := depth + 1;
      var cond := GenCond(names, 1, mode == Defined);
      var first := nextName;
      var then_ := GenNested();
      ghost var middle := nextName;
      var two := Chance(1, 2);
      var otherwise: seq<Stmt> := [];
      if two {
        otherwise := GenNested();
      } else {
        EmptyBlock(live, sigs, mode == Defined);
      }
      depth := depth - 1;
      s := If(cond, then_, otherwise);
    }

    method GenWhile() returns (s: Stmt)
      requires Valid() && depth < 2
      modifies this
      ensures Stepped(s)
      ensures Made(s, Here(), drawn) == WhileFrom(stream, old(drawn), old(Here()), old(sigs), mode)
      decreases 2 - depth, 0
    {
      hide ScopedBlock, Distinct, NestedFrom;
      depth := depth + 1;
      var counter := NewName('i');
      ghost var env := live;
      var body := GenNested();
      depth := depth - 1;
      var bound := Draw(6);
      s := While(counter, 1 + bound, body);
      TargetsAreKnown(body, env, sigs, mode == Defined);
    }

    method GenBlock() returns (s: Stmt)
      requires Valid() && depth < 2
      modifies this
      ensures Stepped(s)
      ensures Made(s, Here(), drawn) == BlockFrom(stream, old(drawn), old(Here()), old(sigs), mode)
      decreases 2 - depth, 0
    {
      hide ScopedStmt, Between, Below, Distinct, StmtFrom;
      depth := depth + 1;
      var visible := live;
      ghost var first := nextName;
      var a := GenStmt();
      ghost var middle := nextName;
      var b := GenStmt();
      live := visible;
      depth := depth - 1;
      s := Block([a, b]);
      TwoInBlock(a, b, live, sigs, mode == Defined);
      BelowLater(live, first, nextName);
      BetweenBoth(DeclaresOf(a), DeclaresOf(b), first, middle, nextName);
      assert ScopedStmt(s, live, sigs, mode == Defined) by { BlockIsScoped([a, b], live, sigs, mode == Defined); }
    }

    method GenRegion() returns (s: Stmt)
      requires Valid() && depth < 2 && mode == Boundary
      modifies this
      ensures Stepped(s)
      ensures Made(s, Here(), drawn) == RegionFrom(stream, old(drawn), old(Here()), old(sigs), mode)
      decreases 2 - depth, 0
    {
      hide ScopedBlock, Distinct, NestedFrom;
      depth := depth + 1;
      var name := NewName('r');
      var body := GenNested();
      depth := depth - 1;
      s := Region(name, body);
    }

    method GenMove(names: seq<Name>) returns (s: Stmt)
      requires Valid() && Params(names) == Names(live) && names == NamesIn(live) && names != [] && mode == Boundary
      modifies this
      ensures Stepped(s)
      ensures Made(s, Here(), drawn) == MoveFrom(stream, old(drawn), old(Here()))
    {
      var k := Draw(|names|);
      assert names[k] in Params(names);
      var to := NewName('m');
      var reinit := Chance(2, 3);
      FreshIsNew(live, to, false);
      s := Move(names[k], to, reinit);
      live := live + [(to, false)];
    }

    method GenCallMut(names: seq<Name>, vars: seq<Name>) returns (s: Stmt)
      requires Valid() && Params(names) == Names(live) && mode == Boundary
      requires forall k :: 0 <= k < |vars| ==> IsVariable(live, vars[k])
      requires names == NamesIn(live) && vars == VarsIn(live)
      modifies this
      ensures Stepped(s)
      ensures Made(s, Here(), drawn) == CallMutFrom(stream, old(drawn), old(Here()), old(sigs), mode)
    {
      var mutators: seq<Name> := [];
      var k := 0;
      while k < |sigs|
        invariant 0 <= k <= |sigs|
        invariant forall j :: 0 <= j < |mutators| ==> Sig(mutators[j], 1, true) in sigs
        invariant mutators == MutatorsIn(sigs[..k])
      {
        assert sigs[..k + 1][..k] == sigs[..k];
        if sigs[k].mutates {
          assert sigs[k] == Sig(sigs[k].name, 1, true);
          mutators := mutators + [sigs[k].name];
        }
        k := k + 1;
      }
      assert sigs[..k] == sigs;
      if mutators == [] || vars == [] {
        s := GenLet(names, 2, 'x', false);
      } else {
        var f := Draw(|mutators|);
        var v := Draw(|vars|);
        s := CallMut(mutators[f], vars[v]);
      }
    }
  }

  // -- whole programs -------------------------------------------------------------------------------

  /** Helpers in the making: well-formed, named by their position, and known to `g`. */
  ghost predicate HelpersSoFar(funcs: seq<Func>, mode: Mode) {
    && ScopedFuncs(funcs)
    && (forall k :: 0 <= k < |funcs| ==> funcs[k].name == Name('f', k))
    && (mode == Defined ==> forall k :: 0 <= k < |funcs| ==> !funcs[k].mutates)
  }

  lemma HelpersGrow(funcs: seq<Func>, f: Func, mode: Mode)
    requires HelpersSoFar(funcs, mode) && f.name == Name('f', |funcs|) && f.params == ParamNames(|f.params|)
    requires ScopedExpr(f.body, Params(f.params), Sigs(funcs), true)
    requires f.mutates ==> |f.params| == 1 && mode == Boundary
    ensures HelpersSoFar(funcs + [f], mode) && Sigs(funcs + [f]) == Sigs(funcs) + [SigOf(f)]
  {
    hide ScopedExpr;
    var all := funcs + [f];
    forall k | 0 <= k < |all| ensures ScopedFunc(all, k) {
      if k < |funcs| {
        assert ScopedFunc(funcs, k);
        assert all[..k] == funcs[..k];
      } else {
        assert all[..k] == funcs;
      }
    }
  }

  /** Generates one program from one stream: for every stream and either mode it is the program the
    stream stands for, it is well-formed, it ends by printing, and in the defined mode nothing in
    it can move, mutate or overflow a product. */
  method Generate(stream: nat -> nat, mode: Mode) returns (p: Program)
    ensures WellFormed(p) && p.mode == mode
    ensures p == ProgramFrom(stream, mode)
  {
    hide ScopedExpr, ScopedStmt, ScopedFunc, Below, Distinct, HelperFrom, MainFrom;
    var g := new Generator(stream, mode);
    var funcs: seq<Func> := [];
    var count := g.Draw(3);
    while |funcs| < count
      invariant |funcs| <= count && HelpersSoFar(funcs, mode)
      invariant fresh(g) && g.Valid() && g.mode == mode && g.live == [] && g.depth == 0 && g.sigs == Sigs(funcs)
      invariant g.stream == stream && g.nextName == 0
      invariant Drawn(funcs, g.drawn) == HelpersFrom(stream, 1, |funcs|, mode)
    {
      var f := GenHelper(g, |funcs|);
      HelpersGrow(funcs, f, mode);
      funcs := funcs + [f];
      g.sigs := g.sigs + [SigOf(f)];
    }
    var main := GenMain(g);
    p := Program(mode, funcs, main);
  }

  method GenHelper(g: Generator, index: nat) returns (f: Func)
    requires g.Valid()
    modifies g`drawn
    ensures g.Valid() && f.name == Name('f', index) && f.params == ParamNames(|f.params|)
    ensures ScopedExpr(f.body, Params(f.params), g.sigs, true)
    ensures f.mutates ==> |f.params| == 1 && g.mode == Boundary
    ensures Drawn(f, g.drawn) == HelperFrom(g.stream, old(g.drawn), index, g.sigs, g.mode)
  {
    hide ScopedExpr, ExprFrom;
    var more := g.Draw(2);
    var arity := 1 + more;
    var params := ParamNames(arity);
    var mutates := false;
    if g.mode == Boundary && arity == 1 {
      mutates := g.Chance(1, 3);
    }
    var body := g.GenExpr(params, 2, true);
    f := Func(Name('f', index), params, body, mutates);
  }

  method GenMain(g: Generator) returns (main: seq<Stmt>)
    requires g.Valid() && g.live == [] && g.depth == 0
    modifies g
    ensures ScopedBlock(main, [], g.sigs, g.mode == Defined) && g.sigs == old(g.sigs)
    ensures main != [] && main[|main| - 1].Print?
    ensures old(g.nextName) == 0 ==> main == MainFrom(g.stream, old(g.drawn), old(g.sigs), g.mode)
  {
    hide ScopedExpr, ScopedStmt, Below, Distinct, StmtFrom, OutputFrom, ExprFrom, DeclareFrom, EnvAfter, StmtsFrom,
         ScopedBlock, EnvAfterAll;
    var count := g.Draw(6);
    var seedName := g.NewName('x');
    var n := g.Draw(50);
    FreshIsNew([], seedName, false);
    main := [LetStmt(seedName, Lit(n))];
    SeedIsScoped(seedName, n, g.sigs, g.mode == Defined);
    g.live := g.live + [(seedName, false)];
    var made := 0;
    ghost var body: seq<Stmt> := [];
    ghost var seeded := g.Here();
    NoStmts(g.stream, g.drawn, seeded, g.sigs, g.mode);
    while made < 2 + count
      invariant 0 <= made <= 2 + count && g.Valid() && g.depth == 0 && g.sigs == old(g.sigs) && main != []
      invariant ScopedBlock(main, [], g.sigs, g.mode == Defined) && g.live == EnvAfterAll(main, [])
      invariant main == [LetStmt(seedName, Lit(n))] + body
      invariant Made(body, g.Here(), g.drawn) == StmtsFrom(g.stream, old(g.drawn) + 2, seeded, g.sigs, g.mode, made)
    {
      OneStmtMore(g.stream, old(g.drawn) + 2, seeded, g.sigs, g.mode, made);
      var s := g.GenStmt();
      body := body + [s];
      BlockGrows(main, s, [], g.sigs, g.mode == Defined);
      main := main + [s];
      made := made + 1;
    }
    var last := GenOutput(g);
    BlockGrows(main, last, [], g.sigs, g.mode == Defined);
    main := main + [last];
  }

  method GenOutput(g: Generator) returns (s: Stmt)
    requires g.Valid()
    modifies g`drawn
    ensures s.Print? && ScopedStmt(s, g.live, g.sigs, g.mode == Defined)
    ensures s == OutputFrom(g.stream, old(g.drawn), g.live)
  {
    var names, _ := g.LiveNames();
    if names == [] {
      s := Print("out", Lit(7));
    } else {
      var k := g.Draw(|names|);
      assert names[k] in Params(names);
      s := Print("out", Var(names[k]));
    }
  }

  lemma SeedIsScoped(name: Name, n: nat, sigs: seq<Sig>, defined: bool)
    ensures ScopedBlock([LetStmt(name, Lit(n))], [], sigs, defined)
    ensures EnvAfterAll([LetStmt(name, Lit(n))], []) == [(name, false)]
  {
    var s := LetStmt(name, Lit(n));
    assert [s][1..] == [];
    assert Names([]) == {};
  }

  predicate MutatorsAreUnary(sigs: seq<Sig>) {
    forall k :: 0 <= k < |sigs| && sigs[k].mutates ==> sigs[k].arity == 1
  }

  lemma {:induction false} ArgsGrow(args: seq<Expr>, arg: Expr, names: set<Name>, sigs: seq<Sig>, defined: bool)
    requires ScopedArgs(args, names, sigs, defined) && ScopedExpr(arg, names, sigs, defined)
    ensures ScopedArgs(args + [arg], names, sigs, defined)
  {
    if args == [] {
      assert (args + [arg])[1..] == [];
    } else {
      assert (args + [arg])[1..] == args[1..] + [arg];
      ArgsGrow(args[1..], arg, names, sigs, defined);
    }
  }

  lemma OnlyOnce(env: Env, k: nat)
    requires Distinct(env) && k < |env| && env[k].1
    ensures IsVariable(env, env[k].0)
  {
    assert env[k] == (env[k].0, true);
    forall j | 0 <= j < |env| ensures env[j] != (env[k].0, false) {
      if j < k {
        assert env[j].0 != env[k].0;
      } else if k < j {
        assert env[k].0 != env[j].0;
      }
    }
  }

  lemma SameNames(names: seq<Name>, env: Env)
    requires |names| == |env| && forall j :: 0 <= j < |env| ==> names[j] == env[j].0
    ensures Params(names) == Names(env)
  {
    forall n ensures n in Params(names) <==> n in Names(env) {
      if n in Params(names) {
        var k :| 0 <= k < |names| && names[k] == n;
        assert env[k].0 == n;
      }
      if n in Names(env) {
        var k :| 0 <= k < |env| && env[k].0 == n;
        assert names[k] == n;
      }
    }
  }

  lemma OneInBlock(s: Stmt, env: Env, sigs: seq<Sig>, defined: bool)
    requires ScopedStmt(s, env, sigs, defined)
    ensures ScopedBlock([s], env, sigs, defined) && Declares([s]) == DeclaresOf(s)
  {
    assert [s][1..] == [];
  }

  lemma TwoInBlock(a: Stmt, b: Stmt, env: Env, sigs: seq<Sig>, defined: bool)
    requires ScopedStmt(a, env, sigs, defined) && ScopedStmt(b, EnvAfter(a, env), sigs, defined)
    ensures ScopedBlock([a, b], env, sigs, defined) && Declares([a, b]) == DeclaresOf(a) + DeclaresOf(b)
  {
    assert [a, b][1..] == [b];
    OneInBlock(b, EnvAfter(a, env), sigs, defined);
  }

  lemma EmptyBlock(env: Env, sigs: seq<Sig>, defined: bool)
    ensures ScopedBlock([], env, sigs, defined) && Declares([]) == {}
  {
  }

  lemma BlockIsScoped(body: seq<Stmt>, env: Env, sigs: seq<Sig>, defined: bool)
    requires ScopedBlock(body, env, sigs, defined)
    ensures ScopedStmt(Block(body), env, sigs, defined)
  {
  }

  lemma BelowLater(env: Env, bound: nat, later: nat)
    requires Below(env, bound) && bound <= later
    ensures Below(env, later)
  {
  }

  lemma BetweenBoth(a: set<Name>, b: set<Name>, low: nat, middle: nat, high: nat)
    requires Between(a, low, middle) && Between(b, middle, high) && low <= middle <= high
    ensures Between(a + b, low, high)
  {
  }
}
