/** Which program a stream of draws stands for, and which programs there are.

  The functions here read a program off a stream, draw by draw; the generator is proved to
  make just that program.  The grammar says, without any stream, which trees can come out;
  every tree of the grammar comes out of some stream, and no other does. */
module FuzzDraws {
  import opened Wrappers
  import opened FuzzTree
  import opened FuzzScope

  /** What was read, and the draw to go on from. */
  datatype Drawn<T> = Drawn(value: T, next: nat)

  // -- expressions, read off a stream ---------------------------------------------------------

  function LeafFrom(stream: nat -> nat, at: nat, names: seq<Name>): Drawn<Expr> {
    if names != [] && stream(at) % 2 < 1 then Drawn(Var(names[stream(at + 1) % |names|]), at + 2)
    else
      var k := if names == [] then at else at + 1;
      Drawn(Lit(stream(k) % 50), k + 1)
  }

  function OpOf(k: nat): BinOp {
    if k == 0 then Add else if k == 1 then Sub else if k == 2 then Mul else if k == 3 then Div else Rem
  }

  function CmpOf(k: nat): CmpOp {
    if k == 0 then Lt else if k == 1 then Gt else if k == 2 then Eq else Ne
  }

  function ExprFrom(stream: nat -> nat, at: nat, names: seq<Name>, sigs: seq<Sig>, fuel: nat, defined: bool): Drawn<Expr>
    decreases fuel, 1
  {
    if fuel == 0 then LeafFrom(stream, at, names)
    else
      var choice := stream(at) % 8;
      if choice <= 1 then LeafFrom(stream, at + 1, names)
      else if choice <= 4 then BinFrom(stream, at + 1, names, sigs, fuel, defined)
      else if choice == 5 then
        var c := CondFrom(stream, at + 1, names, sigs, fuel - 1, defined);
        var a := ExprFrom(stream, c.next, names, sigs, fuel - 1, defined);
        var b := ExprFrom(stream, a.next, names, sigs, fuel - 1, defined);
        Drawn(IfVal(c.value, a.value, b.value), b.next)
      else if choice == 6 && sigs != [] then
        var sig := sigs[stream(at + 1) % |sigs|];
        if sig.mutates then LeafFrom(stream, at + 2, names)
        else
          var args := ArgsFrom(stream, at + 2, names, sigs, sig.arity, if fuel < 2 then 0 else fuel - 2, defined);
          Drawn(Call(sig.name, args.value), args.next)
      else
        var inner := ExprFrom(stream, at + 1, names, sigs, fuel - 1, defined);
        Drawn(Group(inner.value), inner.next)
  }

  function BinFrom(stream: nat -> nat, at: nat, names: seq<Name>, sigs: seq<Sig>, fuel: nat, defined: bool): Drawn<Expr>
    requires fuel > 0
    decreases fuel, 0
  {
    var op := OpOf(stream(at) % 5);
    if op == Mul && defined then
      Drawn(Bin(op, Lit(stream(at + 1) % 10), Lit(stream(at + 2) % 10)), at + 3)
    else
      var left := ExprFrom(stream, at + 1, names, sigs, fuel - 1, defined);
      if op == Div || op == Rem then Drawn(Bin(op, left.value, Lit(1 + stream(left.next) % 9)), left.next + 1)
      else
        var right := ExprFrom(stream, left.next, names, sigs, fuel - 1, defined);
        Drawn(Bin(op, left.value, right.value), right.next)
  }

  function ArgsFrom(stream: nat -> nat, at: nat, names: seq<Name>, sigs: seq<Sig>, arity: nat, fuel: nat, defined: bool)
    : (args: Drawn<seq<Expr>>)
    ensures |args.value| == arity
    decreases fuel, 2, arity
  {
    if arity == 0 then Drawn([], at)
    else
      var front := ArgsFrom(stream, at, names, sigs, arity - 1, fuel, defined);
      var last := ExprFrom(stream, front.next, names, sigs, fuel, defined);
      Drawn(front.value + [last.value], last.next)
  }

  function CondFrom(stream: nat -> nat, at: nat, names: seq<Name>, sigs: seq<Sig>, fuel: nat, defined: bool): Drawn<Expr>
    decreases fuel, 2
  {
    var left := ExprFrom(stream, at + 1, names, sigs, fuel, defined);
    var right := ExprFrom(stream, left.next, names, sigs, fuel, defined);
    Drawn(Cmp(CmpOf(stream(at) % 4), left.value, right.value), right.next)
  }

  // -- which expressions there are ----------------------------------------------------------------

  predicate IsLeaf(e: Expr, names: seq<Name>) {
    (e.Lit? && 0 <= e.value < 50) || (e.Var? && e.name in names)
  }

  /** The expressions that nest no deeper than `fuel`; a call counts for two levels. */
  predicate IsExpr(e: Expr, names: seq<Name>, sigs: seq<Sig>, fuel: nat, defined: bool)
    decreases e
  {
    || IsLeaf(e, names)
    || (fuel > 0 && match e
        case Bin(op, a, b) =>
          if op == Mul && defined then a.Lit? && 0 <= a.value < 10 && b.Lit? && 0 <= b.value < 10
          else
            && IsExpr(a, names, sigs, fuel - 1, defined)
            && (if op == Div || op == Rem then b.Lit? && 1 <= b.value <= 9 else IsExpr(b, names, sigs, fuel - 1, defined))
        case IfVal(c, a, b) =>
          IsCond(c, names, sigs, fuel - 1, defined) && IsExpr(a, names, sigs, fuel - 1, defined)
          && IsExpr(b, names, sigs, fuel - 1, defined)
        case Call(f, args) =>
          Sig(f, |args|, false) in sigs && AreExprs(args, names, sigs, if fuel < 2 then 0 else fuel - 2, defined)
        case Group(inner) => IsExpr(inner, names, sigs, fuel - 1, defined)
        case _ => false)
  }

  predicate IsCond(e: Expr, names: seq<Name>, sigs: seq<Sig>, fuel: nat, defined: bool)
    decreases e
  {
    e.Cmp? && IsExpr(e.left, names, sigs, fuel, defined) && IsExpr(e.right, names, sigs, fuel, defined)
  }

  predicate AreExprs(args: seq<Expr>, names: seq<Name>, sigs: seq<Sig>, fuel: nat, defined: bool)
    decreases args
  {
    args == []
    || (AreExprs(args[..|args| - 1], names, sigs, fuel, defined) && IsExpr(args[|args| - 1], names, sigs, fuel, defined))
  }

  lemma LeafIsLeaf(stream: nat -> nat, at: nat, names: seq<Name>)
    ensures IsLeaf(LeafFrom(stream, at, names).value, names)
  {
  }

  /** Whatever is drawn, an expression of the grammar comes out. */
  lemma {:induction false} DrawnIsExpr(stream: nat -> nat, at: nat, names: seq<Name>, sigs: seq<Sig>, fuel: nat, defined: bool)
    ensures IsExpr(ExprFrom(stream, at, names, sigs, fuel, defined).value, names, sigs, fuel, defined)
    decreases fuel, 1
  {
    hide LeafFrom, IsLeaf;
    LeafIsLeaf(stream, at, names);
    LeafIsLeaf(stream, at + 1, names);
    LeafIsLeaf(stream, at + 2, names);
    if fuel > 0 {
      var choice := stream(at) % 8;
      if 1 < choice <= 4 {
        DrawnIsBin(stream, at + 1, names, sigs, fuel, defined);
      } else if choice == 5 {
        var c := CondFrom(stream, at + 1, names, sigs, fuel - 1, defined);
        DrawnIsCond(stream, at + 1, names, sigs, fuel - 1, defined);
        DrawnIsExpr(stream, c.next, names, sigs, fuel - 1, defined);
        DrawnIsExpr(stream, ExprFrom(stream, c.next, names, sigs, fuel - 1, defined).next, names, sigs, fuel - 1, defined);
      } else if choice == 6 && sigs != [] {
        var sig := sigs[stream(at + 1) % |sigs|];
        if !sig.mutates {
          var less: nat := if fuel < 2 then 0 else fuel - 2;
          DrawnAreArgs(stream, at + 2, names, sigs, sig.arity, less, defined);
          var args := ArgsFrom(stream, at + 2, names, sigs, sig.arity, less, defined).value;
          assert sig == Sig(sig.name, |args|, false);
          CallIsExpr(sig.name, args, names, sigs, fuel, defined);
        }
      } else if choice > 1 {
        DrawnIsExpr(stream, at + 1, names, sigs, fuel - 1, defined);
      }
    }
  }

  lemma CallIsExpr(f: Name, args: seq<Expr>, names: seq<Name>, sigs: seq<Sig>, fuel: nat, defined: bool)
    requires fuel > 0 && Sig(f, |args|, false) in sigs
    requires AreExprs(args, names, sigs, if fuel < 2 then 0 else fuel - 2, defined)
    ensures IsExpr(Call(f, args), names, sigs, fuel, defined)
  {
  }

  lemma OperandsAreBin(op: BinOp, a: Expr, b: Expr, names: seq<Name>, sigs: seq<Sig>, fuel: nat, defined: bool)
    requires fuel > 0 && !(op == Mul && defined) && IsExpr(a, names, sigs, fuel - 1, defined)
    requires if op == Div || op == Rem then b.Lit? && 1 <= b.value <= 9 else IsExpr(b, names, sigs, fuel - 1, defined)
    ensures IsExpr(Bin(op, a, b), names, sigs, fuel, defined)
  {
  }

  lemma {:induction false} DrawnIsBin(stream: nat -> nat, at: nat, names: seq<Name>, sigs: seq<Sig>, fuel: nat, defined: bool)
    requires fuel > 0
    ensures IsExpr(BinFrom(stream, at, names, sigs, fuel, defined).value, names, sigs, fuel, defined)
    decreases fuel, 0
  {
    hide IsLeaf, ExprFrom;
    var op := OpOf(stream(at) % 5);
    if !(op == Mul && defined) {
      var left := ExprFrom(stream, at + 1, names, sigs, fuel - 1, defined);
      DrawnIsExpr(stream, at + 1, names, sigs, fuel - 1, defined);
      DrawnIsExpr(stream, left.next, names, sigs, fuel - 1, defined);
      var right := if op == Div || op == Rem then Lit(1 + stream(left.next) % 9)
                   else ExprFrom(stream, left.next, names, sigs, fuel - 1, defined).value;
      OperandsAreBin(op, left.value, right, names, sigs, fuel, defined);
    }
  }

  lemma {:induction false} DrawnAreArgs(stream: nat -> nat, at: nat, names: seq<Name>, sigs: seq<Sig>, arity: nat, fuel: nat,
                                        defined: bool)
    ensures AreExprs(ArgsFrom(stream, at, names, sigs, arity, fuel, defined).value, names, sigs, fuel, defined)
    decreases fuel, 2, arity
  {
    hide IsExpr, ExprFrom;
    if arity > 0 {
      DrawnAreArgs(stream, at, names, sigs, arity - 1, fuel, defined);
      var front := ArgsFrom(stream, at, names, sigs, arity - 1, fuel, defined);
      var last := ExprFrom(stream, front.next, names, sigs, fuel, defined);
      DrawnIsExpr(stream, front.next, names, sigs, fuel, defined);
      var args := ArgsFrom(stream, at, names, sigs, arity, fuel, defined).value;
      assert args == front.value + [last.value] && args[..|args| - 1] == front.value;
    }
  }

  lemma {:induction false} DrawnIsCond(stream: nat -> nat, at: nat, names: seq<Name>, sigs: seq<Sig>, fuel: nat, defined: bool)
    ensures IsCond(CondFrom(stream, at, names, sigs, fuel, defined).value, names, sigs, fuel, defined)
    decreases fuel, 2
  {
    hide IsExpr, ExprFrom;
    DrawnIsExpr(stream, at + 1, names, sigs, fuel, defined);
    DrawnIsExpr(stream, ExprFrom(stream, at + 1, names, sigs, fuel, defined).next, names, sigs, fuel, defined);
  }

  // -- draws for an expression ----------------------------------------------------------------------

  /** From `at` on the stream begins with these draws. */
  predicate Begins(stream: nat -> nat, at: nat, draws: seq<nat>) {
    forall k :: 0 <= k < |draws| ==> stream(at + k) == draws[k]
  }

  lemma BeginsWith(stream: nat -> nat, at: nat, a: seq<nat>, b: seq<nat>)
    ensures Begins(stream, at, a + b) <==> Begins(stream, at, a) && Begins(stream, at + |a|, b)
  {
    if Begins(stream, at, a + b) {
      forall k | 0 <= k < |a| ensures stream(at + k) == a[k] {
        assert (a + b)[k] == a[k];
      }
      forall k | 0 <= k < |b| ensures stream(at + |a| + k) == b[k] {
        assert (a + b)[|a| + k] == b[k] && at + (|a| + k) == at + |a| + k;
      }
    }
    if Begins(stream, at, a) && Begins(stream, at + |a|, b) {
      forall k | 0 <= k < |a + b| ensures stream(at + k) == (a + b)[k] {
        if k >= |a| {
          assert at + |a| + (k - |a|) == at + k;
        }
      }
    }
  }

  lemma BeginsOne(stream: nat -> nat, at: nat, d: nat, rest: seq<nat>)
    ensures Begins(stream, at, [d] + rest) <==> stream(at) == d && Begins(stream, at + 1, rest)
  {
    BeginsWith(stream, at, [d], rest);
    assert at + 0 == at && [d][0] == d;
    assert Begins(stream, at, [d]) ==> stream(at + 0) == [d][0];
  }

  /** These draws, wherever they stand in whatever stream, stand for `e` and no more. */
  ghost predicate StandFor(draws: seq<nat>, e: Expr, names: seq<Name>, sigs: seq<Sig>, fuel: nat, defined: bool) {
    forall stream: nat -> nat, at: nat :: Begins(stream, at, draws) ==>
      ExprFrom(stream, at, names, sigs, fuel, defined) == Drawn(e, at + |draws|)
  }

  ghost predicate StandForCond(draws: seq<nat>, e: Expr, names: seq<Name>, sigs: seq<Sig>, fuel: nat, defined: bool) {
    forall stream: nat -> nat, at: nat :: Begins(stream, at, draws) ==>
      CondFrom(stream, at, names, sigs, fuel, defined) == Drawn(e, at + |draws|)
  }

  ghost predicate StandForArgs(draws: seq<nat>, args: seq<Expr>, names: seq<Name>, sigs: seq<Sig>, fuel: nat, defined: bool) {
    forall stream: nat -> nat, at: nat :: Begins(stream, at, draws) ==>
      ArgsFrom(stream, at, names, sigs, |args|, fuel, defined) == Drawn(args, at + |draws|)
  }

  function LeafDraws(e: Expr, names: seq<Name>): seq<nat>
    requires IsLeaf(e, names)
  {
    if e.Var? then [0, IndexIn(names, e.name)]
    else if names == [] then [e.value] else [1, e.value]
  }

  function IndexIn(names: seq<Name>, name: Name): (k: nat)
    requires name in names
    ensures k < |names| && names[k] == name
  {
    if names[0] == name then 0 else 1 + IndexIn(names[1..], name)
  }

  lemma LeafIsDrawn(stream: nat -> nat, at: nat, e: Expr, names: seq<Name>)
    requires IsLeaf(e, names) && Begins(stream, at, LeafDraws(e, names))
    ensures LeafFrom(stream, at, names) == Drawn(e, at + |LeafDraws(e, names)|)
  {
    var draws := LeafDraws(e, names);
    assert at + 0 == at && stream(at + 0) == draws[0];
    if |draws| == 2 {
      assert stream(at + 1) == draws[1];
    }
    if e.Var? {
      Remains(IndexIn(names, e.name), |names|);
    } else {
      Remains(e.value as nat, 50);
    }
  }

  lemma LeafStands(e: Expr, names: seq<Name>, sigs: seq<Sig>, fuel: nat, defined: bool) returns (draws: seq<nat>)
    requires IsLeaf(e, names)
    ensures StandFor(draws, e, names, sigs, fuel, defined)
  {
    hide LeafFrom, LeafDraws, IsLeaf, Begins;
    var leaf := LeafDraws(e, names);
    draws := if fuel == 0 then leaf else [0] + leaf;
    forall stream: nat -> nat, at: nat | Begins(stream, at, draws)
      ensures ExprFrom(stream, at, names, sigs, fuel, defined) == Drawn(e, at + |draws|)
    {
      if fuel == 0 {
        LeafIsDrawn(stream, at, e, names);
      } else {
        BeginsOne(stream, at, 0, leaf);
        LeafIsDrawn(stream, at + 1, e, names);
      }
    }
  }

  function OpDraw(op: BinOp): (k: nat)
    ensures k < 5 && OpOf(k) == op
  {
    match op case Add => 0 case Sub => 1 case Mul => 2 case Div => 3 case Rem => 4
  }

  function CmpDraw(op: CmpOp): (k: nat)
    ensures k < 4 && CmpOf(k) == op
  {
    match op case Lt => 0 case Gt => 1 case Eq => 2 case Ne => 3
  }

  /** Every expression of the grammar has draws that stand for it. */
  lemma {:induction false} ExprStands(e: Expr, names: seq<Name>, sigs: seq<Sig>, fuel: nat, defined: bool) returns (draws: seq<nat>)
    requires IsExpr(e, names, sigs, fuel, defined)
    ensures StandFor(draws, e, names, sigs, fuel, defined)
    decreases e, 1
  {
    hide StandFor, StandForCond, StandForArgs, ExprFrom, IsLeaf;
    if IsLeaf(e, names) {
      draws := LeafStands(e, names, sigs, fuel, defined);
    } else {
      match e
      case Bin(op, a, b) => draws := BinStands(e, names, sigs, fuel, defined);
      case IfVal(c, a, b) =>
        var x := CondStands(c, names, sigs, fuel - 1, defined);
        var y := ExprStands(a, names, sigs, fuel - 1, defined);
        var z := ExprStands(b, names, sigs, fuel - 1, defined);
        draws := [5] + (x + (y + z));
        IfStands(x, y, z, c, a, b, names, sigs, fuel, defined);
      case Call(f, args) =>
        var x := ArgsStand(args, names, sigs, if fuel < 2 then 0 else fuel - 2, defined);
        var k: nat :| k < |sigs| && sigs[k] == Sig(f, |args|, false);
        draws := [6] + ([k] + x);
        CallStands(x, k, f, args, names, sigs, fuel, defined);
      case Group(inner) =>
        var x := ExprStands(inner, names, sigs, fuel - 1, defined);
        draws := [7] + x;
        GroupStands(x, inner, names, sigs, fuel, defined);
    }
  }

  lemma GroupUnfolds(stream: nat -> nat, at: nat, names: seq<Name>, sigs: seq<Sig>, fuel: nat, defined: bool)
    requires fuel > 0
    ensures var inner := ExprFrom(stream, at + 1, names, sigs, fuel - 1, defined);
            stream(at) == 7 ==> ExprFrom(stream, at, names, sigs, fuel, defined) == Drawn(Group(inner.value), inner.next)
    ensures stream(at) == 6 && sigs != [] && !sigs[stream(at + 1) % |sigs|].mutates ==>
              var sig := sigs[stream(at + 1) % |sigs|];
              var args := ArgsFrom(stream, at + 2, names, sigs, sig.arity, if fuel < 2 then 0 else fuel - 2, defined);
              ExprFrom(stream, at, names, sigs, fuel, defined) == Drawn(Call(sig.name, args.value), args.next)
  {
    hide BinFrom, CondFrom, ArgsFrom, LeafFrom;
  }

  lemma GroupStands(x: seq<nat>, inner: Expr, names: seq<Name>, sigs: seq<Sig>, fuel: nat, defined: bool)
    requires fuel > 0 && StandFor(x, inner, names, sigs, fuel - 1, defined)
    ensures StandFor([7] + x, Group(inner), names, sigs, fuel, defined)
  {
    hide Begins, ExprFrom;
    forall stream: nat -> nat, at: nat | Begins(stream, at, [7] + x)
      ensures ExprFrom(stream, at, names, sigs, fuel, defined) == Drawn(Group(inner), at + |[7] + x|)
    {
      BeginsOne(stream, at, 7, x);
      GroupUnfolds(stream, at, names, sigs, fuel, defined);
    }
  }

  lemma CallStands(x: seq<nat>, k: nat, f: Name, args: seq<Expr>, names: seq<Name>, sigs: seq<Sig>, fuel: nat, defined: bool)
    requires fuel > 0 && k < |sigs| && sigs[k] == Sig(f, |args|, false)
    requires StandForArgs(x, args, names, sigs, if fuel < 2 then 0 else fuel - 2, defined)
    ensures StandFor([6] + ([k] + x), Call(f, args), names, sigs, fuel, defined)
  {
    hide Begins, ArgsFrom, ExprFrom;
    forall stream: nat -> nat, at: nat | Begins(stream, at, [6] + ([k] + x))
      ensures ExprFrom(stream, at, names, sigs, fuel, defined) == Drawn(Call(f, args), at + |[6] + ([k] + x)|)
    {
      BeginsOne(stream, at, 6, [k] + x);
      BeginsOne(stream, at + 1, k, x);
      Remains(k, |sigs|);
      GroupUnfolds(stream, at, names, sigs, fuel, defined);
    }
  }

  lemma IfUnfolds(stream: nat -> nat, at: nat, names: seq<Name>, sigs: seq<Sig>, fuel: nat, defined: bool)
    requires fuel > 0 && stream(at) == 5
    ensures var c := CondFrom(stream, at + 1, names, sigs, fuel - 1, defined);
            var a := ExprFrom(stream, c.next, names, sigs, fuel - 1, defined);
            var b := ExprFrom(stream, a.next, names, sigs, fuel - 1, defined);
            ExprFrom(stream, at, names, sigs, fuel, defined) == Drawn(IfVal(c.value, a.value, b.value), b.next)
  {
    hide BinFrom, CondFrom, ArgsFrom, LeafFrom;
  }

  /** What the draws of an operator and two operands stand for. */
  lemma BinUnfolds(stream: nat -> nat, at: nat, names: seq<Name>, sigs: seq<Sig>, fuel: nat, defined: bool, op: BinOp)
    requires fuel > 0 && stream(at) == 2 && stream(at + 1) == OpDraw(op) && !(op == Mul && defined)
    ensures var left := ExprFrom(stream, at + 2, names, sigs, fuel - 1, defined);
            var right := ExprFrom(stream, left.next, names, sigs, fuel - 1, defined);
            ExprFrom(stream, at, names, sigs, fuel, defined)
            == if op == Div || op == Rem then Drawn(Bin(op, left.value, Lit(1 + stream(left.next) % 9)), left.next + 1)
               else Drawn(Bin(op, left.value, right.value), right.next)
  {
    assert stream(at) % 8 == 2 && stream(at + 1) % 5 == OpDraw(op);
    assert BinFrom(stream, at + 1, names, sigs, fuel, defined) == ExprFrom(stream, at, names, sigs, fuel, defined);
  }

  lemma IfStands(x: seq<nat>, y: seq<nat>, z: seq<nat>, c: Expr, a: Expr, b: Expr, names: seq<Name>, sigs: seq<Sig>, fuel: nat,
                 defined: bool)
    requires fuel > 0 && StandForCond(x, c, names, sigs, fuel - 1, defined)
    requires StandFor(y, a, names, sigs, fuel - 1, defined) && StandFor(z, b, names, sigs, fuel - 1, defined)
    ensures StandFor([5] + (x + (y + z)), IfVal(c, a, b), names, sigs, fuel, defined)
  {
    hide Begins, CondFrom, ExprFrom;
    forall stream: nat -> nat, at: nat | Begins(stream, at, [5] + (x + (y + z)))
      ensures ExprFrom(stream, at, names, sigs, fuel, defined) == Drawn(IfVal(c, a, b), at + |[5] + (x + (y + z))|)
    {
      BeginsOne(stream, at, 5, x + (y + z));
      IfUnfolds(stream, at, names, sigs, fuel, defined);
      BeginsWith(stream, at + 1, x, y + z);
      BeginsWith(stream, at + 1 + |x|, y, z);
    }
  }

  lemma {:induction false} BinStands(e: Expr, names: seq<Name>, sigs: seq<Sig>, fuel: nat, defined: bool) returns (draws: seq<nat>)
    requires e.Bin? && IsExpr(e, names, sigs, fuel, defined)
    ensures StandFor(draws, e, names, sigs, fuel, defined)
    decreases e, 0
  {
    hide StandFor, ExprFrom, IsLeaf;
    LeafIsNoBin(e, names);
    var k := OpDraw(e.op);
    if e.op == Mul && defined {
      draws := [2] + ([k] + [e.left.value, e.right.value]);
      ProductStands(e, k, names, sigs, fuel, defined);
    } else {
      var x := ExprStands(e.left, names, sigs, fuel - 1, defined);
      if e.op == Div || e.op == Rem {
        draws := [2] + ([k] + (x + [e.right.value - 1]));
        QuotientStands(x, e, k, names, sigs, fuel, defined);
      } else {
        var y := ExprStands(e.right, names, sigs, fuel - 1, defined);
        draws := [2] + ([k] + (x + y));
        SumStands(x, y, e, k, names, sigs, fuel, defined);
      }
    }
  }

  lemma LeafIsNoBin(e: Expr, names: seq<Name>)
    requires e.Bin?
    ensures !IsLeaf(e, names)
  {
  }

  lemma ProductStands(e: Expr, k: nat, names: seq<Name>, sigs: seq<Sig>, fuel: nat, defined: bool)
    requires fuel > 0 && e.Bin? && e.op == Mul && defined && k == OpDraw(e.op)
    requires e.left.Lit? && e.right.Lit? && 0 <= e.left.value < 10 && 0 <= e.right.value < 10
    ensures StandFor([2] + ([k] + [e.left.value, e.right.value]), e, names, sigs, fuel, defined)
  {
    var draws := [2] + ([k] + [e.left.value, e.right.value]);
    forall stream: nat -> nat, at: nat | Begins(stream, at, draws)
      ensures ExprFrom(stream, at, names, sigs, fuel, defined) == Drawn(e, at + |draws|)
    {
      BeginsOne(stream, at, 2, [k] + [e.left.value, e.right.value]);
      BeginsOne(stream, at + 1, k, [e.left.value, e.right.value]);
      assert [e.left.value, e.right.value] == [e.left.value] + [e.right.value];
      BeginsOne(stream, at + 2, e.left.value, [e.right.value]);
      assert stream(at + 3 + 0) == [e.right.value][0];
    }
  }

  lemma QuotientStands(x: seq<nat>, e: Expr, k: nat, names: seq<Name>, sigs: seq<Sig>, fuel: nat, defined: bool)
    requires fuel > 0 && e.Bin? && (e.op == Div || e.op == Rem) && k == OpDraw(e.op)
    requires e.right.Lit? && 1 <= e.right.value <= 9 && StandFor(x, e.left, names, sigs, fuel - 1, defined)
    ensures StandFor([2] + ([k] + (x + [e.right.value - 1])), e, names, sigs, fuel, defined)
  {
    hide Begins, ExprFrom;
    var d := e.right.value - 1;
    forall stream: nat -> nat, at: nat | Begins(stream, at, [2] + ([k] + (x + [d])))
      ensures ExprFrom(stream, at, names, sigs, fuel, defined) == Drawn(e, at + |[2] + ([k] + (x + [d]))|)
    {
      BeginsOne(stream, at, 2, [k] + (x + [d]));
      BeginsOne(stream, at + 1, k, x + [d]);
      BeginsWith(stream, at + 2, x, [d]);
      assert [d] == [d] + [];
      BeginsOne(stream, at + 2 + |x|, d, []);
      BinUnfolds(stream, at, names, sigs, fuel, defined, e.op);
    }
  }

  lemma SumStands(x: seq<nat>, y: seq<nat>, e: Expr, k: nat, names: seq<Name>, sigs: seq<Sig>, fuel: nat, defined: bool)
    requires fuel > 0 && e.Bin? && e.op != Div && e.op != Rem && !(e.op == Mul && defined) && k == OpDraw(e.op)
    requires StandFor(x, e.left, names, sigs, fuel - 1, defined) && StandFor(y, e.right, names, sigs, fuel - 1, defined)
    ensures StandFor([2] + ([k] + (x + y)), e, names, sigs, fuel, defined)
  {
    hide Begins, ExprFrom;
    forall stream: nat -> nat, at: nat | Begins(stream, at, [2] + ([k] + (x + y)))
      ensures ExprFrom(stream, at, names, sigs, fuel, defined) == Drawn(e, at + |[2] + ([k] + (x + y))|)
    {
      BeginsOne(stream, at, 2, [k] + (x + y));
      BeginsOne(stream, at + 1, k, x + y);
      BeginsWith(stream, at + 2, x, y);
      BinUnfolds(stream, at, names, sigs, fuel, defined, e.op);
    }
  }

  lemma {:induction false} CondStands(e: Expr, names: seq<Name>, sigs: seq<Sig>, fuel: nat, defined: bool) returns (draws: seq<nat>)
    requires IsCond(e, names, sigs, fuel, defined)
    ensures StandForCond(draws, e, names, sigs, fuel, defined)
    decreases e, 1
  {
    hide StandFor, ExprFrom, IsExpr;
    var x := ExprStands(e.left, names, sigs, fuel, defined);
    var y := ExprStands(e.right, names, sigs, fuel, defined);
    draws := [CmpDraw(e.cmp)] + (x + y);
    CmpStands(x, y, e, names, sigs, fuel, defined);
  }

  lemma CmpStands(x: seq<nat>, y: seq<nat>, e: Expr, names: seq<Name>, sigs: seq<Sig>, fuel: nat, defined: bool)
    requires e.Cmp? && StandFor(x, e.left, names, sigs, fuel, defined) && StandFor(y, e.right, names, sigs, fuel, defined)
    ensures StandForCond([CmpDraw(e.cmp)] + (x + y), e, names, sigs, fuel, defined)
  {
    hide Begins, ExprFrom;
    var k := CmpDraw(e.cmp);
    forall stream: nat -> nat, at: nat | Begins(stream, at, [k] + (x + y))
      ensures CondFrom(stream, at, names, sigs, fuel, defined) == Drawn(e, at + |[k] + (x + y)|)
    {
      BeginsOne(stream, at, k, x + y);
      BeginsWith(stream, at + 1, x, y);
    }
  }

  lemma {:induction false} ArgsStand(args: seq<Expr>, names: seq<Name>, sigs: seq<Sig>, fuel: nat, defined: bool)
      returns (draws: seq<nat>)
    requires AreExprs(args, names, sigs, fuel, defined)
    ensures StandForArgs(draws, args, names, sigs, fuel, defined)
    decreases args, |args|
  {
    hide StandFor, StandForArgs, ExprFrom, IsExpr;
    if args == [] {
      draws := [];
      NoArgsStand(names, sigs, fuel, defined);
    } else {
      var last := |args| - 1;
      var x := ArgsStand(args[..last], names, sigs, fuel, defined);
      var y := ExprStands(args[last], names, sigs, fuel, defined);
      draws := x + y;
      OneMoreStands(x, y, args[..last], args[last], names, sigs, fuel, defined);
      assert args == args[..last] + [args[last]];
    }
  }

  lemma NoArgsStand(names: seq<Name>, sigs: seq<Sig>, fuel: nat, defined: bool)
    ensures StandForArgs([], [], names, sigs, fuel, defined)
  {
  }

  lemma OneMoreStands(x: seq<nat>, y: seq<nat>, args: seq<Expr>, arg: Expr, names: seq<Name>, sigs: seq<Sig>, fuel: nat,
                      defined: bool)
    requires StandForArgs(x, args, names, sigs, fuel, defined) && StandFor(y, arg, names, sigs, fuel, defined)
    ensures StandForArgs(x + y, args + [arg], names, sigs, fuel, defined)
  {
    hide Begins, ExprFrom;
    forall stream: nat -> nat, at: nat | Begins(stream, at, x + y)
      ensures ArgsFrom(stream, at, names, sigs, |args + [arg]|, fuel, defined) == Drawn(args + [arg], at + |x + y|)
    {
      BeginsWith(stream, at, x, y);
    }
  }

  /** An expression comes out of some stream if and only if it is one of the grammar. */
  lemma DrawnExpressions(e: Expr, names: seq<Name>, sigs: seq<Sig>, fuel: nat, defined: bool)
    ensures IsExpr(e, names, sigs, fuel, defined)
       <==> exists stream: nat -> nat :: ExprFrom(stream, 0, names, sigs, fuel, defined).value == e
  {
    hide IsExpr, ExprFrom;
    if IsExpr(e, names, sigs, fuel, defined) {
      var draws := ExprStands(e, names, sigs, fuel, defined);
      var stream: nat -> nat := Padded(draws);
      PaddedBegins(draws);
      assert ExprFrom(stream, 0, names, sigs, fuel, defined).value == e;
    }
    if stream: nat -> nat :| ExprFrom(stream, 0, names, sigs, fuel, defined).value == e {
      DrawnIsExpr(stream, 0, names, sigs, fuel, defined);
    }
  }

  /** The draws, and zeros from there on. */
  function Padded(draws: seq<nat>): nat -> nat {
    (k: nat) => if k < |draws| then draws[k] else 0
  }

  lemma PaddedBegins(draws: seq<nat>)
    ensures Begins(Padded(draws), 0, draws)
  {
  }

  // -- statements, read off a stream ------------------------------------------------------------------

  /** The names in scope, the number of the next name, and how deep the statement stands. */
  datatype Scope = Scope(live: Env, next: nat, depth: nat)

  datatype Made<T> = Made(value: T, scope: Scope, next: nat)

  function NamesIn(live: Env): (r: seq<Name>)
    ensures |r| == |live| && forall k :: 0 <= k < |r| ==> r[k] == live[k].0
  {
    seq(|live|, k requires 0 <= k < |live| => live[k].0)
  }

  function VarsIn(live: Env): seq<Name> {
    if live == [] then []
    else VarsIn(live[..|live| - 1]) + if live[|live| - 1].1 then [live[|live| - 1].0] else []
  }

  function MutatorsIn(sigs: seq<Sig>): seq<Name> {
    if sigs == [] then []
    else MutatorsIn(sigs[..|sigs| - 1]) + if sigs[|sigs| - 1].mutates then [sigs[|sigs| - 1].name] else []
  }

  function Declared(sc: Scope, name: Name, isVar: bool): Scope {
    sc.(live := sc.live + [(name, isVar)], next := sc.next + 1)
  }

  function DeclareFrom(stream: nat -> nat, at: nat, sc: Scope, sigs: seq<Sig>, mode: Mode, fuel: nat, isVar: bool): Made<Stmt> {
    var name := Name(if isVar then 'v' else 'x', sc.next);
    var value := ExprFrom(stream, at, NamesIn(sc.live), sigs, fuel, mode == Defined);
    Made(if isVar then VarStmt(name, value.value) else LetStmt(name, value.value), Declared(sc, name, isVar), value.next)
  }

  function StmtFrom(stream: nat -> nat, at: nat, sc: Scope, sigs: seq<Sig>, mode: Mode): Made<Stmt>
    decreases if sc.depth < 2 then 2 - sc.depth else 0, 1
  {
    var names, vars, boundary := NamesIn(sc.live), VarsIn(sc.live), mode == Boundary;
    var choice := stream(at) % if boundary then 10 else 7;
    if choice <= 1 then DeclareFrom(stream, at + 1, sc, sigs, mode, 3, false)
    else if choice == 2 then DeclareFrom(stream, at + 1, sc, sigs, mode, 2, true)
    else if choice == 3 then
      if vars == [] then DeclareFrom(stream, at + 1, sc, sigs, mode, 2, false)
      else AssignFrom(stream, at + 1, sc, sigs, mode)
    else if choice == 4 && sc.depth < 2 then IfFrom(stream, at + 1, sc, sigs, mode)
    else if choice == 5 && sc.depth < 2 then WhileFrom(stream, at + 1, sc, sigs, mode)
    else if choice == 6 && sc.depth < 2 then BlockFrom(stream, at + 1, sc, sigs, mode)
    else if choice == 7 && boundary && sc.depth < 2 then RegionFrom(stream, at + 1, sc, sigs, mode)
    else if choice == 8 && boundary && names != [] then MoveFrom(stream, at + 1, sc)
    else if boundary then CallMutFrom(stream, at + 1, sc, sigs, mode)
    else DeclareFrom(stream, at + 1, sc, sigs, mode, 3, false)
  }

  function AssignFrom(stream: nat -> nat, at: nat, sc: Scope, sigs: seq<Sig>, mode: Mode): Made<Stmt>
    requires VarsIn(sc.live) != []
  {
    var vars := VarsIn(sc.live);
    var value := ExprFrom(stream, at + 1, NamesIn(sc.live), sigs, 2, mode == Defined);
    Made(Assign(vars[stream(at) % |vars|], value.value), sc, value.next)
  }

  function WhileFrom(stream: nat -> nat, at: nat, sc: Scope, sigs: seq<Sig>, mode: Mode): Made<Stmt>
    requires sc.depth < 2
    decreases 2 - sc.depth, 0
  {
    var body := NestedFrom(stream, at, sc.(next := sc.next + 1, depth := sc.depth + 1), sigs, mode);
    Made(While(Name('i', sc.next), 1 + stream(body.next) % 6, body.value), sc.(next := body.scope.next), body.next + 1)
  }

  function BlockFrom(stream: nat -> nat, at: nat, sc: Scope, sigs: seq<Sig>, mode: Mode): Made<Stmt>
    requires sc.depth < 2
    decreases 2 - sc.depth, 0
  {
    var a := StmtFrom(stream, at, sc.(depth := sc.depth + 1), sigs, mode);
    var b := StmtFrom(stream, a.next, a.scope.(depth := sc.depth + 1), sigs, mode);
    Made(Block([a.value, b.value]), sc.(next := b.scope.next), b.next)
  }

  function RegionFrom(stream: nat -> nat, at: nat, sc: Scope, sigs: seq<Sig>, mode: Mode): Made<Stmt>
    requires sc.depth < 2
    decreases 2 - sc.depth, 0
  {
    var body := NestedFrom(stream, at, sc.(next := sc.next + 1, depth := sc.depth + 1), sigs, mode);
    Made(Region(Name('r', sc.next), body.value), sc.(next := body.scope.next), body.next)
  }

  function MoveFrom(stream: nat -> nat, at: nat, sc: Scope): Made<Stmt>
    requires sc.live != []
  {
    var names, to := NamesIn(sc.live), Name('m', sc.next);
    Made(Move(names[stream(at) % |names|], to, stream(at + 1) % 3 < 2), Declared(sc, to, false), at + 2)
  }

  function CallMutFrom(stream: nat -> nat, at: nat, sc: Scope, sigs: seq<Sig>, mode: Mode): Made<Stmt> {
    var mutators, vars := MutatorsIn(sigs), VarsIn(sc.live);
    if mutators == [] || vars == [] then DeclareFrom(stream, at, sc, sigs, mode, 2, false)
    else Made(CallMut(mutators[stream(at) % |mutators|], vars[stream(at + 1) % |vars|]), sc, at + 2)
  }

  /** One statement of its own scope. */
  function NestedFrom(stream: nat -> nat, at: nat, sc: Scope, sigs: seq<Sig>, mode: Mode): (m: Made<seq<Stmt>>)
    requires sc.depth > 0
    ensures |m.value| == 1
    decreases if sc.depth < 2 then 2 - sc.depth else 0, 2
  {
    var s := StmtFrom(stream, at, sc, sigs, mode);
    Made([s.value], sc.(next := s.scope.next), s.next)
  }

  function IfFrom(stream: nat -> nat, at: nat, sc: Scope, sigs: seq<Sig>, mode: Mode): Made<Stmt>
    requires sc.depth < 2
    decreases 2 - sc.depth, 0
  {
    var cond := CondFrom(stream, at, NamesIn(sc.live), sigs, 1, mode == Defined);
    var a := NestedFrom(stream, cond.next, sc.(depth := sc.depth + 1), sigs, mode);
    if stream(a.next) % 2 < 1 then
      var b := NestedFrom(stream, a.next + 1, a.scope, sigs, mode);
      Made(If(cond.value, a.value, b.value), sc.(next := b.scope.next), b.next)
    else Made(If(cond.value, a.value, []), sc.(next := a.scope.next), a.next + 1)
  }

  // -- which statements there are ------------------------------------------------------------------------

  /** The scope after the statement, if it is one that can come out here. */
  function After(s: Stmt, sc: Scope, sigs: seq<Sig>, mode: Mode): Option<Scope>
    decreases s
  {
    var names, inner := NamesIn(sc.live), sc.(depth := sc.depth + 1);
    match s
    case LetStmt(name, value) =>
      if name == Name('x', sc.next) && IsExpr(value, names, sigs, 3, mode == Defined)
      then Some(Declared(sc, name, false)) else None
    case VarStmt(name, value) =>
      if name == Name('v', sc.next) && IsExpr(value, names, sigs, 2, mode == Defined)
      then Some(Declared(sc, name, true)) else None
    case Assign(name, value) =>
      if name in VarsIn(sc.live) && IsExpr(value, names, sigs, 2, mode == Defined) then Some(sc) else None
    case If(cond, t, o) =>
      if sc.depth < 2 && IsCond(cond, names, sigs, 1, mode == Defined) && |t| == 1 && |o| <= 1 then
        match After(t[0], inner, sigs, mode)
        case None => None
        case Some(a) =>
          if o == [] then Some(sc.(next := a.next))
          else
            match After(o[0], inner.(next := a.next), sigs, mode)
            case None => None
            case Some(b) => Some(sc.(next := b.next))
      else None
    case While(counter, bound, body) =>
      if sc.depth < 2 && counter == Name('i', sc.next) && 1 <= bound <= 6 && |body| == 1
      then NextOnly(sc, After(body[0], inner.(next := sc.next + 1), sigs, mode)) else None
    case Block(body) =>
      if sc.depth < 2 && |body| == 2 then
        match After(body[0], inner, sigs, mode)
        case None => None
        case Some(a) => NextOnly(sc, After(body[1], a, sigs, mode))
      else None
    case Region(name, body) =>
      if mode == Boundary && sc.depth < 2 && name == Name('r', sc.next) && |body| == 1
      then NextOnly(sc, After(body[0], inner.(next := sc.next + 1), sigs, mode)) else None
    case Move(from, to, _) =>
      if mode == Boundary && from in names && to == Name('m', sc.next) then Some(Declared(sc, to, false)) else None
    case CallMut(f, target) =>
      if mode == Boundary && f in MutatorsIn(sigs) && target in VarsIn(sc.live) then Some(sc) else None
    case Print(_, _) => None
  }

  /** The names of an inner scope end with it; their numbers stay used. */
  function NextOnly(sc: Scope, inner: Option<Scope>): Option<Scope> {
    match inner
    case Some(a) => Some(sc.(next := a.next))
    case None => None
  }

  /** More fuel, more expressions. */
  lemma {:induction false} MoreFuel(e: Expr, names: seq<Name>, sigs: seq<Sig>, fuel: nat, more: nat, defined: bool)
    requires IsExpr(e, names, sigs, fuel, defined) && fuel <= more
    ensures IsExpr(e, names, sigs, more, defined)
    decreases e, 1
  {
    hide IsLeaf;
    if !IsLeaf(e, names) {
      match e
      case Bin(op, a, b) =>
        if !(op == Mul && defined) {
          MoreFuel(a, names, sigs, fuel - 1, more - 1, defined);
          if op != Div && op != Rem {
            MoreFuel(b, names, sigs, fuel - 1, more - 1, defined);
          }
        }
      case IfVal(c, a, b) =>
        MoreFuel(c.left, names, sigs, fuel - 1, more - 1, defined);
        MoreFuel(c.right, names, sigs, fuel - 1, more - 1, defined);
        MoreFuel(a, names, sigs, fuel - 1, more - 1, defined);
        MoreFuel(b, names, sigs, fuel - 1, more - 1, defined);
      case Call(f, args) =>
        MoreFuelForAll(args, names, sigs, if fuel < 2 then 0 else fuel - 2, if more < 2 then 0 else more - 2, defined);
      case Group(inner) => MoreFuel(inner, names, sigs, fuel - 1, more - 1, defined);
    }
  }

  lemma {:induction false} MoreFuelForAll(args: seq<Expr>, names: seq<Name>, sigs: seq<Sig>, fuel: nat, more: nat, defined: bool)
    requires AreExprs(args, names, sigs, fuel, defined) && fuel <= more
    ensures AreExprs(args, names, sigs, more, defined)
    decreases args, 0
  {
    if args != [] {
      MoreFuelForAll(args[..|args| - 1], names, sigs, fuel, more, defined);
      MoreFuel(args[|args| - 1], names, sigs, fuel, more, defined);
    }
  }

  lemma DeclaredIsStmt(stream: nat -> nat, at: nat, sc: Scope, sigs: seq<Sig>, mode: Mode, fuel: nat, isVar: bool)
    requires fuel == 2 || (fuel == 3 && !isVar)
    ensures var m := DeclareFrom(stream, at, sc, sigs, mode, fuel, isVar); After(m.value, sc, sigs, mode) == Some(m.scope)
  {
    hide IsExpr, ExprFrom;
    var e := ExprFrom(stream, at, NamesIn(sc.live), sigs, fuel, mode == Defined);
    DrawnIsExpr(stream, at, NamesIn(sc.live), sigs, fuel, mode == Defined);
    MoreFuel(e.value, NamesIn(sc.live), sigs, fuel, if isVar then 2 else 3, mode == Defined);
  }

  lemma LoopReads(stream: nat -> nat, at: nat, sc: Scope, sigs: seq<Sig>, mode: Mode)
    requires sc.depth < 2
    ensures var body := StmtFrom(stream, at, sc.(next := sc.next + 1, depth := sc.depth + 1), sigs, mode);
            && WhileFrom(stream, at, sc, sigs, mode)
               == Made(While(Name('i', sc.next), 1 + stream(body.next) % 6, [body.value]), sc.(next := body.scope.next),
                       body.next + 1)
            && RegionFrom(stream, at, sc, sigs, mode)
               == Made(Region(Name('r', sc.next), [body.value]), sc.(next := body.scope.next), body.next)
  {
    hide StmtFrom;
  }

  lemma BlockComesOut(a: Stmt, b: Stmt, sc: Scope, x: Scope, y: Scope, sigs: seq<Sig>, mode: Mode)
    requires sc.depth < 2 && After(a, sc.(depth := sc.depth + 1), sigs, mode) == Some(x) && After(b, x, sigs, mode) == Some(y)
    ensures After(Block([a, b]), sc, sigs, mode) == Some(sc.(next := y.next))
  {
  }

  lemma LoopComesOut(bound: int, body: Stmt, sc: Scope, x: Scope, sigs: seq<Sig>, mode: Mode)
    requires sc.depth < 2 && 1 <= bound <= 6
    requires After(body, sc.(next := sc.next + 1, depth := sc.depth + 1), sigs, mode) == Some(x)
    ensures After(While(Name('i', sc.next), bound, [body]), sc, sigs, mode) == Some(sc.(next := x.next))
    ensures mode == Boundary ==> After(Region(Name('r', sc.next), [body]), sc, sigs, mode) == Some(sc.(next := x.next))
  {
  }

  lemma OthersComeOut(sc: Scope, sigs: seq<Sig>, mode: Mode)
    ensures forall x, e :: x in VarsIn(sc.live) && IsExpr(e, NamesIn(sc.live), sigs, 2, mode == Defined) ==>
              After(Assign(x, e), sc, sigs, mode) == Some(sc)
    ensures forall x, again :: mode == Boundary && x in NamesIn(sc.live) ==>
              After(Move(x, Name('m', sc.next), again), sc, sigs, mode) == Some(Declared(sc, Name('m', sc.next), false))
    ensures forall f, x :: mode == Boundary && f in MutatorsIn(sigs) && x in VarsIn(sc.live) ==>
              After(CallMut(f, x), sc, sigs, mode) == Some(sc)
  {
    hide IsExpr;
  }

  /** Whatever is drawn, a statement of the grammar comes out, and its scope. */
  lemma {:induction false} DrawnIsStmt(stream: nat -> nat, at: nat, sc: Scope, sigs: seq<Sig>, mode: Mode)
    ensures var m := StmtFrom(stream, at, sc, sigs, mode);
            After(m.value, sc, sigs, mode) == Some(m.scope) && m.scope.depth == sc.depth
    decreases if sc.depth < 2 then 2 - sc.depth else 0, 1
  {
    hide IsExpr, IsCond, ExprFrom, CondFrom, DeclareFrom, After, IfFrom, WhileFrom, RegionFrom;
    var names, vars, boundary := NamesIn(sc.live), VarsIn(sc.live), mode == Boundary;
    var choice := stream(at) % if boundary then 10 else 7;
    var inner := sc.(depth := sc.depth + 1);
    DeclaredIsStmt(stream, at + 1, sc, sigs, mode, 3, false);
    DeclaredIsStmt(stream, at + 1, sc, sigs, mode, 2, false);
    DeclaredIsStmt(stream, at + 1, sc, sigs, mode, 2, true);
    DeclareKeepsDepth(stream, at + 1, sc, sigs, mode);
    OthersComeOut(sc, sigs, mode);
    if sc.depth < 2 {
      LoopReads(stream, at + 1, sc, sigs, mode);
    }
    if choice == 3 {
      DrawnIsExpr(stream, at + 2, names, sigs, 2, mode == Defined);
    } else if choice == 4 && sc.depth < 2 {
      DrawnIsIf(stream, at + 1, sc, sigs, mode);
    } else if choice == 5 && sc.depth < 2 {
      DrawnIsStmt(stream, at + 1, inner.(next := sc.next + 1), sigs, mode);
      var body := StmtFrom(stream, at + 1, inner.(next := sc.next + 1), sigs, mode);
      LoopComesOut(1 + stream(body.next) % 6, body.value, sc, body.scope, sigs, mode);
    } else if choice == 6 && sc.depth < 2 {
      var a := StmtFrom(stream, at + 1, inner, sigs, mode);
      DrawnIsStmt(stream, at + 1, inner, sigs, mode);
      DrawnIsStmt(stream, a.next, a.scope, sigs, mode);
      assert a.scope.(depth := sc.depth + 1) == a.scope;
      var b := StmtFrom(stream, a.next, a.scope, sigs, mode);
      BlockComesOut(a.value, b.value, sc, a.scope, b.scope, sigs, mode);
    } else if choice == 7 && boundary && sc.depth < 2 {
      DrawnIsStmt(stream, at + 1, inner.(next := sc.next + 1), sigs, mode);
      var body := StmtFrom(stream, at + 1, inner.(next := sc.next + 1), sigs, mode);
      LoopComesOut(1, body.value, sc, body.scope, sigs, mode);
    }
  }

  lemma DeclareKeepsDepth(stream: nat -> nat, at: nat, sc: Scope, sigs: seq<Sig>, mode: Mode)
    ensures forall fuel: nat, isVar :: DeclareFrom(stream, at, sc, sigs, mode, fuel, isVar).scope.depth == sc.depth
  {
    hide ExprFrom;
  }

  lemma {:induction false} DrawnIsIf(stream: nat -> nat, at: nat, sc: Scope, sigs: seq<Sig>, mode: Mode)
    requires sc.depth < 2
    ensures var m := IfFrom(stream, at, sc, sigs, mode);
            After(m.value, sc, sigs, mode) == Some(m.scope) && m.scope.depth == sc.depth
    decreases 2 - sc.depth, 0
  {
    hide IsExpr, IsCond, ExprFrom, CondFrom, StmtFrom;
    var cond := CondFrom(stream, at, NamesIn(sc.live), sigs, 1, mode == Defined);
    DrawnIsCond(stream, at, NamesIn(sc.live), sigs, 1, mode == Defined);
    var inner := sc.(depth := sc.depth + 1);
    var a := StmtFrom(stream, cond.next, inner, sigs, mode);
    DrawnIsStmt(stream, cond.next, inner, sigs, mode);
    DrawnIsStmt(stream, a.next + 1, inner.(next := a.scope.next), sigs, mode);
  }

  // -- draws for a statement ----------------------------------------------------------------------------

  ghost predicate StandForStmt(draws: seq<nat>, s: Stmt, sc: Scope, sigs: seq<Sig>, mode: Mode)
    requires After(s, sc, sigs, mode).Some?
  {
    forall stream: nat -> nat, at: nat :: Begins(stream, at, draws) ==>
      StmtFrom(stream, at, sc, sigs, mode) == Made(s, After(s, sc, sigs, mode).value, at + |draws|)
  }

  lemma AfterKeepsDepth(s: Stmt, sc: Scope, sigs: seq<Sig>, mode: Mode)
    requires After(s, sc, sigs, mode).Some?
    ensures After(s, sc, sigs, mode).value.depth == sc.depth
  {
    hide IsExpr, IsCond;
  }

  /** The draw that selects a declaration. */
  lemma DeclareUnfolds(stream: nat -> nat, at: nat, sc: Scope, sigs: seq<Sig>, mode: Mode)
    ensures stream(at) == 0 ==> StmtFrom(stream, at, sc, sigs, mode) == DeclareFrom(stream, at + 1, sc, sigs, mode, 3, false)
    ensures stream(at) == 2 ==> StmtFrom(stream, at, sc, sigs, mode) == DeclareFrom(stream, at + 1, sc, sigs, mode, 2, true)
  {
    hide DeclareFrom, IfFrom, NestedFrom;
  }

  lemma DeclareStands(s: Stmt, sc: Scope, sigs: seq<Sig>, mode: Mode) returns (draws: seq<nat>)
    requires After(s, sc, sigs, mode).Some? && (s.LetStmt? || s.VarStmt?)
    ensures StandForStmt(draws, s, sc, sigs, mode)
  {
    hide StmtFrom, ExprFrom, IsExpr, Begins, StandFor;
    var fuel := if s.VarStmt? then 2 else 3;
    var k := if s.VarStmt? then 2 else 0;
    var x := ExprStands(s.value, NamesIn(sc.live), sigs, fuel, mode == Defined);
    draws := [k] + x;
    forall stream: nat -> nat, at: nat | Begins(stream, at, draws)
      ensures StmtFrom(stream, at, sc, sigs, mode) == Made(s, After(s, sc, sigs, mode).value, at + |draws|)
    {
      BeginsOne(stream, at, k, x);
      DeclareUnfolds(stream, at, sc, sigs, mode);
      ExprStandsAt(x, s.value, NamesIn(sc.live), sigs, fuel, mode == Defined, stream, at + 1);
    }
  }

  lemma ExprStandsAt(draws: seq<nat>, e: Expr, names: seq<Name>, sigs: seq<Sig>, fuel: nat, defined: bool,
                     stream: nat -> nat, at: nat)
    requires StandFor(draws, e, names, sigs, fuel, defined) && Begins(stream, at, draws)
    ensures ExprFrom(stream, at, names, sigs, fuel, defined) == Drawn(e, at + |draws|)
  {
    hide ExprFrom, Begins;
  }

  lemma StmtStandsAt(draws: seq<nat>, s: Stmt, sc: Scope, sigs: seq<Sig>, mode: Mode, stream: nat -> nat, at: nat)
    requires After(s, sc, sigs, mode).Some? && StandForStmt(draws, s, sc, sigs, mode) && Begins(stream, at, draws)
    ensures StmtFrom(stream, at, sc, sigs, mode) == Made(s, After(s, sc, sigs, mode).value, at + |draws|)
  {
    hide StmtFrom, Begins, After;
  }

  lemma AssignUnfolds(stream: nat -> nat, at: nat, sc: Scope, sigs: seq<Sig>, mode: Mode)
    requires stream(at) == 3 && VarsIn(sc.live) != []
    ensures var value := ExprFrom(stream, at + 2, NamesIn(sc.live), sigs, 2, mode == Defined);
            StmtFrom(stream, at, sc, sigs, mode)
            == Made(Assign(VarsIn(sc.live)[stream(at + 1) % |VarsIn(sc.live)|], value.value), sc, value.next)
  {
    hide DeclareFrom, IfFrom, NestedFrom, ExprFrom;
  }

  lemma AssignStands(s: Stmt, sc: Scope, sigs: seq<Sig>, mode: Mode) returns (draws: seq<nat>)
    requires After(s, sc, sigs, mode).Some? && s.Assign?
    ensures StandForStmt(draws, s, sc, sigs, mode)
  {
    hide StmtFrom, ExprFrom, IsExpr, Begins, StandFor;
    var vars := VarsIn(sc.live);
    var k := IndexIn(vars, s.name);
    var x := ExprStands(s.value, NamesIn(sc.live), sigs, 2, mode == Defined);
    draws := [3] + ([k] + x);
    forall stream: nat -> nat, at: nat | Begins(stream, at, draws)
      ensures StmtFrom(stream, at, sc, sigs, mode) == Made(s, After(s, sc, sigs, mode).value, at + |draws|)
    {
      BeginsOne(stream, at, 3, [k] + x);
      BeginsOne(stream, at + 1, k, x);
      AssignUnfolds(stream, at, sc, sigs, mode);
      Remains(k, |vars|);
      ExprStandsAt(x, s.value, NamesIn(sc.live), sigs, 2, mode == Defined, stream, at + 2);
    }
  }

  lemma Remains(k: nat, n: nat)
    requires k < n
    ensures k % n == k
  {
  }

  lemma MoveUnfolds(stream: nat -> nat, at: nat, sc: Scope, sigs: seq<Sig>)
    ensures stream(at) == 8 && NamesIn(sc.live) != [] ==>
              StmtFrom(stream, at, sc, sigs, Boundary)
              == Made(Move(NamesIn(sc.live)[stream(at + 1) % |NamesIn(sc.live)|], Name('m', sc.next), stream(at + 2) % 3 < 2),
                      Declared(sc, Name('m', sc.next), false), at + 3)
    ensures stream(at) == 9 && MutatorsIn(sigs) != [] && VarsIn(sc.live) != [] ==>
              StmtFrom(stream, at, sc, sigs, Boundary)
              == Made(CallMut(MutatorsIn(sigs)[stream(at + 1) % |MutatorsIn(sigs)|],
                              VarsIn(sc.live)[stream(at + 2) % |VarsIn(sc.live)|]), sc, at + 3)
  {
    hide DeclareFrom, IfFrom, NestedFrom, ExprFrom;
  }

  lemma MoveStands(s: Stmt, sc: Scope, sigs: seq<Sig>, mode: Mode) returns (draws: seq<nat>)
    requires After(s, sc, sigs, mode).Some? && (s.Move? || s.CallMut?)
    ensures StandForStmt(draws, s, sc, sigs, mode)
  {
    hide StmtFrom, Begins;
    var names, vars, mutators := NamesIn(sc.live), VarsIn(sc.live), MutatorsIn(sigs);
    var a := if s.Move? then IndexIn(names, s.from) else IndexIn(mutators, s.func);
    var b := if s.Move? then (if s.reinit then 0 else 2) else IndexIn(vars, s.target);
    var c := if s.Move? then 8 else 9;
    draws := [c] + ([a] + ([b] + []));
    forall stream: nat -> nat, at: nat | Begins(stream, at, draws)
      ensures StmtFrom(stream, at, sc, sigs, mode) == Made(s, After(s, sc, sigs, mode).value, at + |draws|)
    {
      BeginsOne(stream, at, c, [a] + ([b] + []));
      BeginsOne(stream, at + 1, a, [b] + []);
      BeginsOne(stream, at + 2, b, []);
      MoveUnfolds(stream, at, sc, sigs);
      Remains(a, if s.Move? then |names| else |mutators|);
      if s.CallMut? {
        Remains(b, |vars|);
      }
    }
  }

  lemma LoopUnfolds(stream: nat -> nat, at: nat, sc: Scope, sigs: seq<Sig>, mode: Mode)
    requires sc.depth < 2
    ensures var body := StmtFrom(stream, at + 1, sc.(next := sc.next + 1, depth := sc.depth + 1), sigs, mode);
            && (stream(at) == 5 ==>
                  StmtFrom(stream, at, sc, sigs, mode)
                  == Made(While(Name('i', sc.next), 1 + stream(body.next) % 6, [body.value]), sc.(next := body.scope.next),
                          body.next + 1))
            && (stream(at) == 7 && mode == Boundary ==>
                  StmtFrom(stream, at, sc, sigs, mode)
                  == Made(Region(Name('r', sc.next), [body.value]), sc.(next := body.scope.next), body.next))
  {
    hide DeclareFrom, IfFrom, ExprFrom, WhileFrom, RegionFrom;
    LoopReads(stream, at + 1, sc, sigs, mode);
  }

  lemma LoopStands(x: seq<nat>, s: Stmt, sc: Scope, sigs: seq<Sig>, mode: Mode) returns (draws: seq<nat>)
    requires After(s, sc, sigs, mode).Some? && (s.While? || s.Region?)
    requires |s.body| == 1 && After(s.body[0], sc.(next := sc.next + 1, depth := sc.depth + 1), sigs, mode).Some?
    requires StandForStmt(x, s.body[0], sc.(next := sc.next + 1, depth := sc.depth + 1), sigs, mode)
    ensures StandForStmt(draws, s, sc, sigs, mode)
  {
    hide StmtFrom, Begins;
    var inner := sc.(next := sc.next + 1, depth := sc.depth + 1);
    var last := if s.While? then [(s.bound - 1) as nat] else [];
    var c := if s.While? then 5 else 7;
    draws := [c] + (x + last);
    assert s.body == [s.body[0]];
    forall stream: nat -> nat, at: nat | Begins(stream, at, draws)
      ensures StmtFrom(stream, at, sc, sigs, mode) == Made(s, After(s, sc, sigs, mode).value, at + |draws|)
    {
      BeginsOne(stream, at, c, x + last);
      BeginsWith(stream, at + 1, x, last);
      StmtStandsAt(x, s.body[0], inner, sigs, mode, stream, at + 1);
      LoopUnfolds(stream, at, sc, sigs, mode);
      if s.While? {
        assert last == [(s.bound - 1) as nat] + [];
        BeginsOne(stream, at + 1 + |x|, (s.bound - 1) as nat, []);
        Remains((s.bound - 1) as nat, 6);
      }
    }
  }

  lemma BlockUnfolds(stream: nat -> nat, at: nat, sc: Scope, sigs: seq<Sig>, mode: Mode)
    requires sc.depth < 2 && stream(at) == 6
    ensures var a := StmtFrom(stream, at + 1, sc.(depth := sc.depth + 1), sigs, mode);
            var b := StmtFrom(stream, a.next, a.scope.(depth := sc.depth + 1), sigs, mode);
            StmtFrom(stream, at, sc, sigs, mode) == Made(Block([a.value, b.value]), sc.(next := b.scope.next), b.next)
  {
    hide DeclareFrom, IfFrom, NestedFrom, ExprFrom;
  }

  lemma BlockStands(x: seq<nat>, y: seq<nat>, a: Stmt, b: Stmt, sc: Scope, sigs: seq<Sig>, mode: Mode)
    requires sc.depth < 2 && After(a, sc.(depth := sc.depth + 1), sigs, mode).Some?
    requires After(b, After(a, sc.(depth := sc.depth + 1), sigs, mode).value, sigs, mode).Some?
    requires StandForStmt(x, a, sc.(depth := sc.depth + 1), sigs, mode)
    requires StandForStmt(y, b, After(a, sc.(depth := sc.depth + 1), sigs, mode).value, sigs, mode)
    ensures After(Block([a, b]), sc, sigs, mode).Some? && StandForStmt([6] + (x + y), Block([a, b]), sc, sigs, mode)
  {
    hide StmtFrom, Begins, After, StandForStmt;
    var inner := sc.(depth := sc.depth + 1);
    var mid := After(a, inner, sigs, mode).value;
    AfterKeepsDepth(a, inner, sigs, mode);
    BlockComesOut(a, b, sc, mid, After(b, mid, sigs, mode).value, sigs, mode);
    forall stream: nat -> nat, at: nat | Begins(stream, at, [6] + (x + y))
      ensures StmtFrom(stream, at, sc, sigs, mode)
           == Made(Block([a, b]), After(Block([a, b]), sc, sigs, mode).value, at + |[6] + (x + y)|)
    {
      BeginsOne(stream, at, 6, x + y);
      BeginsWith(stream, at + 1, x, y);
      StmtStandsAt(x, a, inner, sigs, mode, stream, at + 1);
      StmtStandsAt(y, b, mid, sigs, mode, stream, at + 1 + |x|);
      BlockUnfolds(stream, at, sc, sigs, mode);
      assert mid.(depth := sc.depth + 1) == mid;
    }
    StandsEverywhere([6] + (x + y), Block([a, b]), sc, sigs, mode);
  }

  lemma StandsEverywhere(draws: seq<nat>, s: Stmt, sc: Scope, sigs: seq<Sig>, mode: Mode)
    requires After(s, sc, sigs, mode).Some?
    requires forall stream: nat -> nat, at: nat :: Begins(stream, at, draws) ==>
               StmtFrom(stream, at, sc, sigs, mode) == Made(s, After(s, sc, sigs, mode).value, at + |draws|)
    ensures StandForStmt(draws, s, sc, sigs, mode)
  {
    hide StmtFrom, Begins, After;
  }

  lemma IfChosen(stream: nat -> nat, at: nat, sc: Scope, sigs: seq<Sig>, mode: Mode)
    requires sc.depth < 2 && stream(at) == 4
    ensures StmtFrom(stream, at, sc, sigs, mode) == IfFrom(stream, at + 1, sc, sigs, mode)
  {
    hide DeclareFrom, IfFrom, NestedFrom, ExprFrom;
  }

  lemma IfReads(stream: nat -> nat, at: nat, sc: Scope, sigs: seq<Sig>, mode: Mode)
    requires sc.depth < 2
    ensures var inner := sc.(depth := sc.depth + 1);
            var cond := CondFrom(stream, at, NamesIn(sc.live), sigs, 1, mode == Defined);
            var a := StmtFrom(stream, cond.next, inner, sigs, mode);
            var b := StmtFrom(stream, a.next + 1, inner.(next := a.scope.next), sigs, mode);
            IfFrom(stream, at, sc, sigs, mode)
            == if stream(a.next) % 2 < 1 then Made(If(cond.value, [a.value], [b.value]), sc.(next := b.scope.next), b.next)
               else Made(If(cond.value, [a.value], []), sc.(next := a.scope.next), a.next + 1)
  {
    hide StmtFrom, CondFrom;
  }

  /** The parts of an `if` of the grammar. */
  lemma IfParts(s: Stmt, sc: Scope, sigs: seq<Sig>, mode: Mode)
    requires s.If? && After(s, sc, sigs, mode).Some?
    ensures var inner := sc.(depth := sc.depth + 1);
            && sc.depth < 2 && IsCond(s.cond, NamesIn(sc.live), sigs, 1, mode == Defined)
            && |s.then_| == 1 && s.then_ == [s.then_[0]] && After(s.then_[0], inner, sigs, mode).Some?
            && var a := After(s.then_[0], inner, sigs, mode).value;
               if s.otherwise == [] then After(s, sc, sigs, mode) == Some(sc.(next := a.next))
               else
                 && |s.otherwise| == 1 && s.otherwise == [s.otherwise[0]]
                 && After(s.otherwise[0], inner.(next := a.next), sigs, mode).Some?
                 && After(s, sc, sigs, mode)
                    == Some(sc.(next := After(s.otherwise[0], inner.(next := a.next), sigs, mode).value.next))
  {
    hide IsCond;
  }

  lemma CondStandsAt(draws: seq<nat>, e: Expr, names: seq<Name>, sigs: seq<Sig>, fuel: nat, defined: bool,
                     stream: nat -> nat, at: nat)
    requires StandForCond(draws, e, names, sigs, fuel, defined) && Begins(stream, at, draws)
    ensures CondFrom(stream, at, names, sigs, fuel, defined) == Drawn(e, at + |draws|)
  {
    hide CondFrom, Begins;
  }

  /** One arm. */
  lemma IfStandsShort(c: seq<nat>, x: seq<nat>, s: Stmt, sc: Scope, sigs: seq<Sig>, mode: Mode)
    requires s.If? && After(s, sc, sigs, mode).Some? && s.otherwise == [] && |s.then_| == 1
    requires StandForCond(c, s.cond, NamesIn(sc.live), sigs, 1, mode == Defined)
    requires After(s.then_[0], sc.(depth := sc.depth + 1), sigs, mode).Some?
    requires StandForStmt(x, s.then_[0], sc.(depth := sc.depth + 1), sigs, mode)
    ensures StandForStmt([4] + (c + (x + [1])), s, sc, sigs, mode)
  {
    hide StmtFrom, Begins, After, StandForStmt, StandForCond, CondFrom, IfFrom, IsCond;
    IfParts(s, sc, sigs, mode);
    var inner, draws := sc.(depth := sc.depth + 1), [4] + (c + (x + [1]));
    forall stream: nat -> nat, at: nat | Begins(stream, at, draws)
      ensures StmtFrom(stream, at, sc, sigs, mode) == Made(s, After(s, sc, sigs, mode).value, at + |draws|)
    {
      BeginsOne(stream, at, 4, c + (x + [1]));
      BeginsWith(stream, at + 1, c, x + [1]);
      BeginsWith(stream, at + 1 + |c|, x, [1]);
      assert [1] == [1] + [];
      BeginsOne(stream, at + 1 + |c| + |x|, 1, []);
      IfChosen(stream, at, sc, sigs, mode);
      IfReads(stream, at + 1, sc, sigs, mode);
      CondStandsAt(c, s.cond, NamesIn(sc.live), sigs, 1, mode == Defined, stream, at + 1);
      StmtStandsAt(x, s.then_[0], inner, sigs, mode, stream, at + 1 + |c|);
    }
    StandsEverywhere(draws, s, sc, sigs, mode);
  }

  /** Two arms. */
  lemma IfStandsLong(c: seq<nat>, x: seq<nat>, y: seq<nat>, s: Stmt, sc: Scope, sigs: seq<Sig>, mode: Mode)
    requires s.If? && After(s, sc, sigs, mode).Some? && |s.otherwise| == |s.then_| == 1
    requires StandForCond(c, s.cond, NamesIn(sc.live), sigs, 1, mode == Defined)
    requires After(s.then_[0], sc.(depth := sc.depth + 1), sigs, mode).Some?
    requires StandForStmt(x, s.then_[0], sc.(depth := sc.depth + 1), sigs, mode)
    requires var mid := sc.(depth := sc.depth + 1, next := After(s.then_[0], sc.(depth := sc.depth + 1), sigs, mode).value.next);
             After(s.otherwise[0], mid, sigs, mode).Some? && StandForStmt(y, s.otherwise[0], mid, sigs, mode)
    ensures StandForStmt([4] + (c + (x + ([0] + y))), s, sc, sigs, mode)
  {
    hide StmtFrom, Begins, After, StandForStmt, StandForCond, CondFrom, IfFrom, IsCond;
    IfParts(s, sc, sigs, mode);
    var inner, draws := sc.(depth := sc.depth + 1), [4] + (c + (x + ([0] + y)));
    var mid := inner.(next := After(s.then_[0], inner, sigs, mode).value.next);
    forall stream: nat -> nat, at: nat | Begins(stream, at, draws)
      ensures StmtFrom(stream, at, sc, sigs, mode) == Made(s, After(s, sc, sigs, mode).value, at + |draws|)
    {
      BeginsOne(stream, at, 4, c + (x + ([0] + y)));
      BeginsWith(stream, at + 1, c, x + ([0] + y));
      BeginsWith(stream, at + 1 + |c|, x, [0] + y);
      BeginsOne(stream, at + 1 + |c| + |x|, 0, y);
      IfChosen(stream, at, sc, sigs, mode);
      IfReads(stream, at + 1, sc, sigs, mode);
      CondStandsAt(c, s.cond, NamesIn(sc.live), sigs, 1, mode == Defined, stream, at + 1);
      StmtStandsAt(x, s.then_[0], inner, sigs, mode, stream, at + 1 + |c|);
      StmtStandsAt(y, s.otherwise[0], mid, sigs, mode, stream, at + 1 + |c| + |x| + 1);
    }
    StandsEverywhere(draws, s, sc, sigs, mode);
  }

  /** The parts of a statement with a body. */
  lemma BodyParts(s: Stmt, sc: Scope, sigs: seq<Sig>, mode: Mode)
    requires After(s, sc, sigs, mode).Some?
    ensures s.While? || s.Region? ==>
              sc.depth < 2 && |s.body| == 1 && After(s.body[0], sc.(next := sc.next + 1, depth := sc.depth + 1), sigs, mode).Some?
    ensures s.Block? ==>
              && sc.depth < 2 && |s.body| == 2 && s.body == [s.body[0], s.body[1]]
              && After(s.body[0], sc.(depth := sc.depth + 1), sigs, mode).Some?
              && After(s.body[1], After(s.body[0], sc.(depth := sc.depth + 1), sigs, mode).value, sigs, mode).Some?
  {
    hide IsExpr, IsCond;
  }

  /** Every statement of the grammar has draws that stand for it. */
  lemma {:induction false} StmtStands(s: Stmt, sc: Scope, sigs: seq<Sig>, mode: Mode) returns (draws: seq<nat>)
    requires After(s, sc, sigs, mode).Some?
    ensures StandForStmt(draws, s, sc, sigs, mode)
    decreases s
  {
    hide StandForStmt, StmtFrom, After, IsExpr, IsCond, StandForCond;
    var inner := sc.(depth := sc.depth + 1);
    BodyParts(s, sc, sigs, mode);
    match s
    case LetStmt(_, _) => draws := DeclareStands(s, sc, sigs, mode);
    case VarStmt(_, _) => draws := DeclareStands(s, sc, sigs, mode);
    case Assign(_, _) => draws := AssignStands(s, sc, sigs, mode);
    case Move(_, _, _) => draws := MoveStands(s, sc, sigs, mode);
    case CallMut(_, _) => draws := MoveStands(s, sc, sigs, mode);
    case While(_, _, body) =>
      var x := StmtStands(body[0], inner.(next := sc.next + 1), sigs, mode);
      draws := LoopStands(x, s, sc, sigs, mode);
    case Region(_, body) =>
      var x := StmtStands(body[0], inner.(next := sc.next + 1), sigs, mode);
      draws := LoopStands(x, s, sc, sigs, mode);
    case Block(body) =>
      var x := StmtStands(body[0], inner, sigs, mode);
      var y := StmtStands(body[1], After(body[0], inner, sigs, mode).value, sigs, mode);
      draws := [6] + (x + y);
      BlockStands(x, y, body[0], body[1], sc, sigs, mode);
    case If(cond, t, o) =>
      IfParts(s, sc, sigs, mode);
      var c := CondStands(cond, NamesIn(sc.live), sigs, 1, mode == Defined);
      var x := StmtStands(t[0], inner, sigs, mode);
      if o == [] {
        draws := [4] + (c + (x + [1]));
        IfStandsShort(c, x, s, sc, sigs, mode);
      } else {
        var y := StmtStands(o[0], inner.(next := After(t[0], inner, sigs, mode).value.next), sigs, mode);
        draws := [4] + (c + (x + ([0] + y)));
        IfStandsLong(c, x, y, s, sc, sigs, mode);
      }
    case Print(_, _) => NothingPrints(s, sc, sigs, mode);
  }

  lemma NothingPrints(s: Stmt, sc: Scope, sigs: seq<Sig>, mode: Mode)
    ensures s.Print? ==> After(s, sc, sigs, mode).None?
  {
  }

  // -- whole programs -----------------------------------------------------------------------------------

  function ParamNames(arity: nat): (r: seq<Name>)
    ensures |r| == arity && forall k :: 0 <= k < arity ==> r[k] == Name('p', k)
  {
    seq(arity, k requires 0 <= k < arity => Name('p', k))
  }

  function HelperFrom(stream: nat -> nat, at: nat, index: nat, sigs: seq<Sig>, mode: Mode): Drawn<Func> {
    var arity := 1 + stream(at) % 2;
    var asks := mode == Boundary && arity == 1;
    var body := ExprFrom(stream, if asks then at + 2 else at + 1, ParamNames(arity), sigs, 2, true);
    Drawn(Func(Name('f', index), ParamNames(arity), body.value, asks && stream(at + 1) % 3 < 1), body.next)
  }

  function HelpersFrom(stream: nat -> nat, at: nat, count: nat, mode: Mode): (funcs: Drawn<seq<Func>>)
    ensures |funcs.value| == count
  {
    if count == 0 then Drawn([], at)
    else
      var front := HelpersFrom(stream, at, count - 1, mode);
      var last := HelperFrom(stream, front.next, count - 1, Sigs(front.value), mode);
      Drawn(front.value + [last.value], last.next)
  }

  function StmtsFrom(stream: nat -> nat, at: nat, sc: Scope, sigs: seq<Sig>, mode: Mode, count: nat): (stmts: Made<seq<Stmt>>)
    ensures |stmts.value| == count
  {
    if count == 0 then Made([], sc, at)
    else
      var front := StmtsFrom(stream, at, sc, sigs, mode, count - 1);
      var last := StmtFrom(stream, front.next, front.scope, sigs, mode);
      Made(front.value + [last.value], last.scope, last.next)
  }

  lemma NoStmts(stream: nat -> nat, at: nat, sc: Scope, sigs: seq<Sig>, mode: Mode)
    ensures StmtsFrom(stream, at, sc, sigs, mode, 0) == Made([], sc, at)
  {
  }

  lemma OneStmtMore(stream: nat -> nat, at: nat, sc: Scope, sigs: seq<Sig>, mode: Mode, count: nat)
    ensures var front := StmtsFrom(stream, at, sc, sigs, mode, count);
            var last := StmtFrom(stream, front.next, front.scope, sigs, mode);
            StmtsFrom(stream, at, sc, sigs, mode, count + 1) == Made(front.value + [last.value], last.scope, last.next)
  {
    hide StmtFrom;
  }

  /** The scope of the seed. */
  const SEEDED := Scope([(Name('x', 0), false)], 1, 0)

  function OutputFrom(stream: nat -> nat, at: nat, live: Env): Stmt {
    if live == [] then Print("out", Lit(7)) else Print("out", Var(NamesIn(live)[stream(at) % |live|]))
  }

  function MainFrom(stream: nat -> nat, at: nat, sigs: seq<Sig>, mode: Mode): seq<Stmt> {
    var body := StmtsFrom(stream, at + 2, SEEDED, sigs, mode, 2 + stream(at) % 6);
    [LetStmt(Name('x', 0), Lit(stream(at + 1) % 50))] + body.value + [OutputFrom(stream, body.next, body.scope.live)]
  }

  function ProgramFrom(stream: nat -> nat, mode: Mode): Program {
    var funcs := HelpersFrom(stream, 1, stream(0) % 3, mode);
    Program(mode, funcs.value, MainFrom(stream, funcs.next, Sigs(funcs.value), mode))
  }

  // -- which programs there are --------------------------------------------------------------------------

  predicate IsHelper(f: Func, index: nat, sigs: seq<Sig>, mode: Mode) {
    && f.name == Name('f', index) && 1 <= |f.params| <= 2 && f.params == ParamNames(|f.params|)
    && (f.mutates ==> mode == Boundary && |f.params| == 1)
    && IsExpr(f.body, f.params, sigs, 2, true)
  }

  predicate AreHelpers(funcs: seq<Func>, mode: Mode) {
    funcs == []
    || (AreHelpers(funcs[..|funcs| - 1], mode)
        && IsHelper(funcs[|funcs| - 1], |funcs| - 1, Sigs(funcs[..|funcs| - 1]), mode))
  }

  /** The scope after the statements, if each can come out where it stands. */
  function AfterAll(stmts: seq<Stmt>, sc: Scope, sigs: seq<Sig>, mode: Mode): Option<Scope> {
    if stmts == [] then Some(sc)
    else
      match AfterAll(stmts[..|stmts| - 1], sc, sigs, mode)
      case None => None
      case Some(mid) => After(stmts[|stmts| - 1], mid, sigs, mode)
  }

  /** At most two helpers; a first name for a literal, two to seven statements, and an output of a name
    then in scope. */
  predicate IsProgram(p: Program) {
    var n := |p.main| - 1;
    && |p.funcs| <= 2 && AreHelpers(p.funcs, p.mode) && 3 <= n <= 8
    && p.main[0].LetStmt? && p.main[0].name == Name('x', 0) && p.main[0].value.Lit? && 0 <= p.main[0].value.value < 50
    && match AfterAll(p.main[1..n], SEEDED, Sigs(p.funcs), p.mode)
       case None => false
       case Some(sc) => exists k :: 0 <= k < |sc.live| && p.main[n] == Print("out", Var(sc.live[k].0))
  }

  lemma HelperComesOut(stream: nat -> nat, at: nat, index: nat, sigs: seq<Sig>, mode: Mode)
    ensures IsHelper(HelperFrom(stream, at, index, sigs, mode).value, index, sigs, mode)
  {
    hide IsExpr, ExprFrom;
    var arity := 1 + stream(at) % 2;
    var asks := mode == Boundary && arity == 1;
    DrawnIsExpr(stream, if asks then at + 2 else at + 1, ParamNames(arity), sigs, 2, true);
  }

  lemma {:induction false} HelpersComeOut(stream: nat -> nat, at: nat, count: nat, mode: Mode)
    ensures AreHelpers(HelpersFrom(stream, at, count, mode).value, mode)
  {
    hide IsHelper, HelperFrom;
    if count > 0 {
      HelpersComeOut(stream, at, count - 1, mode);
      var front := HelpersFrom(stream, at, count - 1, mode);
      HelperComesOut(stream, front.next, count - 1, Sigs(front.value), mode);
      var all := HelpersFrom(stream, at, count, mode).value;
      assert all[..|all| - 1] == front.value;
    }
  }

  lemma {:induction false} StmtsComeOut(stream: nat -> nat, at: nat, sc: Scope, sigs: seq<Sig>, mode: Mode, count: nat)
    ensures var m := StmtsFrom(stream, at, sc, sigs, mode, count); AfterAll(m.value, sc, sigs, mode) == Some(m.scope)
    ensures |sc.live| <= |StmtsFrom(stream, at, sc, sigs, mode, count).scope.live|
  {
    hide After, StmtFrom;
    if count > 0 {
      StmtsComeOut(stream, at, sc, sigs, mode, count - 1);
      var front := StmtsFrom(stream, at, sc, sigs, mode, count - 1);
      var last := StmtFrom(stream, front.next, front.scope, sigs, mode);
      DrawnIsStmt(stream, front.next, front.scope, sigs, mode);
      OnlyMoreNames(last.value, front.scope, sigs, mode);
      var all := StmtsFrom(stream, at, sc, sigs, mode, count).value;
      assert all[..|all| - 1] == front.value;
    }
  }

  lemma OnlyMoreNames(s: Stmt, sc: Scope, sigs: seq<Sig>, mode: Mode)
    requires After(s, sc, sigs, mode).Some?
    ensures |sc.live| <= |After(s, sc, sigs, mode).value.live|
  {
    hide IsExpr, IsCond;
  }

  /** Whatever is drawn, a program of the grammar comes out. */
  lemma DrawnIsProgram(stream: nat -> nat, mode: Mode)
    ensures IsProgram(ProgramFrom(stream, mode)) && ProgramFrom(stream, mode).mode == mode
  {
    hide AreHelpers, HelpersFrom, StmtsFrom, AfterAll;
    var funcs := HelpersFrom(stream, 1, stream(0) % 3, mode);
    HelpersComeOut(stream, 1, stream(0) % 3, mode);
    var at, sigs := funcs.next, Sigs(funcs.value);
    var count := 2 + stream(at) % 6;
    var body := StmtsFrom(stream, at + 2, SEEDED, sigs, mode, count);
    StmtsComeOut(stream, at + 2, SEEDED, sigs, mode, count);
    var p := ProgramFrom(stream, mode);
    assert p.main[1..|p.main| - 1] == body.value;
    var k := stream(body.next) % |body.scope.live|;
    assert NamesIn(body.scope.live)[k] == body.scope.live[k].0;
  }

  // -- draws for a program ------------------------------------------------------------------------------------

  ghost predicate StandForHelpers(draws: seq<nat>, funcs: seq<Func>, mode: Mode) {
    forall stream: nat -> nat, at: nat :: Begins(stream, at, draws) ==>
      HelpersFrom(stream, at, |funcs|, mode) == Drawn(funcs, at + |draws|)
  }

  ghost predicate StandForStmts(draws: seq<nat>, stmts: seq<Stmt>, sc: Scope, sigs: seq<Sig>, mode: Mode)
    requires AfterAll(stmts, sc, sigs, mode).Some?
  {
    forall stream: nat -> nat, at: nat :: Begins(stream, at, draws) ==>
      StmtsFrom(stream, at, sc, sigs, mode, |stmts|) == Made(stmts, AfterAll(stmts, sc, sigs, mode).value, at + |draws|)
  }

  lemma HelperIsDrawn(x: seq<nat>, a: seq<nat>, f: Func, index: nat, sigs: seq<Sig>, mode: Mode, stream: nat -> nat, at: nat)
    requires IsHelper(f, index, sigs, mode) && StandFor(x, f.body, f.params, sigs, 2, true)
    requires a == [(|f.params| - 1) as nat] + if mode == Boundary && |f.params| == 1 then [if f.mutates then 0 else 1] else []
    requires Begins(stream, at, a + x)
    ensures HelperFrom(stream, at, index, sigs, mode) == Drawn(f, at + |a + x|)
  {
    hide Begins, ExprFrom, IsExpr, StandFor;
    var n := (|f.params| - 1) as nat;
    var rest := a[1..];
    BeginsWith(stream, at, a, x);
    assert a == [n] + rest;
    BeginsOne(stream, at, n, rest);
    Remains(n, 2);
    if mode == Boundary && |f.params| == 1 {
      assert rest == [if f.mutates then 0 else 1] + [];
      BeginsOne(stream, at + 1, if f.mutates then 0 else 1, []);
    }
    ExprStandsAt(x, f.body, f.params, sigs, 2, true, stream, at + |a|);
  }

  lemma {:induction false} HelpersStand(funcs: seq<Func>, mode: Mode) returns (draws: seq<nat>)
    requires AreHelpers(funcs, mode)
    ensures StandForHelpers(draws, funcs, mode)
    decreases |funcs|
  {
    hide Begins, HelperFrom, StandFor, IsExpr, StandForHelpers;
    if funcs == [] {
      draws := [];
      NoHelpersStand(mode);
    } else {
      var n := |funcs| - 1;
      var front, f := funcs[..n], funcs[n];
      var x := HelpersStand(front, mode);
      var y := ExprStands(f.body, f.params, Sigs(front), 2, true);
      var a := [(|f.params| - 1) as nat] + if mode == Boundary && |f.params| == 1 then [if f.mutates then 0 else 1] else [];
      draws := x + (a + y);
      assert funcs == front + [f];
      OneHelperMore(x, y, a, front, f, mode);
    }
  }

  lemma NoHelpersStand(mode: Mode)
    ensures StandForHelpers([], [], mode)
  {
  }

  lemma OneHelperMore(x: seq<nat>, y: seq<nat>, a: seq<nat>, front: seq<Func>, f: Func, mode: Mode)
    requires StandForHelpers(x, front, mode) && IsHelper(f, |front|, Sigs(front), mode)
    requires StandFor(y, f.body, f.params, Sigs(front), 2, true)
    requires a == [(|f.params| - 1) as nat] + if mode == Boundary && |f.params| == 1 then [if f.mutates then 0 else 1] else []
    ensures StandForHelpers(x + (a + y), front + [f], mode)
  {
    hide Begins, HelperFrom, StandFor, IsHelper;
    var draws := x + (a + y);
    forall stream: nat -> nat, at: nat | Begins(stream, at, draws)
      ensures HelpersFrom(stream, at, |front + [f]|, mode) == Drawn(front + [f], at + |draws|)
    {
      BeginsWith(stream, at, x, a + y);
      HelpersStandAt(x, front, mode, stream, at);
      HelperIsDrawn(y, a, f, |front|, Sigs(front), mode, stream, at + |x|);
    }
  }

  lemma {:induction false} StmtsStand(stmts: seq<Stmt>, sc: Scope, sigs: seq<Sig>, mode: Mode) returns (draws: seq<nat>)
    requires AfterAll(stmts, sc, sigs, mode).Some?
    ensures StandForStmts(draws, stmts, sc, sigs, mode)
    decreases |stmts|
  {
    hide Begins, StmtFrom, After, StandForStmt;
    if stmts == [] {
      draws := [];
    } else {
      var n := |stmts| - 1;
      var mid := AfterAll(stmts[..n], sc, sigs, mode).value;
      var x := StmtsStand(stmts[..n], sc, sigs, mode);
      var y := StmtStands(stmts[n], mid, sigs, mode);
      draws := x + y;
      assert stmts == stmts[..n] + [stmts[n]];
      forall stream: nat -> nat, at: nat | Begins(stream, at, draws)
        ensures StmtsFrom(stream, at, sc, sigs, mode, |stmts|) == Made(stmts, AfterAll(stmts, sc, sigs, mode).value, at + |draws|)
      {
        BeginsWith(stream, at, x, y);
        StmtStandsAt(y, stmts[n], mid, sigs, mode, stream, at + |x|);
      }
    }
  }

  lemma HelpersStandAt(draws: seq<nat>, funcs: seq<Func>, mode: Mode, stream: nat -> nat, at: nat)
    requires StandForHelpers(draws, funcs, mode) && Begins(stream, at, draws)
    ensures HelpersFrom(stream, at, |funcs|, mode) == Drawn(funcs, at + |draws|)
  {
    hide Begins, HelpersFrom;
  }

  lemma StmtsStandAt(draws: seq<nat>, stmts: seq<Stmt>, sc: Scope, sigs: seq<Sig>, mode: Mode, stream: nat -> nat, at: nat)
    requires AfterAll(stmts, sc, sigs, mode).Some? && StandForStmts(draws, stmts, sc, sigs, mode) && Begins(stream, at, draws)
    ensures StmtsFrom(stream, at, sc, sigs, mode, |stmts|) == Made(stmts, AfterAll(stmts, sc, sigs, mode).value, at + |draws|)
  {
    hide Begins, StmtsFrom, AfterAll;
  }

  lemma MainStands(y: seq<nat>, k: nat, main: seq<Stmt>, sc: Scope, sigs: seq<Sig>, mode: Mode, stream: nat -> nat, at: nat)
    requires var n := |main| - 1;
             && 3 <= n <= 8 && main[0].LetStmt? && main[0].name == Name('x', 0) && main[0].value.Lit?
             && 0 <= main[0].value.value < 50 && AfterAll(main[1..n], SEEDED, sigs, mode) == Some(sc)
             && k < |sc.live| && main[n] == Print("out", Var(sc.live[k].0))
             && StandForStmts(y, main[1..n], SEEDED, sigs, mode)
             && Begins(stream, at, [(n - 3) as nat] + ([main[0].value.value as nat] + (y + [k])))
    ensures MainFrom(stream, at, sigs, mode) == main
  {
    hide Begins, StmtsFrom, AfterAll, StandForStmts;
    var n := |main| - 1;
    var count, seed := (n - 3) as nat, main[0].value.value as nat;
    BeginsOne(stream, at, count, [seed] + (y + [k]));
    BeginsOne(stream, at + 1, seed, y + [k]);
    BeginsWith(stream, at + 2, y, [k]);
    assert [k] == [k] + [];
    BeginsOne(stream, at + 2 + |y|, k, []);
    Remains(count, 6);
    Remains(seed, 50);
    Remains(k, |sc.live|);
    StmtsStandAt(y, main[1..n], SEEDED, sigs, mode, stream, at + 2);
    assert main == [main[0]] + main[1..n] + [main[n]];
  }

  lemma ProgramStands(p: Program) returns (stream: nat -> nat)
    requires IsProgram(p)
    ensures ProgramFrom(stream, p.mode) == p
  {
    hide Begins, AreHelpers, AfterAll, HelpersFrom, MainFrom, StandForHelpers, StandForStmts;
    var n, sigs := |p.main| - 1, Sigs(p.funcs);
    var sc := AfterAll(p.main[1..n], SEEDED, sigs, p.mode).value;
    var k: nat :| k < |sc.live| && p.main[n] == Print("out", Var(sc.live[k].0));
    var x := HelpersStand(p.funcs, p.mode);
    var y := StmtsStand(p.main[1..n], SEEDED, sigs, p.mode);
    var main := [(n - 3) as nat] + ([p.main[0].value.value as nat] + (y + [k]));
    var draws := [|p.funcs|] + (x + main);
    stream := Padded(draws);
    PaddedBegins(draws);
    BeginsOne(stream, 0, |p.funcs|, x + main);
    BeginsWith(stream, 1, x, main);
    Remains(|p.funcs|, 3);
    HelpersStandAt(x, p.funcs, p.mode, stream, 1);
    MainStands(y, k, p.main, sc, sigs, p.mode, stream, 1 + |x|);
  }

  /** A program comes out of some stream if and only if it is one of the grammar. */
  lemma DrawnPrograms(p: Program)
    ensures IsProgram(p) <==> exists stream: nat -> nat :: ProgramFrom(stream, p.mode) == p
  {
    hide IsProgram, ProgramFrom;
    if IsProgram(p) {
      var stream := ProgramStands(p);
      assert ProgramFrom(stream, p.mode) == p;
    }
    if stream: nat -> nat :| ProgramFrom(stream, p.mode) == p {
      DrawnIsProgram(stream, p.mode);
    }
  }
}
