/** What the reducer's edits and simplifications reach: which statement an edit's path of indices
  hits, and which nodes a number replaces. */
module FuzzReach {
  import opened FuzzTree
  import opened FuzzReduce

  // -- statements -------------------------------------------------------------------------------

  /** Where a statement is, the arms of an `if` told apart. */
  datatype Place = Here(index: nat) | In(index: nat, second: bool, inner: Place)

  predicate IsContainer(s: Stmt) {
    s.If? || HasBody(s)
  }

  /** The statements of the arm `second` says, or of the body. */
  function Arm(s: Stmt, second: bool): seq<Stmt>
    requires IsContainer(s)
  {
    if !s.If? then s.body else if second then s.otherwise else s.then_
  }

  function WithArm(s: Stmt, second: bool, arm: seq<Stmt>): Stmt
    requires IsContainer(s)
  {
    if !s.If? then WithBody(s, arm) else if second then If(s.cond, s.then_, arm) else If(s.cond, arm, s.otherwise)
  }

  predicate Valid(stmts: seq<Stmt>, p: Place) {
    && p.index < |stmts|
    && (p.In? ==> var s := stmts[p.index];
                  IsContainer(s) && (p.second ==> s.If?) && Valid(Arm(s, p.second), p.inner))
  }

  function StmtAt(stmts: seq<Stmt>, p: Place): Stmt
    requires Valid(stmts, p)
  {
    match p
    case Here(k) => stmts[k]
    case In(k, second, inner) => StmtAt(Arm(stmts[k], second), inner)
  }

  /** The path an edit at this place carries: its indices, the arms forgotten. */
  function Indices(p: Place): (path: seq<nat>)
    ensures path != [] && path[0] == p.index
  {
    match p
    case Here(k) => [k]
    case In(k, _, inner) => [k] + Indices(inner)
  }

  /** `stmts` with just the statement at this place removed or unwrapped. */
  function Edited(stmts: seq<Stmt>, p: Place, unwrap: bool): seq<Stmt>
    requires Valid(stmts, p)
  {
    var s := stmts[p.index];
    var now := match p
      case Here(_) => if unwrap then Kept(s) else []
      case In(_, second, inner) => [WithArm(s, second, Edited(Arm(s, second), inner, unwrap))];
    stmts[..p.index] + now + stmts[p.index + 1..]
  }

  /** Some place carries this path, and its statement can be edited so. */
  ghost predicate Addressed(stmts: seq<Stmt>, path: seq<nat>, unwrap: bool) {
    exists p :: Valid(stmts, p) && Indices(p) == path && (unwrap ==> IsContainer(StmtAt(stmts, p)))
  }

  /** Wherever the place enters the second arm of an `if`, the rest of its path addresses nothing
    in the first. */
  ghost predicate Unshadowed(stmts: seq<Stmt>, p: Place, unwrap: bool)
    requires Valid(stmts, p)
  {
    p.In? ==>
      var s := stmts[p.index];
      && (p.second ==> !Addressed(s.then_, Indices(p.inner), unwrap))
      && Unshadowed(Arm(s, p.second), p.inner, unwrap)
  }

  lemma AddressedHere(stmts: seq<Stmt>, path: seq<nat>, unwrap: bool)
    ensures Addressed(stmts, path, unwrap) ==> path != [] && path[0] < |stmts|
    ensures |path| == 1 ==>
              (Addressed(stmts, path, unwrap) <==> path[0] < |stmts| && (unwrap ==> IsContainer(stmts[path[0]])))
  {
    if |path| == 1 && path[0] < |stmts| {
      var p := Here(path[0]);
      assert Valid(stmts, p) && Indices(p) == path && StmtAt(stmts, p) == stmts[path[0]];
      if q :| Valid(stmts, q) && Indices(q) == path && (unwrap ==> IsContainer(StmtAt(stmts, q))) {
        assert q.Here?;
      }
    }
  }

  lemma AddressedWithin(stmts: seq<Stmt>, path: seq<nat>, unwrap: bool)
    requires |path| > 1 && path[0] < |stmts|
    ensures var s, rest := stmts[path[0]], path[1..];
            Addressed(stmts, path, unwrap) <==>
              || (s.If? && (Addressed(s.then_, rest, unwrap) || Addressed(s.otherwise, rest, unwrap)))
              || (HasBody(s) && Addressed(s.body, rest, unwrap))
  {
    var s, rest := stmts[path[0]], path[1..];
    if p :| Valid(stmts, p) && Indices(p) == path && (unwrap ==> IsContainer(StmtAt(stmts, p))) {
      assert p.In? && Indices(p.inner) == rest;
      assert Valid(Arm(s, p.second), p.inner);
    }
    forall second, q | IsContainer(s) && (second ==> s.If?) && Valid(Arm(s, second), q) && Indices(q) == rest
                       && (unwrap ==> IsContainer(StmtAt(Arm(s, second), q)))
      ensures Addressed(stmts, path, unwrap)
    {
      var p := In(path[0], second, q);
      assert Indices(p) == [path[0]] + rest == path;
      assert Valid(stmts, p) && StmtAt(stmts, p) == StmtAt(Arm(s, second), q);
    }
    if s.If? && Addressed(s.then_, rest, unwrap) {
      assert s.then_ == Arm(s, false);
    }
    if s.If? && Addressed(s.otherwise, rest, unwrap) {
      assert s.otherwise == Arm(s, true);
    }
    if HasBody(s) && Addressed(s.body, rest, unwrap) {
      assert s.body == Arm(s, false);
    }
  }

  /** An edit changes something exactly when its path addresses something. */
  lemma {:induction false} ChangesWhatIsAddressed(stmts: seq<Stmt>, path: seq<nat>, unwrap: bool)
    ensures Rebuild(stmts, path, unwrap) != stmts <==> Addressed(stmts, path, unwrap)
    decreases |path|
  {
    hide Addressed;
    AddressedHere(stmts, path, unwrap);
    if path != [] && path[0] < |stmts| {
      var k, s, rest := path[0], stmts[path[0]], path[1..];
      assert stmts == stmts[..k] + [s] + stmts[k + 1..];
      if rest == [] {
        EditedAlone(stmts, k, unwrap);
      } else {
        AddressedWithin(stmts, path, unwrap);
        if s.If? {
          ChangesWhatIsAddressed(s.then_, rest, unwrap);
          ChangesWhatIsAddressed(s.otherwise, rest, unwrap);
        } else if HasBody(s) {
          ChangesWhatIsAddressed(s.body, rest, unwrap);
        }
        InsideChanges(stmts, k, rest, unwrap);
      }
    }
  }

  /** A statement that goes, or a container that opens, leaves fewer statements. */
  lemma EditedAlone(stmts: seq<Stmt>, k: nat, unwrap: bool)
    requires k < |stmts|
    ensures Rebuild(stmts, [k], unwrap) != stmts <==> (unwrap ==> IsContainer(stmts[k]))
  {
    var s := stmts[k];
    var path: seq<nat> := [k];
    var nowhere: seq<nat> := [];
    assert path[1..] == nowhere;
    var now := RebuildAt(s, nowhere, unwrap);
    assert Rebuild(stmts, path, unwrap) == stmts[..k] + now + stmts[k + 1..];
    assert stmts == stmts[..k] + [s] + stmts[k + 1..];
    SizesAround(stmts, k, now);
    if s.If? {
      SizesAppend(s.then_, s.otherwise);
    }
  }

  lemma InsideChanges(stmts: seq<Stmt>, k: nat, rest: seq<nat>, unwrap: bool)
    requires k < |stmts| && rest != []
    ensures Rebuild(stmts, [k] + rest, unwrap) == stmts <==> RebuildInside(stmts[k], rest, unwrap) == stmts[k]
    ensures Rebuild(stmts, [k] + rest, unwrap) == stmts[k := RebuildInside(stmts[k], rest, unwrap)]
  {
    var path := [k] + rest;
    assert path[1..] == rest;
    var now := RebuildInside(stmts[k], rest, unwrap);
    assert Rebuild(stmts, path, unwrap) == stmts[..k] + [now] + stmts[k + 1..] == stmts[k := now];
    assert stmts[k := now][k] == now;
  }

  lemma EditedWithin(stmts: seq<Stmt>, p: Place, unwrap: bool)
    requires Valid(stmts, p) && p.In?
    ensures var s := stmts[p.index];
            Edited(stmts, p, unwrap) == stmts[p.index := WithArm(s, p.second, Edited(Arm(s, p.second), p.inner, unwrap))]
  {
  }

  /** An edit edits the statement it was offered for exactly when that is not shadowed: no first
    arm on the way has, at the same indices, something the edit would change instead. */
  lemma {:induction false} EditHitsUnlessShadowed(stmts: seq<Stmt>, p: Place, unwrap: bool)
    requires Valid(stmts, p) && (unwrap ==> IsContainer(StmtAt(stmts, p)))
    ensures Rebuild(stmts, Indices(p), unwrap) == Edited(stmts, p, unwrap) <==> Unshadowed(stmts, p, unwrap)
    decreases p
  {
    hide Addressed;
    match p
    case Here(k) =>
      var path: seq<nat> := [k];
      var nowhere: seq<nat> := [];
      assert path[1..] == nowhere;
      assert Indices(p) == path;
      assert RebuildAt(stmts[k], nowhere, unwrap) == if unwrap then Kept(stmts[k]) else [];
    case In(k, second, inner) =>
      var s, rest := stmts[k], Indices(inner);
      var arm := Arm(s, second);
      assert Valid(arm, inner);
      EditHitsUnlessShadowed(arm, inner, unwrap);
      ItsArmIsAddressed(arm, inner, unwrap);
      ChangesWhatIsAddressed(arm, rest, unwrap);
      if s.If? {
        ChangesWhatIsAddressed(s.then_, rest, unwrap);
      }
      InsideChanges(stmts, k, rest, unwrap);
      EditedWithin(stmts, p, unwrap);
      var now, meant := RebuildInside(s, rest, unwrap), WithArm(s, second, Edited(arm, inner, unwrap));
      assert stmts[k := now] == stmts[k := meant] <==> now == meant by {
        assert stmts[k := now][k] == now && stmts[k := meant][k] == meant;
      }
  }

  lemma ItsArmIsAddressed(stmts: seq<Stmt>, p: Place, unwrap: bool)
    requires Valid(stmts, p) && (unwrap ==> IsContainer(StmtAt(stmts, p)))
    ensures Addressed(stmts, Indices(p), unwrap)
  {
  }

  /** The edits of this place are offered under this path, the place's own first index apart. */
  predicate OfferedFor(stmts: seq<Stmt>, p: Place, here: seq<nat>, edits: seq<Edit>)
    requires Valid(stmts, p)
  {
    Remove(here) in edits && (IsContainer(StmtAt(stmts, p)) ==> Unwrap(here) in edits)
  }

  /** Every statement at any depth has its edits offered. */
  lemma {:induction false} EveryPlaceIsOffered(stmts: seq<Stmt>, index: nat, path: seq<nat>, p: Place)
    requires Valid(stmts, p)
    ensures OfferedFor(stmts, p, path + [index + p.index] + Indices(p)[1..], EditsFrom(stmts, index, path))
    decreases |Indices(p)|, p.index
  {
    hide EditsFrom, StmtAt, OfferedFor;
    if p.index > 0 {
      var q := if p.Here? then Here(p.index - 1) else In(p.index - 1, p.second, p.inner);
      NextPlace(stmts, p, q);
      EveryPlaceIsOffered(stmts[1..], index + 1, path, q);
      OfferedLater(stmts, index, path, p, q);
    } else if p.Here? {
      OfferedFirst(stmts, index, path, p);
    } else {
      EveryPlaceIsOffered(Arm(stmts[0], p.second), 0, path + [index], p.inner);
      OfferedInside(stmts, index, path, p);
    }
  }

  lemma OfferedFirst(stmts: seq<Stmt>, index: nat, path: seq<nat>, p: Place)
    requires Valid(stmts, p) && p == Here(0)
    ensures OfferedFor(stmts, p, path + [index + p.index] + Indices(p)[1..], EditsFrom(stmts, index, path))
  {
    hide EditsFrom;
    assert path + [index + p.index] + Indices(p)[1..] == path + [index + 0];
    OfferedAt(stmts, index, path, 0);
  }

  lemma OfferedInside(stmts: seq<Stmt>, index: nat, path: seq<nat>, p: Place)
    requires Valid(stmts, p) && p.In? && p.index == 0
    requires var arm, spot := Arm(stmts[0], p.second), path + [index];
             OfferedFor(arm, p.inner, spot + [0 + p.inner.index] + Indices(p.inner)[1..], EditsFrom(arm, 0, spot))
    ensures OfferedFor(stmts, p, path + [index + p.index] + Indices(p)[1..], EditsFrom(stmts, index, path))
  {
    var s := stmts[0];
    var arm, spot := Arm(s, p.second), path + [index];
    assert Indices(p)[1..] == Indices(p.inner) == [0 + p.inner.index] + Indices(p.inner)[1..];
    assert path + [index + p.index] + Indices(p)[1..] == spot + [0 + p.inner.index] + Indices(p.inner)[1..];
    ArmIsWalked(s, p.second, spot);
    assert EditsFrom(stmts, index, path) == EditsOf(s, spot) + EditsFrom(stmts[1..], index + 1, path);
    assert StmtAt(stmts, p) == StmtAt(arm, p.inner);
  }

  lemma ArmIsWalked(s: Stmt, second: bool, here: seq<nat>)
    requires IsContainer(s) && (second ==> s.If?)
    ensures forall e :: e in EditsFrom(Arm(s, second), 0, here) ==> e in EditsOf(s, here)
  {
    hide EditsFrom;
  }

  lemma NextPlace(stmts: seq<Stmt>, p: Place, q: Place)
    requires Valid(stmts, p) && p.index > 0
    requires q == if p.Here? then Here(p.index - 1) else In(p.index - 1, p.second, p.inner)
    ensures Valid(stmts[1..], q) && StmtAt(stmts[1..], q) == StmtAt(stmts, p) && Indices(q)[1..] == Indices(p)[1..]
  {
  }

  lemma OfferedLater(stmts: seq<Stmt>, index: nat, path: seq<nat>, p: Place, q: Place)
    requires Valid(stmts, p) && p.index > 0 && Valid(stmts[1..], q) && StmtAt(stmts[1..], q) == StmtAt(stmts, p)
    requires q.index == p.index - 1 && Indices(q)[1..] == Indices(p)[1..]
    requires OfferedFor(stmts[1..], q, path + [index + 1 + q.index] + Indices(q)[1..], EditsFrom(stmts[1..], index + 1, path))
    ensures OfferedFor(stmts, p, path + [index + p.index] + Indices(p)[1..], EditsFrom(stmts, index, path))
  {
    hide StmtAt, Indices, EditsOf;
    assert path + [index + 1 + q.index] == path + [index + p.index];
    assert EditsFrom(stmts, index, path) == EditsOf(stmts[0], path + [index]) + EditsFrom(stmts[1..], index + 1, path);
  }

  /** At every place of every program the removal, and the unwrapping of a container, is offered;
    and an offered edit does to its place what it should, and nothing else, if and only if the
    place is not shadowed for it. */
  lemma EachEditHitsUnlessShadowed(stmts: seq<Stmt>, p: Place)
    requires Valid(stmts, p)
    ensures Remove(Indices(p)) in StmtEdits(stmts)
    ensures ApplyEdit(stmts, Remove(Indices(p))) == Edited(stmts, p, false) <==> Unshadowed(stmts, p, false)
    ensures IsContainer(StmtAt(stmts, p)) ==>
              && Unwrap(Indices(p)) in StmtEdits(stmts)
              && (ApplyEdit(stmts, Unwrap(Indices(p))) == Edited(stmts, p, true) <==> Unshadowed(stmts, p, true))
  {
    hide EditsFrom, Rebuild, Edited, Unshadowed;
    var nowhere: seq<nat> := [];
    EveryPlaceIsOffered(stmts, 0, nowhere, p);
    assert nowhere + [0 + p.index] + Indices(p)[1..] == Indices(p);
    EditHitsUnlessShadowed(stmts, p, false);
    if IsContainer(StmtAt(stmts, p)) {
      EditHitsUnlessShadowed(stmts, p, true);
    }
  }

  /** So a program no offered edit improves is minimal at every place that is not shadowed. */
  lemma MinimalWhereUnshadowed(prog: Program, keeps: Program -> bool, p: Place, unwrap: bool)
    requires OneMinimal(prog, keeps) && Valid(prog.main, p)
    requires (unwrap ==> IsContainer(StmtAt(prog.main, p))) && Unshadowed(prog.main, p, unwrap)
    ensures !keeps(prog.(main := Edited(prog.main, p, unwrap)))
  {
    hide StmtEdits, Rebuild, Edited, Unshadowed, Addressed;
    EachEditHitsUnlessShadowed(prog.main, p);
    ItsArmIsAddressed(prog.main, p, unwrap);
    ChangesWhatIsAddressed(prog.main, Indices(p), unwrap);
    var e := if unwrap then Unwrap(Indices(p)) else Remove(Indices(p));
    var k :| 0 <= k < |StmtEdits(prog.main)| && StmtEdits(prog.main)[k] == e;
  }

  // -- expressions ------------------------------------------------------------------------------

  /** `x` is `e` with one node that is not a literal replaced by the literal one. */
  predicate Replaces(e: Expr, x: Expr)
    decreases e
  {
    || (!e.Lit? && x == Lit(1))
    || match e
       case Bin(op, a, b) =>
         x.Bin? && x.op == op && ((Replaces(a, x.left) && x.right == b) || (x.left == a && Replaces(b, x.right)))
       case Cmp(op, a, b) =>
         x.Cmp? && x.cmp == op && ((Replaces(a, x.left) && x.right == b) || (x.left == a && Replaces(b, x.right)))
       case IfVal(c, a, b) =>
         && x.IfVal?
         && (|| (Replaces(c, x.cond) && x.yes == a && x.no == b)
             || (x.cond == c && Replaces(a, x.yes) && x.no == b)
             || (x.cond == c && x.yes == a && Replaces(b, x.no)))
       case Call(f, args) => x.Call? && x.func == f && ReplacesOne(args, x.args)
       case Group(inner) => x.Group? && Replaces(inner, x.inner)
       case _ => false
  }

  predicate ReplacesOne(es: seq<Expr>, xs: seq<Expr>)
    decreases es
  {
    && es != [] && |xs| == |es|
    && ((Replaces(es[0], xs[0]) && xs[1..] == es[1..]) || (xs[0] == es[0] && ReplacesOne(es[1..], xs[1..])))
  }

  /** `x` is `s` with one such node replaced, in a value, a condition or a statement inside. */
  predicate ReplacesIn(s: Stmt, x: Stmt)
    decreases s
  {
    match s
    case LetStmt(name, v) => x.LetStmt? && x.name == name && Replaces(v, x.value)
    case VarStmt(name, v) => x.VarStmt? && x.name == name && Replaces(v, x.value)
    case Assign(name, v) => x.Assign? && x.name == name && Replaces(v, x.value)
    case Print(prefix, v) => x.Print? && x.prefix == prefix && Replaces(v, x.value)
    case If(cond, t, o) =>
      && x.If?
      && (|| (Replaces(cond, x.cond) && x.then_ == t && x.otherwise == o)
          || (x.cond == cond && ReplacesAmong(t, x.then_) && x.otherwise == o)
          || (x.cond == cond && x.then_ == t && ReplacesAmong(o, x.otherwise)))
    case While(c, bound, body) => x.While? && x.counter == c && x.bound == bound && ReplacesAmong(body, x.body)
    case Block(body) => x.Block? && ReplacesAmong(body, x.body)
    case Region(name, body) => x.Region? && x.name == name && ReplacesAmong(body, x.body)
    case _ => false
  }

  predicate ReplacesAmong(stmts: seq<Stmt>, xs: seq<Stmt>)
    decreases stmts
  {
    && stmts != [] && |xs| == |stmts|
    && ((ReplacesIn(stmts[0], xs[0]) && xs[1..] == stmts[1..]) || (xs[0] == stmts[0] && ReplacesAmong(stmts[1..], xs[1..])))
  }

  // -- every number replaces one node, or none ----------------------------------------------------

  lemma {:induction false} ExprIsReplaced(e: Expr, target: nat, counter: nat)
    ensures var x := SimplifyExpr(e, target, counter).0; x == e || Replaces(e, x)
    ensures SimplifyExpr(e, target, counter).0 != e ==> counter <= target < SimplifyExpr(e, target, counter).1
    decreases e
  {
    if !(counter == target && !e.Lit?) {
      match e
      case Bin(_, a, b) =>
        ExprIsReplaced(a, target, counter + 1);
        ExprIsReplaced(b, target, SimplifyExpr(a, target, counter + 1).1);
        PairIsReplaced(a, b, target, counter + 1);
      case Cmp(_, a, b) =>
        ExprIsReplaced(a, target, counter + 1);
        ExprIsReplaced(b, target, SimplifyExpr(a, target, counter + 1).1);
        PairIsReplaced(a, b, target, counter + 1);
      case IfVal(c, a, b) =>
        var (_, n) := SimplifyExpr(c, target, counter + 1);
        ExprIsReplaced(c, target, counter + 1);
        ExprIsReplaced(a, target, n);
        ExprIsReplaced(b, target, SimplifyExpr(a, target, n).1);
        PairIsReplaced(a, b, target, n);
        if target < n {
          Untouched(a, target, n);
          Untouched(b, target, SimplifyExpr(a, target, n).1);
        }
      case Call(_, args) => ArgsAreReplaced(args, target, counter + 1);
      case Group(inner) => ExprIsReplaced(inner, target, counter + 1);
      case _ =>
    }
  }

  /** A number already passed replaces nothing. */
  lemma Untouched(e: Expr, target: nat, counter: nat)
    requires target < counter
    ensures SimplifyExpr(e, target, counter).0 == e && SimplifyExpr(e, target, counter).1 > counter
  {
    PassesExpr(e, target, counter);
  }

  /** At most one of two that are numbered one after the other is touched. */
  lemma PairIsReplaced(a: Expr, b: Expr, target: nat, counter: nat)
    requires var (x, n) := SimplifyExpr(a, target, counter); x != a ==> target < n
    ensures var (x, n) := SimplifyExpr(a, target, counter); x == a || SimplifyExpr(b, target, n).0 == b
  {
    var (x, n) := SimplifyExpr(a, target, counter);
    if x != a {
      Untouched(b, target, n);
    }
  }

  lemma {:induction false} ArgsAreReplaced(es: seq<Expr>, target: nat, counter: nat)
    ensures var xs := SimplifyArgs(es, target, counter).0; xs == es || ReplacesOne(es, xs)
    ensures SimplifyArgs(es, target, counter).0 != es ==> counter <= target < SimplifyArgs(es, target, counter).1
    decreases es
  {
    if es != [] {
      var (x, n) := SimplifyExpr(es[0], target, counter);
      ExprIsReplaced(es[0], target, counter);
      ArgsAreReplaced(es[1..], target, n);
      assert [es[0]] + es[1..] == es;
      if x != es[0] {
        PassesArgs(es[1..], target, n);
      }
    }
  }

  lemma {:induction false} StmtIsReplaced(s: Stmt, target: nat, counter: nat)
    ensures var x := SimplifyStmt(s, target, counter).0; x == s || ReplacesIn(s, x)
    ensures SimplifyStmt(s, target, counter).0 != s ==> target < SimplifyStmt(s, target, counter).1
    decreases s
  {
    hide SimplifyExpr, Replaces;
    match s
    case LetStmt(_, v) => ExprIsReplaced(v, target, counter);
    case VarStmt(_, v) => ExprIsReplaced(v, target, counter);
    case Assign(_, v) => ExprIsReplaced(v, target, counter);
    case Print(_, v) => ExprIsReplaced(v, target, counter);
    case If(cond, t, o) =>
      var (x, n) := SimplifyExpr(cond, target, counter);
      var (ts, m) := SimplifyNth(t, target, n);
      ExprIsReplaced(cond, target, counter);
      StmtsAreReplaced(t, target, n);
      StmtsAreReplaced(o, target, m);
      if x != cond {
        PassesOver(t, target, n);
      }
      if x != cond || ts != t {
        PassesOver(o, target, m);
      }
    case While(_, _, body) => StmtsAreReplaced(body, target, counter);
    case Block(body) => StmtsAreReplaced(body, target, counter);
    case Region(_, body) => StmtsAreReplaced(body, target, counter);
    case _ =>
  }

  lemma {:induction false} StmtsAreReplaced(stmts: seq<Stmt>, target: nat, counter: nat)
    ensures var xs := SimplifyNth(stmts, target, counter).0; xs == stmts || ReplacesAmong(stmts, xs)
    ensures SimplifyNth(stmts, target, counter).0 != stmts ==> target < SimplifyNth(stmts, target, counter).1
    decreases stmts
  {
    hide SimplifyStmt, ReplacesIn;
    if stmts != [] {
      var (x, n) := SimplifyStmt(stmts[0], target, counter);
      StmtIsReplaced(stmts[0], target, counter);
      StmtsAreReplaced(stmts[1..], target, n);
      assert [stmts[0]] + stmts[1..] == stmts;
      if x != stmts[0] {
        PassesOver(stmts[1..], target, n);
      }
    }
  }

  // -- and every node has its number ---------------------------------------------------------------

  lemma {:induction false} NodeIsNumbered(e: Expr, x: Expr, counter: nat) returns (t: nat)
    requires Replaces(e, x)
    ensures counter <= t < counter + CountExpr(e)
    ensures SimplifyExpr(e, t, counter).0 == x && t < SimplifyExpr(e, t, counter).1
    decreases e
  {
    if !e.Lit? && x == Lit(1) {
      t := counter;
    } else {
      match e
      case Bin(_, a, b) => t := PairIsNumbered(e, a, b, x.left, x.right, counter + 1);
      case Cmp(_, a, b) => t := PairIsNumbered(e, a, b, x.left, x.right, counter + 1);
      case IfVal(c, a, b) =>
        if Replaces(c, x.cond) && x.yes == a && x.no == b {
          t := NodeIsNumbered(c, x.cond, counter + 1);
          var n := SimplifyExpr(c, t, counter + 1).1;
          Untouched(a, t, n);
          Untouched(b, t, SimplifyExpr(a, t, n).1);
        } else {
          t := PairIsNumbered(e, a, b, x.yes, x.no, counter + 1 + CountExpr(c));
          PassesExpr(c, t, counter + 1);
        }
      case Call(_, args) => t := ArgIsNumbered(args, x.args, counter + 1);
      case Group(inner) => t := NodeIsNumbered(inner, x.inner, counter + 1);
    }
  }

  lemma {:induction false} PairIsNumbered(e: Expr, a: Expr, b: Expr, x: Expr, y: Expr, counter: nat) returns (t: nat)
    requires (e.Bin? && e.left == a && e.right == b) || (e.Cmp? && e.left == a && e.right == b)
          || (e.IfVal? && e.yes == a && e.no == b)
    requires (Replaces(a, x) && y == b) || (x == a && Replaces(b, y))
    ensures counter <= t < counter + CountExpr(a) + CountExpr(b)
    ensures var (p, n) := SimplifyExpr(a, t, counter);
            p == x && SimplifyExpr(b, t, n).0 == y && t < SimplifyExpr(b, t, n).1
    decreases e, 0
  {
    if Replaces(a, x) && y == b {
      t := NodeIsNumbered(a, x, counter);
      Untouched(b, t, SimplifyExpr(a, t, counter).1);
    } else {
      t := NodeIsNumbered(b, y, counter + CountExpr(a));
      PassesExpr(a, t, counter);
    }
  }

  lemma {:induction false} ArgIsNumbered(es: seq<Expr>, xs: seq<Expr>, counter: nat) returns (t: nat)
    requires ReplacesOne(es, xs)
    ensures counter <= t < counter + CountArgs(es)
    ensures SimplifyArgs(es, t, counter).0 == xs && t < SimplifyArgs(es, t, counter).1
    decreases es
  {
    assert [xs[0]] + xs[1..] == xs;
    if Replaces(es[0], xs[0]) && xs[1..] == es[1..] {
      t := NodeIsNumbered(es[0], xs[0], counter);
      PassesArgs(es[1..], t, SimplifyExpr(es[0], t, counter).1);
    } else {
      t := ArgIsNumbered(es[1..], xs[1..], counter + CountExpr(es[0]));
      PassesExpr(es[0], t, counter);
    }
  }

  lemma {:induction false} StmtIsNumbered(s: Stmt, x: Stmt, counter: nat) returns (t: nat)
    requires ReplacesIn(s, x)
    ensures counter <= t < counter + CountStmt(s)
    ensures SimplifyStmt(s, t, counter).0 == x && t < SimplifyStmt(s, t, counter).1
    decreases s
  {
    hide SimplifyExpr, Replaces;
    match s
    case LetStmt(_, v) => t := NodeIsNumbered(v, x.value, counter);
    case VarStmt(_, v) => t := NodeIsNumbered(v, x.value, counter);
    case Assign(_, v) => t := NodeIsNumbered(v, x.value, counter);
    case Print(_, v) => t := NodeIsNumbered(v, x.value, counter);
    case If(_, _, _) => t := IfIsNumbered(s, x, counter);
    case While(_, _, body) => t := IsNumberedAmong(body, x.body, counter);
    case Block(body) => t := IsNumberedAmong(body, x.body, counter);
    case Region(_, body) => t := IsNumberedAmong(body, x.body, counter);
  }

  lemma {:induction false} IfIsNumbered(s: Stmt, x: Stmt, counter: nat) returns (t: nat)
    requires s.If? && ReplacesIn(s, x)
    ensures counter <= t < counter + CountStmt(s)
    ensures SimplifyStmt(s, t, counter).0 == x && t < SimplifyStmt(s, t, counter).1
    decreases s, 0
  {
    hide SimplifyExpr, SimplifyNth, Replaces, ReplacesAmong;
    var cond, ts, os := s.cond, s.then_, s.otherwise;
    var first := counter + CountExpr(cond);
    if Replaces(cond, x.cond) && x.then_ == ts && x.otherwise == os {
      t := NodeIsNumbered(cond, x.cond, counter);
      var n := SimplifyExpr(cond, t, counter).1;
      PassesOver(ts, t, n);
      PassesOver(os, t, n + CountExprs(ts));
    } else if x.cond == cond && ReplacesAmong(ts, x.then_) && x.otherwise == os {
      t := IsNumberedAmong(ts, x.then_, first);
      PassesExpr(cond, t, counter);
      PassesOver(os, t, SimplifyNth(ts, t, first).1);
    } else {
      t := IsNumberedAmong(os, x.otherwise, first + CountExprs(ts));
      PassesExpr(cond, t, counter);
      PassesOver(ts, t, first);
    }
  }

  lemma {:induction false} IsNumberedAmong(stmts: seq<Stmt>, xs: seq<Stmt>, counter: nat) returns (t: nat)
    requires ReplacesAmong(stmts, xs)
    ensures counter <= t < counter + CountExprs(stmts)
    ensures SimplifyNth(stmts, t, counter).0 == xs && t < SimplifyNth(stmts, t, counter).1
    decreases stmts
  {
    hide SimplifyStmt, ReplacesIn;
    assert [xs[0]] + xs[1..] == xs;
    if ReplacesIn(stmts[0], xs[0]) && xs[1..] == stmts[1..] {
      t := StmtIsNumbered(stmts[0], xs[0], counter);
      PassesOver(stmts[1..], t, SimplifyStmt(stmts[0], t, counter).1);
    } else {
      t := IsNumberedAmong(stmts[1..], xs[1..], counter + CountStmt(stmts[0]));
      PassesStmt(stmts[0], t, counter);
    }
  }

  // -- replacing a node changes the program ----------------------------------------------------------

  lemma {:induction false} ReplacedIsSmaller(e: Expr, x: Expr)
    requires Replaces(e, x)
    ensures Open(x) < Open(e)
    decreases e
  {
    if e.Lit? || x != Lit(1) {
      match e
      case Bin(_, a, b) => if Replaces(a, x.left) && x.right == b { ReplacedIsSmaller(a, x.left); } else { ReplacedIsSmaller(b, x.right); }
      case Cmp(_, a, b) => if Replaces(a, x.left) && x.right == b { ReplacedIsSmaller(a, x.left); } else { ReplacedIsSmaller(b, x.right); }
      case IfVal(c, a, b) =>
        if x.yes == a && x.no == b && Replaces(c, x.cond) {
          ReplacedIsSmaller(c, x.cond);
        } else if x.cond == c && Replaces(a, x.yes) && x.no == b {
          ReplacedIsSmaller(a, x.yes);
        } else {
          ReplacedIsSmaller(b, x.no);
        }
      case Call(_, args) => OneIsSmaller(args, x.args);
      case Group(inner) => ReplacedIsSmaller(inner, x.inner);
    }
  }

  lemma {:induction false} OneIsSmaller(es: seq<Expr>, xs: seq<Expr>)
    requires ReplacesOne(es, xs)
    ensures OpenArgs(xs) < OpenArgs(es)
    decreases es
  {
    hide Replaces;
    if Replaces(es[0], xs[0]) && xs[1..] == es[1..] {
      ReplacedIsSmaller(es[0], xs[0]);
    } else {
      OneIsSmaller(es[1..], xs[1..]);
    }
  }

  lemma {:induction false} StmtIsSmaller(s: Stmt, x: Stmt)
    requires ReplacesIn(s, x)
    ensures OpenStmt(x) < OpenStmt(s)
    decreases s
  {
    hide Replaces, Open, ReplacesAmong;
    match s
    case If(cond, t, o) =>
      if Replaces(cond, x.cond) && x.then_ == t && x.otherwise == o {
        ReplacedIsSmaller(cond, x.cond);
      } else if x.cond == cond && ReplacesAmong(t, x.then_) && x.otherwise == o {
        AmongIsSmaller(t, x.then_);
      } else {
        AmongIsSmaller(o, x.otherwise);
      }
    case While(_, _, body) => AmongIsSmaller(body, x.body);
    case Block(body) => AmongIsSmaller(body, x.body);
    case Region(_, body) => AmongIsSmaller(body, x.body);
    case LetStmt(_, v) => ReplacedIsSmaller(v, x.value);
    case VarStmt(_, v) => ReplacedIsSmaller(v, x.value);
    case Assign(_, v) => ReplacedIsSmaller(v, x.value);
    case Print(_, v) => ReplacedIsSmaller(v, x.value);
  }

  lemma {:induction false} AmongIsSmaller(stmts: seq<Stmt>, xs: seq<Stmt>)
    requires ReplacesAmong(stmts, xs)
    ensures OpenStmts(xs) < OpenStmts(stmts)
    decreases stmts
  {
    hide ReplacesIn;
    if ReplacesIn(stmts[0], xs[0]) && xs[1..] == stmts[1..] {
      StmtIsSmaller(stmts[0], xs[0]);
    } else {
      AmongIsSmaller(stmts[1..], xs[1..]);
    }
  }

  /** The simplifications that change a program are exactly those that replace one node that is
    not a literal, wherever it is: every number replaces one node or none, and every node, of a
    value or a condition at any depth, has its number. */
  lemma EachNodeIsReached(stmts: seq<Stmt>, xs: seq<Stmt>)
    ensures ReplacesAmong(stmts, xs) <==>
              xs != stmts && exists t: nat :: t < CountExprs(stmts) && Simplified(stmts, t) == xs
  {
    hide ReplacesAmong, SimplifyNth;
    if ReplacesAmong(stmts, xs) {
      AmongIsSmaller(stmts, xs);
      var t := IsNumberedAmong(stmts, xs, 0);
      assert Simplified(stmts, t) == xs;
    }
    if xs != stmts {
      if t: nat :| t < CountExprs(stmts) && Simplified(stmts, t) == xs {
        StmtsAreReplaced(stmts, t, 0);
      }
    }
  }
}
