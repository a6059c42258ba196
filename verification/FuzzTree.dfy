/** The trees of generated programs.

  A name is its prefix letter and its number; the text of a name is left to rendering. */
module FuzzTree {

  datatype Mode = Defined | Boundary

  datatype Name = Name(prefix: char, index: nat)

  datatype BinOp = Add | Sub | Mul | Div | Rem

  datatype CmpOp = Lt | Gt | Eq | Ne

  datatype Expr =
    | Lit(value: int)
    | Var(name: Name)
    | Bin(op: BinOp, left: Expr, right: Expr)
    | IfVal(cond: Expr, yes: Expr, no: Expr)
    | Call(func: Name, args: seq<Expr>)
    | Cmp(cmp: CmpOp, left: Expr, right: Expr)
    | Group(inner: Expr)

  datatype Stmt =
    | LetStmt(name: Name, value: Expr)
    | VarStmt(name: Name, value: Expr)
    | Assign(name: Name, value: Expr)
    | Print(prefix: string, value: Expr)
    | If(cond: Expr, then_: seq<Stmt>, otherwise: seq<Stmt>)
    | While(counter: Name, bound: int, body: seq<Stmt>)
    | Block(body: seq<Stmt>)
    | Region(name: Name, body: seq<Stmt>)
    | Move(from: Name, to: Name, reinit: bool)
    | CallMut(func: Name, target: Name)

  datatype Func = Func(name: Name, params: seq<Name>, body: Expr, mutates: bool)

  datatype Program = Program(mode: Mode, funcs: seq<Func>, main: seq<Stmt>)

  predicate HasBody(s: Stmt) {
    s.While? || s.Block? || s.Region?
  }

  function WithBody(s: Stmt, body: seq<Stmt>): Stmt
    requires HasBody(s)
  {
    match s
    case While(counter, bound, _) => While(counter, bound, body)
    case Block(_) => Block(body)
    case Region(name, _) => Region(name, body)
  }
}
