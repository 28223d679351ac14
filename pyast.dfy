/** The part of Python's abstract syntax tree that SimpliPy's parser and
    simplifier look at. Nodes the two components treat alike are merged:
    `OtherExpr` stands for every expression kind neither component inspects
    (attribute, subscript, list, tuple, lambda, starred, ...), visited only
    through its children; `Unsupported` stands for the statement kinds the
    simplifier rejects by name. */
module PyAst {
  import opened Wrappers

  datatype Const = IntC(i: int) | BoolC(b: bool) | NoneC

  datatype UnaryOperator = USub | UAdd | Not | Invert

  datatype BinOperator =
    | Add | Sub | Mult | Div | FloorDiv | Mod | Pow
    | LShift | RShift | BitOr | BitXor | BitAnd | MatMult

  datatype CmpOperator = Eq | NotEq | Lt | LtE | Gt | GtE | Is | IsNot | In | NotIn

  /** A call keeps the values of its keyword arguments (`name=value`,
      `**value`) in `keywords`; their names are never inspected. */
  datatype Expr =
    | Constant(value: Const)
    | Name(id: string)
    | UnaryOp(uop: UnaryOperator, operand: Expr)
    | BinOp(left: Expr, bop: BinOperator, right: Expr)
    | Compare(first: Expr, ops: seq<CmpOperator>, comparators: seq<Expr>)
    | Call(func: Expr, args: seq<Expr>, keywords: seq<Expr>)
    | OtherExpr(children: seq<Expr>)

  /** A function's parameter list, field by field as in Python's `ast.arguments`. */
  datatype Arguments = Arguments(
    posonlyargs: seq<string>,
    args: seq<string>,
    vararg: Option<string>,
    kwonlyargs: seq<string>,
    kwDefaults: seq<Option<Expr>>,
    kwarg: Option<string>,
    defaults: seq<Expr>)

  /** The statement kinds the simplifier rejects by name. */
  datatype UnsupportedKind =
    | For | AsyncFor | With | AsyncWith | Raise | Try | Assert
    | Import | ImportFrom | ClassDef | Delete | AugAssign | AnnAssign

  datatype Stmt =
    | Assign(line: int, targets: seq<Expr>, value: Expr)
    | ExprStmt(line: int, value: Expr)
    | If(line: int, test: Expr, body: seq<Stmt>, orelse: seq<Stmt>)
    | While(line: int, test: Expr, body: seq<Stmt>, orelse: seq<Stmt>)
    | FunctionDef(line: int, name: string, params: Arguments, body: seq<Stmt>, decorators: seq<Expr>)
    | Return(line: int, retValue: Option<Expr>)
    | Pass(line: int)
    | Break(line: int)
    | Continue(line: int)
    | Global(line: int, names: seq<string>)
    | Nonlocal(line: int, names: seq<string>)
    | Unsupported(line: int, kind: UnsupportedKind)

  datatype Module = Module(body: seq<Stmt>)

  /** Some node of the tree rooted at `e`, `e` included, is a call
      (what `ast.walk` finds when it meets an `ast.Call`). */
  predicate ContainsCall(e: Expr)
  {
    match e
    case Constant(_) => false
    case Name(_) => false
    case UnaryOp(_, x) => ContainsCall(x)
    case BinOp(l, _, r) => ContainsCall(l) || ContainsCall(r)
    case Compare(l, _, cs) => ContainsCall(l) || exists j :: 0 <= j < |cs| && ContainsCall(cs[j])
    case Call(_, _, _) => true
    case OtherExpr(cs) => exists j :: 0 <= j < |cs| && ContainsCall(cs[j])
  }

  /** No expression in the sequence contains a call. */
  predicate AllCallFree(es: seq<Expr>)
  {
    forall j :: 0 <= j < |es| ==> !ContainsCall(es[j])
  }

  /** Every call in `e`, wherever it occurs, names its callee by a plain
      variable. */
  predicate CalleesAreNames(e: Expr)
  {
    match e
    case Constant(_) => true
    case Name(_) => true
    case UnaryOp(_, x) => CalleesAreNames(x)
    case BinOp(l, _, r) => CalleesAreNames(l) && CalleesAreNames(r)
    case Compare(l, _, cs) => CalleesAreNames(l) && forall j :: 0 <= j < |cs| ==> CalleesAreNames(cs[j])
    case Call(f, xs, ks) =>
      f.Name? && (forall j :: 0 <= j < |xs| ==> CalleesAreNames(xs[j]))
      && forall j :: 0 <= j < |ks| ==> CalleesAreNames(ks[j])
    case OtherExpr(cs) => forall j :: 0 <= j < |cs| ==> CalleesAreNames(cs[j])
  }

  /** The variables `e` reads, outside keyword arguments. */
  function Names(e: Expr): set<string>
  {
    match e
    case Constant(_) => {}
    case Name(x) => {x}
    case UnaryOp(_, x) => Names(x)
    case BinOp(l, _, r) => Names(l) + Names(r)
    case Compare(l, _, cs) => Names(l) + NamesOfSeq(cs)
    case Call(f, xs, _) => Names(f) + NamesOfSeq(xs)
    case OtherExpr(cs) => NamesOfSeq(cs)
  }

  function NamesOfSeq(es: seq<Expr>): set<string>
  {
    if es == [] then {} else Names(es[0]) + NamesOfSeq(es[1..])
  }

  lemma {:induction false} NamesOfSeqAppend(es: seq<Expr>, e: Expr)
    ensures NamesOfSeq(es + [e]) == NamesOfSeq(es) + Names(e)
  {
    if es == [] {
      assert [] + [e] == [e];
    } else {
      assert (es + [e])[1..] == es[1..] + [e];
      NamesOfSeqAppend(es[1..], e);
    }
  }

  /** Statement-level version of `CalleesAreNames`, through nested bodies. */
  predicate StmtCalleesAreNames(s: Stmt)
  {
    match s
    case Assign(_, ts, v) => CalleesAreNames(v)
    case ExprStmt(_, v) => CalleesAreNames(v)
    case If(_, t, b, o) => CalleesAreNames(t) && BodyCalleesAreNames(b) && BodyCalleesAreNames(o)
    case While(_, t, b, o) => CalleesAreNames(t) && BodyCalleesAreNames(b) && BodyCalleesAreNames(o)
    case FunctionDef(_, _, _, b, _) => BodyCalleesAreNames(b)
    case Return(_, v) => v.Some? ==> CalleesAreNames(v.value)
    case _ => true
  }

  predicate BodyCalleesAreNames(ss: seq<Stmt>)
  {
    forall j :: 0 <= j < |ss| ==> StmtCalleesAreNames(ss[j])
  }
}
