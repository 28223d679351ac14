/** simplipy/simplify/simplify.py: the source-to-source simplifier that
    brings a Python module into the subset SimpliPy's parser accepts.
    Calls nested inside expressions are hoisted into assignments to
    temporaries `_simplipy_temp_N` placed before the statement; an `if`
    gets `else: pass`, a loop body ends in `continue`, a function body
    ends in `return`, and constructs outside the subset are refused.

    The rewrites are the functions below; classes `ExpressionTransformer`
    and `SimplipyConverter` perform them with the source's counters and
    lists and are proved to follow them. Source locations are not
    modelled: every statement the simplifier creates carries the line of
    the statement it comes from. */
module Simplify {
  import opened Wrappers
  import opened PyAst

  // ---------------------------------------------------------------------
  // Temporary names

  function DigitChar(d: nat): (c: char)
    requires d < 10
    ensures '0' <= c <= '9' && (c as int) - ('0' as int) == d
  {
    (('0' as int) + d) as char
  }

  predicate IsDigits(s: string)
  {
    forall i :: 0 <= i < |s| ==> '0' <= s[i] <= '9'
  }

  /** `str(n)` for a natural number: its decimal digits. */
  function NatToString(n: nat): (s: string)
    ensures |s| > 0 && IsDigits(s)
  {
    if n < 10 then [DigitChar(n)] else NatToString(n / 10) + [DigitChar(n % 10)]
  }

  /** The value of a string of decimal digits. */
  function DigitsValue(s: string): nat
    requires IsDigits(s)
  {
    if s == [] then 0
    else DigitsValue(s[..|s| - 1]) * 10 + ((s[|s| - 1] as int) - ('0' as int))
  }

  lemma {:induction false} DecimalRoundTrip(n: nat)
    ensures DigitsValue(NatToString(n)) == n
  {
    if n >= 10 {
      var s := NatToString(n);
      assert s[..|s| - 1] == NatToString(n / 10);
      DecimalRoundTrip(n / 10);
    } else {
      assert NatToString(n)[..0] == [];
    }
  }

  const TempPrefix: string := "_simplipy_temp_"

  /** `f"_simplipy_temp_{n}"`. */
  function TempName(n: nat): string
  {
    TempPrefix + NatToString(n)
  }

  /** Distinct counter values give distinct names. */
  lemma TempNameInjective(a: nat, b: nat)
    ensures TempName(a) == TempName(b) <==> a == b
  {
    if TempName(a) == TempName(b) {
      assert TempName(a)[|TempPrefix|..] == NatToString(a);
      assert TempName(b)[|TempPrefix|..] == NatToString(b);
      DecimalRoundTrip(a);
      DecimalRoundTrip(b);
    }
  }

  // ---------------------------------------------------------------------
  // ExpressionTransformer

  /** A rewritten expression and the assignments to place before it. */
  datatype Hoisted = Hoisted(expr: Expr, pre: seq<Stmt>)
  datatype HoistedSeq = HoistedSeq(exprs: seq<Expr>, pre: seq<Stmt>)

  /** A hoisted call: one plain-name target and a call with call-free
      arguments and no keywords. */
  predicate HoistedAssign(s: Stmt, line: int)
  {
    s.Assign? && s.line == line && |s.targets| == 1 && s.targets[0].Name?
    && s.value.Call? && AllCallFree(s.value.args) && s.value.keywords == []
  }

  /** `pre` assigns, in order, the temporaries numbered from `n` on. */
  predicate NumberedFrom(pre: seq<Stmt>, n: nat, line: int)
  {
    forall i :: 0 <= i < |pre| ==> HoistedAssign(pre[i], line) && pre[i].targets[0].id == TempName(n + i)
  }

  /** The callee of every hoisted call is a plain name. */
  predicate CalleesNamed(pre: seq<Stmt>)
  {
    forall i :: 0 <= i < |pre| ==> pre[i].Assign? && pre[i].value.Call? ==> pre[i].value.func.Name?
  }

  lemma NumberedAppend(a: seq<Stmt>, b: seq<Stmt>, n: nat, line: int)
    requires NumberedFrom(a, n, line) && NumberedFrom(b, n + |a|, line)
    ensures NumberedFrom(a + b, n, line)
  {
    forall i | 0 <= i < |a + b|
      ensures HoistedAssign((a + b)[i], line) && (a + b)[i].targets[0].id == TempName(n + i)
    {
      if i >= |a| {
        assert (a + b)[i] == b[i - |a|];
      }
    }
  }

  lemma CalleesNamedAppend(a: seq<Stmt>, b: seq<Stmt>)
    requires CalleesNamed(a) && CalleesNamed(b)
    ensures CalleesNamed(a + b)
  {
    forall i | 0 <= i < |a + b| && (a + b)[i].Assign? && (a + b)[i].value.Call?
      ensures (a + b)[i].value.func.Name?
    {
      if i >= |a| {
        assert (a + b)[i] == b[i - |a|];
      }
    }
  }

  /** `_simplipy_temp_m = f(args)`. */
  function TempAssignment(line: int, m: nat, f: Expr, args: seq<Expr>): Stmt
  {
    Assign(line, [Name(TempName(m))], Call(f, args, []))
  }

  /** `ExpressionTransformer.visit(e)` with the counter at `n`: every call
      outside a callee position is replaced by the next temporary, after
      its arguments were rewritten (so inner calls get the lower numbers
      and their assignments come first); a call with keyword arguments is
      refused. The callee itself is not visited. */
  function Hoist(e: Expr, n: nat, line: int): (r: Result<Hoisted>)
    ensures r.Ok? ==> !ContainsCall(r.value.expr) && NumberedFrom(r.value.pre, n, line)
    ensures r.Ok? && CalleesAreNames(e) ==> CalleesNamed(r.value.pre)
    ensures r.Err? ==> r.error == Error.Unsupported
    decreases e, 1
  {
    match e
    case Constant(_) => Ok(Hoisted(e, []))
    case Name(_) => Ok(Hoisted(e, []))
    case UnaryOp(op, x) =>
      var h :- Hoist(x, n, line);
      Ok(Hoisted(UnaryOp(op, h.expr), h.pre))
    case BinOp(_, _, _) => HoistBinOp(e, n, line)
    case Compare(_, _, _) => HoistCompare(e, n, line)
    case Call(_, _, _) => HoistCall(e, n, line)
    case OtherExpr(cs) =>
      var hs :- HoistFrom(cs, 0, n, line);
      Ok(Hoisted(OtherExpr(hs.exprs), hs.pre))
  }

  /** The generic visit of a binary operation: left operand, then right. */
  function HoistBinOp(e: Expr, n: nat, line: int): (r: Result<Hoisted>)
    requires e.BinOp?
    ensures r.Ok? ==> !ContainsCall(r.value.expr) && NumberedFrom(r.value.pre, n, line)
    ensures r.Ok? && CalleesAreNames(e) ==> CalleesNamed(r.value.pre)
    ensures r.Err? ==> r.error == Error.Unsupported
    decreases e, 0
  {
    var hl :- Hoist(e.left, n, line);
    var hr :- Hoist(e.right, n + |hl.pre|, line);
    NumberedAppend(hl.pre, hr.pre, n, line);
    CalleesNamedIf(e, hl.pre, hr.pre);
    Ok(Hoisted(BinOp(hl.expr, e.bop, hr.expr), hl.pre + hr.pre))
  }

  /** The generic visit of a comparison: the left operand, then the
      comparators. */
  function HoistCompare(e: Expr, n: nat, line: int): (r: Result<Hoisted>)
    requires e.Compare?
    ensures r.Ok? ==> !ContainsCall(r.value.expr) && NumberedFrom(r.value.pre, n, line)
    ensures r.Ok? && CalleesAreNames(e) ==> CalleesNamed(r.value.pre)
    ensures r.Err? ==> r.error == Error.Unsupported
    decreases e, 0
  {
    var hl :- Hoist(e.first, n, line);
    var hs :- HoistFrom(e.comparators, 0, n + |hl.pre|, line);
    NumberedAppend(hl.pre, hs.pre, n, line);
    CalleesNamedIf(e, hl.pre, hs.pre);
    Ok(Hoisted(Compare(hl.expr, e.ops, hs.exprs), hl.pre + hs.pre))
  }

  /** `ExpressionTransformer.visit_Call`: arguments first, then the
      keyword check, then the next temporary. */
  function HoistCall(e: Expr, n: nat, line: int): (r: Result<Hoisted>)
    requires e.Call?
    ensures r.Ok? ==> !ContainsCall(r.value.expr) && NumberedFrom(r.value.pre, n, line)
    ensures r.Ok? && CalleesAreNames(e) ==> CalleesNamed(r.value.pre)
    ensures r.Err? ==> r.error == Error.Unsupported
    decreases e, 0
  {
    var hs :- HoistFrom(e.args, 0, n, line);
    if e.keywords != [] then Err(Error.Unsupported)
    else
      var m := n + |hs.pre|;
      var a := TempAssignment(line, m, e.func, hs.exprs);
      NumberedAppend(hs.pre, [a], n, line);
      CalleesNamedIf(e, hs.pre, [a]);
      Ok(Hoisted(Name(TempName(m)), hs.pre + [a]))
  }

  lemma CalleesNamedIf(e: Expr, a: seq<Stmt>, b: seq<Stmt>)
    requires CalleesAreNames(e) ==> CalleesNamed(a) && CalleesNamed(b)
    ensures CalleesAreNames(e) ==> CalleesNamed(a + b)
  {
    if CalleesAreNames(e) {
      CalleesNamedAppend(a, b);
    }
  }

  /** `ExpressionTransformer.visit` over the list `es[k..]`, left to right,
      the counter threaded through. */
  function HoistFrom(es: seq<Expr>, k: nat, n: nat, line: int): (r: Result<HoistedSeq>)
    requires k <= |es|
    ensures r.Ok? ==> |r.value.exprs| == |es| - k && AllCallFree(r.value.exprs) && NumberedFrom(r.value.pre, n, line)
    ensures r.Ok? && (forall i :: k <= i < |es| ==> CalleesAreNames(es[i])) ==> CalleesNamed(r.value.pre)
    ensures r.Err? ==> r.error == Error.Unsupported
    decreases es, 0, |es| - k
  {
    if k == |es| then Ok(HoistedSeq([], []))
    else
      var h :- Hoist(es[k], n, line);
      var rest :- HoistFrom(es, k + 1, n + |h.pre|, line);
      NumberedAppend(h.pre, rest.pre, n, line);
      if forall i :: k <= i < |es| ==> CalleesAreNames(es[i]) then
        CalleesNamedAppend(h.pre, rest.pre);
        Ok(HoistedSeq([h.expr] + rest.exprs, h.pre + rest.pre))
      else
        Ok(HoistedSeq([h.expr] + rest.exprs, h.pre + rest.pre))
  }

  // ---------------------------------------------------------------------
  // SimplipyConverter

  /** How the arguments of a call standing directly on the right of an
      assignment, or as a statement, are rewritten. `PerArgument` is the
      source: each argument gets its own `ExpressionTransformer`, so the
      numbering restarts at 0 for every argument. `Threaded` is the
      evident intent: one counter across all arguments. */
  datatype ArgCounter = PerArgument | Threaded

  /** The loop over `node.value.args` in `visit_Assign` and `visit_Expr`. */
  function HoistArgs(mode: ArgCounter, xs: seq<Expr>, line: int): (r: Result<HoistedSeq>)
    ensures r.Ok? ==> |r.value.exprs| == |xs| && AllCallFree(r.value.exprs)
    ensures r.Ok? ==> forall i :: 0 <= i < |r.value.pre| ==> HoistedAssign(r.value.pre[i], line)
    ensures r.Ok? && (forall i :: 0 <= i < |xs| ==> CalleesAreNames(xs[i])) ==> CalleesNamed(r.value.pre)
    ensures r.Err? ==> r.error == Error.Unsupported
  {
    if mode == PerArgument then PerArgumentFrom(xs, 0, line) else HoistFrom(xs, 0, 0, line)
  }

  /** Each argument `xs[k..]` rewritten by `_transform_expression`, that
      is, by a fresh transformer whose counter starts at 0. */
  function PerArgumentFrom(xs: seq<Expr>, k: nat, line: int): (r: Result<HoistedSeq>)
    requires k <= |xs|
    ensures r.Ok? ==> |r.value.exprs| == |xs| - k && AllCallFree(r.value.exprs)
    ensures r.Ok? ==> forall i :: 0 <= i < |r.value.pre| ==> HoistedAssign(r.value.pre[i], line)
    ensures r.Ok? && (forall i :: k <= i < |xs| ==> CalleesAreNames(xs[i])) ==> CalleesNamed(r.value.pre)
    ensures r.Err? ==> r.error == Error.Unsupported
    decreases |xs| - k
  {
    if k == |xs| then Ok(HoistedSeq([], []))
    else
      var h :- Hoist(xs[k], 0, line);
      var rest :- PerArgumentFrom(xs, k + 1, line);
      var pre := h.pre + rest.pre;
      assert forall i :: 0 <= i < |pre| ==> pre[i] == if i < |h.pre| then h.pre[i] else rest.pre[i - |h.pre|];
      if forall i :: k <= i < |xs| ==> CalleesAreNames(xs[i]) then
        CalleesNamedAppend(h.pre, rest.pre);
        Ok(HoistedSeq([h.expr] + rest.exprs, pre))
      else
        Ok(HoistedSeq([h.expr] + rest.exprs, pre))
  }

  /** What converting statements yields: the new statements and the
      converter's own temporary counter after them. */
  datatype Conv = Conv(stmts: seq<Stmt>, count: nat)

  /** The signature features `visit_FunctionDef` refuses. */
  predicate HasSignatureExtras(p: Arguments)
  {
    p.defaults != [] || p.kwonlyargs != [] || p.kwDefaults != [] || p.posonlyargs != []
    || p.vararg.Some? || p.kwarg.Some?
  }

  predicate EndsWithContinue(ss: seq<Stmt>)
  {
    |ss| > 0 && ss[|ss| - 1].Continue?
  }

  predicate EndsWithReturn(ss: seq<Stmt>)
  {
    |ss| > 0 && ss[|ss| - 1].Return?
  }

  /** `return None`. */
  function ReturnNone(line: int): Stmt
  {
    Return(line, Some(Constant(NoneC)))
  }

  /** `visit_Assign`. */
  function ConvAssign(mode: ArgCounter, l: int, ts: seq<Expr>, v: Expr, g: nat): (r: Result<Conv>)
    ensures |ts| != 1 || !ts[0].Name? ==> r == Err(Error.Unsupported)
    ensures r.Ok? ==> (r.value.count == g && |r.value.stmts| > 0
      && r.value.stmts[|r.value.stmts| - 1].Assign? && r.value.stmts[|r.value.stmts| - 1].targets == ts)
  {
    if |ts| != 1 || !ts[0].Name? then Err(Error.Unsupported)
    else if v.Call? then
      var a :- HoistArgs(mode, v.args, l);
      if v.keywords != [] then Err(Error.Unsupported)
      else Ok(Conv(a.pre + [Assign(l, ts, Call(v.func, a.exprs, []))], g))
    else
      var h :- Hoist(v, 0, l);
      Ok(Conv(h.pre + [Assign(l, ts, h.expr)], g))
  }

  /** `visit_Expr`: a call becomes an assignment to the converter's next
      temporary; any other expression statement becomes `pass`. */
  function ConvExpr(mode: ArgCounter, l: int, v: Expr, g: nat): (r: Result<Conv>)
    ensures !v.Call? ==> r == Ok(Conv([Pass(l)], g))
    ensures r.Ok? && v.Call? ==> (r.value.count == g + 1 && |r.value.stmts| > 0
      && r.value.stmts[|r.value.stmts| - 1].Assign?
      && r.value.stmts[|r.value.stmts| - 1].targets == [Name(TempName(g))])
  {
    if v.Call? then
      var a :- HoistArgs(mode, v.args, l);
      if v.keywords != [] then Err(Error.Unsupported)
      else Ok(Conv(a.pre + [TempAssignment(l, g, v.func, a.exprs)], g + 1))
    else Ok(Conv([Pass(l)], g))
  }

  /** `visit_Return`: the value's calls are hoisted; a bare `return`
      becomes `return None`. */
  function ConvReturn(l: int, v: Option<Expr>, g: nat): (r: Result<Conv>)
    ensures v.None? ==> r == Ok(Conv([ReturnNone(l)], g))
    ensures r.Ok? ==> (r.value.count == g && |r.value.stmts| > 0
      && r.value.stmts[|r.value.stmts| - 1].Return? && r.value.stmts[|r.value.stmts| - 1].retValue.Some?)
  {
    if v.Some? then
      var h :- Hoist(v.value, 0, l);
      Ok(Conv(h.pre + [Return(l, Some(h.expr))], g))
    else Ok(Conv([ReturnNone(l)], g))
  }

  /** `visit_If`: the test's calls are hoisted before the `if`; a missing
      else block becomes `pass`. */
  function ConvIf(mode: ArgCounter, s: Stmt, g: nat): (r: Result<Conv>)
    requires s.If?
    ensures r.Ok? ==> (|r.value.stmts| > 0
      && r.value.stmts[|r.value.stmts| - 1].If? && r.value.stmts[|r.value.stmts| - 1].orelse != [])
    decreases s, 1
  {
    var h :- Hoist(s.test, 0, s.line);
    var b :- ConvFrom(mode, s.body, 0, g);
    if s.orelse != [] then
      var o :- ConvFrom(mode, s.orelse, 0, b.count);
      Ok(Conv(h.pre + [If(s.line, h.expr, b.stmts, o.stmts)], o.count))
    else
      Ok(Conv(h.pre + [If(s.line, h.expr, b.stmts, [Pass(s.line)])], b.count))
  }

  /** `visit_While`: an else block is refused; the test's calls are
      hoisted before the loop; the body is made to end in `continue`. */
  function ConvWhile(mode: ArgCounter, s: Stmt, g: nat): (r: Result<Conv>)
    requires s.While?
    ensures s.orelse != [] ==> r == Err(Error.Unsupported)
    ensures r.Ok? ==> (|r.value.stmts| > 0
      && r.value.stmts[|r.value.stmts| - 1].While? && EndsWithContinue(r.value.stmts[|r.value.stmts| - 1].body))
    decreases s, 1
  {
    if s.orelse != [] then Err(Error.Unsupported)
    else
      var h :- Hoist(s.test, 0, s.line);
      var b :- ConvFrom(mode, s.body, 0, g);
      var body := if EndsWithContinue(b.stmts) then b.stmts else b.stmts + [Continue(s.line)];
      Ok(Conv(h.pre + [While(s.line, h.expr, body, [])], b.count))
  }

  /** `visit_FunctionDef`: signature extras and decorators are refused;
      the body is made to end in `return`. */
  function ConvDef(mode: ArgCounter, s: Stmt, g: nat): (r: Result<Conv>)
    requires s.FunctionDef?
    ensures HasSignatureExtras(s.params) || s.decorators != [] ==> r == Err(Error.Unsupported)
    ensures r.Ok? ==> (|r.value.stmts| == 1 && r.value.stmts[0].FunctionDef?
      && r.value.stmts[0].name == s.name && EndsWithReturn(r.value.stmts[0].body))
    decreases s, 1
  {
    if HasSignatureExtras(s.params) || s.decorators != [] then Err(Error.Unsupported)
    else
      var b :- ConvFrom(mode, s.body, 0, g);
      var body := if EndsWithReturn(b.stmts) then b.stmts else b.stmts + [ReturnNone(s.line)];
      Ok(Conv([FunctionDef(s.line, s.name, s.params, body, s.decorators)], b.count))
  }

  /** `SimplipyConverter.visit(node)` for one statement. `pass`, `break`,
      `continue`, `global` and `nonlocal` pass through `generic_visit`
      unchanged; the kinds it lists are refused. */
  function ConvStmt(mode: ArgCounter, s: Stmt, g: nat): (r: Result<Conv>)
    ensures r.Ok? ==> |r.value.stmts| > 0
    decreases s, 2
  {
    match s
    case Assign(l, ts, v) => ConvAssign(mode, l, ts, v, g)
    case ExprStmt(l, v) => ConvExpr(mode, l, v, g)
    case If(_, _, _, _) => ConvIf(mode, s, g)
    case While(_, _, _, _) => ConvWhile(mode, s, g)
    case FunctionDef(_, _, _, _, _) => ConvDef(mode, s, g)
    case Return(l, v) => ConvReturn(l, v, g)
    case Pass(_) => Ok(Conv([s], g))
    case Break(_) => Ok(Conv([s], g))
    case Continue(_) => Ok(Conv([s], g))
    case Global(_, _) => Ok(Conv([s], g))
    case Nonlocal(_, _) => Ok(Conv([s], g))
    case Unsupported(_, _) => Err(Error.Unsupported)
  }

  /** `visit_statements` over `ss[k..]`: each statement's results are
      spliced in, in order. */
  function ConvFrom(mode: ArgCounter, ss: seq<Stmt>, k: nat, g: nat): (r: Result<Conv>)
    requires k <= |ss|
    ensures r.Ok? && k < |ss| ==> |r.value.stmts| > 0
    decreases ss, 0, |ss| - k
  {
    if k == |ss| then Ok(Conv([], g))
    else
      var c :- ConvStmt(mode, ss[k], g);
      var rest :- ConvFrom(mode, ss, k + 1, c.count);
      Ok(Conv(c.stmts + rest.stmts, rest.count))
  }

  /** `transform` on the module's statements, with the converter's
      counter at `g` (0 for a fresh converter); parsing the source text,
      unparsing and formatting the result are not modelled. */
  function TransformFrom(mode: ArgCounter, m: Module, g: nat): (r: Result<(Module, nat)>)
    ensures r.Ok? && m.body != [] ==> r.value.0.body != []
  {
    var c :- ConvFrom(mode, m.body, 0, g);
    Ok((Module(c.stmts), c.count))
  }

  // ---------------------------------------------------------------------
  // What the rewrites produce

  /** The targets of hoisted assignments. */
  predicate DistinctTargets(pre: seq<Stmt>)
    requires forall i :: 0 <= i < |pre| ==> pre[i].Assign?
  {
    forall i, j :: 0 <= i < j < |pre| ==> pre[i].targets != pre[j].targets
  }

  /** With a threaded counter the arguments' hoisted calls go to pairwise
      different temporaries. */
  lemma ThreadedTempsDistinct(xs: seq<Expr>, line: int)
    requires HoistArgs(Threaded, xs, line).Ok?
    ensures var pre := HoistArgs(Threaded, xs, line).value.pre;
      (forall i :: 0 <= i < |pre| ==> pre[i].Assign?) && DistinctTargets(pre)
  {
    var pre := HoistArgs(Threaded, xs, line).value.pre;
    assert NumberedFrom(pre, 0, line);
    forall i, j | 0 <= i < j < |pre|
      ensures pre[i].targets != pre[j].targets
    {
      TempNameInjective(i, j);
      assert pre[i].targets[0].id != pre[j].targets[0].id;
    }
  }

  const G1: Expr := Call(Name("g"), [Constant(IntC(1))], [])
  const H2: Expr := Call(Name("h"), [Constant(IntC(2))], [])

  /** `x = f(g(1), h(2))` as the source converts it: both argument calls
      are assigned to `_simplipy_temp_0`, so the call reads `h(2)`'s value
      twice. */
  lemma PerArgumentReusesTemp()
    ensures ConvAssign(PerArgument, 1, [Name("x")], Call(Name("f"), [G1, H2], []), 0)
      == Ok(Conv([TempAssignment(1, 0, Name("g"), [Constant(IntC(1))]),
                  TempAssignment(1, 0, Name("h"), [Constant(IntC(2))]),
                  Assign(1, [Name("x")], Call(Name("f"), [Name(TempName(0)), Name(TempName(0))], []))], 0))
  {
    var one := Constant(IntC(1));
    var two := Constant(IntC(2));
    var t0 := Name(TempName(0));
    var ag := TempAssignment(1, 0, Name("g"), [one]);
    var ah0 := TempAssignment(1, 0, Name("h"), [two]);
    SingleCall(Name("g"), one, 0);
    SingleCall(Name("h"), two, 0);
    assert G1 == Call(Name("g"), [one], []) && H2 == Call(Name("h"), [two], []);
    var xs := [G1, H2];
    PerArgumentPair(G1, H2, 1);
    var p0 := PerArgumentFrom(xs, 0, 1);
    assert p0.Ok? && p0.value.exprs == [t0, t0] && p0.value.pre == [ag, ah0];
    assert HoistArgs(PerArgument, xs, 1) == p0;
    AssignOfCall(PerArgument, 1, "x", Name("f"), xs, 0);
    var fin := Assign(1, [Name("x")], Call(Name("f"), [t0, t0], []));
    assert [ag, ah0] + [fin] == [ag, ah0, fin];
  }

  /** The same assignment with a threaded counter: the two calls go to
      `_simplipy_temp_0` and `_simplipy_temp_1`, which differ by
      `TempNameInjective`. */
  lemma ThreadedSeparatesTemps()
    ensures ConvAssign(Threaded, 1, [Name("x")], Call(Name("f"), [G1, H2], []), 0)
      == Ok(Conv([TempAssignment(1, 0, Name("g"), [Constant(IntC(1))]),
                  TempAssignment(1, 1, Name("h"), [Constant(IntC(2))]),
                  Assign(1, [Name("x")], Call(Name("f"), [Name(TempName(0)), Name(TempName(1))], []))], 0))
  {
    var one := Constant(IntC(1));
    var two := Constant(IntC(2));
    var t0 := Name(TempName(0));
    var t1 := Name(TempName(1));
    var ag := TempAssignment(1, 0, Name("g"), [one]);
    var ah1 := TempAssignment(1, 1, Name("h"), [two]);
    SingleCall(Name("g"), one, 0);
    SingleCall(Name("h"), two, 1);
    assert G1 == Call(Name("g"), [one], []) && H2 == Call(Name("h"), [two], []);
    var xs := [G1, H2];
    HoistPair(G1, H2, 0, 1);
    var q0 := HoistFrom(xs, 0, 0, 1);
    assert q0.Ok? && q0.value.exprs == [t0, t1] && q0.value.pre == [ag, ah1];
    assert HoistArgs(Threaded, xs, 1) == q0;
    AssignOfCall(Threaded, 1, "x", Name("f"), xs, 0);
    var fin := Assign(1, [Name("x")], Call(Name("f"), [t0, t1], []));
    assert [ag, ah1] + [fin] == [ag, ah1, fin];
  }

  /** Two expressions rewritten with one counter. */
  lemma HoistPair(a: Expr, b: Expr, n: nat, line: int)
    requires Hoist(a, n, line).Ok? && Hoist(b, n + |Hoist(a, n, line).value.pre|, line).Ok?
    ensures var ha := Hoist(a, n, line).value;
      var hb := Hoist(b, n + |ha.pre|, line).value;
      HoistFrom([a, b], 0, n, line) == Ok(HoistedSeq([ha.expr, hb.expr], ha.pre + hb.pre))
  {
    var xs := [a, b];
    var ha := Hoist(a, n, line).value;
    var hb := Hoist(b, n + |ha.pre|, line).value;
    assert xs[0] == a && xs[1] == b;
    assert HoistFrom(xs, 2, n + |ha.pre| + |hb.pre|, line) == Ok(HoistedSeq([], []));
    var r1 := HoistFrom(xs, 1, n + |ha.pre|, line);
    assert r1.Ok? && r1.value.exprs == [hb.expr] && r1.value.pre == hb.pre + [] == hb.pre;
    var r0 := HoistFrom(xs, 0, n, line);
    assert r0.Ok? && r0.value.exprs == [ha.expr, hb.expr] && r0.value.pre == ha.pre + hb.pre;
  }

  /** Two arguments rewritten by fresh transformers. */
  lemma PerArgumentPair(a: Expr, b: Expr, line: int)
    requires Hoist(a, 0, line).Ok? && Hoist(b, 0, line).Ok?
    ensures var ha := Hoist(a, 0, line).value;
      var hb := Hoist(b, 0, line).value;
      PerArgumentFrom([a, b], 0, line) == Ok(HoistedSeq([ha.expr, hb.expr], ha.pre + hb.pre))
  {
    var xs := [a, b];
    var ha := Hoist(a, 0, line).value;
    var hb := Hoist(b, 0, line).value;
    assert xs[0] == a && xs[1] == b;
    assert PerArgumentFrom(xs, 2, line) == Ok(HoistedSeq([], []));
    var r1 := PerArgumentFrom(xs, 1, line);
    assert r1.Ok? && r1.value.exprs == [hb.expr] && r1.value.pre == hb.pre + [] == hb.pre;
    var r0 := PerArgumentFrom(xs, 0, line);
    assert r0.Ok? && r0.value.exprs == [ha.expr, hb.expr] && r0.value.pre == ha.pre + hb.pre;
  }

  /** `x = f(xs)` without keywords: the arguments' hoisted calls, then the
      assignment of the call on the rewritten arguments. */
  lemma AssignOfCall(mode: ArgCounter, l: int, x: string, f: Expr, xs: seq<Expr>, g: nat)
    requires HoistArgs(mode, xs, l).Ok?
    ensures var a := HoistArgs(mode, xs, l).value;
      ConvAssign(mode, l, [Name(x)], Call(f, xs, []), g) == Ok(Conv(a.pre + [Assign(l, [Name(x)], Call(f, a.exprs, []))], g))
  {
  }

  /** `f(c)` with a constant `c` hoists to one assignment to temporary `n`. */
  lemma SingleCall(f: Expr, c: Expr, n: nat)
    requires c.Constant?
    ensures Hoist(Call(f, [c], []), n, 1) == Ok(Hoisted(Name(TempName(n)), [TempAssignment(1, n, f, [c])]))
  {
    SingleArg(c, n);
    var e := Call(f, [c], []);
    var hs := HoistFrom(e.args, 0, n, 1);
    assert hs.Ok? && hs.value.pre == [] && hs.value.exprs == [c];
    assert [] + [TempAssignment(1, n, f, [c])] == [TempAssignment(1, n, f, [c])];
  }

  /** A call-free constant argument of a single-argument call hoists to
      itself. */
  lemma SingleArg(c: Expr, n: nat)
    requires c.Constant?
    ensures HoistFrom([c], 0, n, 1) == Ok(HoistedSeq([c], []))
  {
    var es := [c];
    assert Hoist(c, n, 1) == Ok(Hoisted(c, []));
    assert HoistFrom(es, 1, n, 1) == Ok(HoistedSeq([], []));
    assert es[0] == c;
    assert HoistFrom(es, 0, n, 1).Ok?;
    assert HoistFrom(es, 0, n, 1).value.pre == [];
    assert HoistFrom(es, 0, n, 1).value.exprs == [c];
  }

  /** `visit_Assign`: a target other than one plain name, and a direct
      call with keyword arguments, are refused. An accepted assignment
      becomes its hoisted calls followed by the assignment itself, whose
      value is a call of the same callee on call-free arguments when it
      was a call, and call free otherwise. The converter's counter is not
      touched. */
  lemma AssignShape(mode: ArgCounter, l: int, ts: seq<Expr>, v: Expr, g: nat)
    ensures |ts| != 1 || !ts[0].Name? ==> ConvAssign(mode, l, ts, v, g) == Err(Error.Unsupported)
    ensures v.Call? && v.keywords != [] ==> ConvAssign(mode, l, ts, v, g) == Err(Error.Unsupported)
    ensures var r := ConvAssign(mode, l, ts, v, g);
      r.Ok? ==> (r.value.count == g && |r.value.stmts| > 0
        && (forall i :: 0 <= i < |r.value.stmts| - 1 ==> HoistedAssign(r.value.stmts[i], l))
        && var last := r.value.stmts[|r.value.stmts| - 1];
           last.Assign? && last.line == l && last.targets == ts
           && (v.Call? ==> last.value.Call? && last.value.func == v.func && last.value.keywords == []
                           && |last.value.args| == |v.args| && AllCallFree(last.value.args))
           && (!v.Call? ==> !ContainsCall(last.value)))
  {
  }

  /** `visit_Expr`: a call becomes an assignment of the call to the
      converter's next temporary, which the counter then passes; any
      other expression becomes `pass`. */
  lemma ExprShape(mode: ArgCounter, l: int, v: Expr, g: nat)
    ensures !v.Call? ==> ConvExpr(mode, l, v, g) == Ok(Conv([Pass(l)], g))
    ensures v.Call? && v.keywords != [] ==> ConvExpr(mode, l, v, g) == Err(Error.Unsupported)
    ensures var r := ConvExpr(mode, l, v, g);
      r.Ok? && v.Call? ==> (r.value.count == g + 1 && |r.value.stmts| > 0
        && (forall i :: 0 <= i < |r.value.stmts| - 1 ==> HoistedAssign(r.value.stmts[i], l))
        && var last := r.value.stmts[|r.value.stmts| - 1];
           HoistedAssign(last, l) && last.targets == [Name(TempName(g))] && last.value.func == v.func)
  {
  }

  /** `visit_Return`: the returned value is call free after its calls were
      hoisted, and a bare `return` returns `None`. */
  lemma ReturnShape(l: int, v: Option<Expr>, g: nat)
    ensures v.None? ==> ConvReturn(l, v, g) == Ok(Conv([ReturnNone(l)], g))
    ensures var r := ConvReturn(l, v, g);
      r.Ok? ==> (r.value.count == g && |r.value.stmts| > 0
        && (forall i :: 0 <= i < |r.value.stmts| - 1 ==> HoistedAssign(r.value.stmts[i], l))
        && var last := r.value.stmts[|r.value.stmts| - 1];
           last.Return? && last.line == l && last.retValue.Some? && !ContainsCall(last.retValue.value))
  {
  }

  /** `visit_If`: the test's calls are hoisted once, before the `if`; the
      test left is call free; the statement always has an else block,
      `pass` when the source had none. */
  lemma IfShape(mode: ArgCounter, s: Stmt, g: nat)
    requires s.If?
    ensures var r := ConvIf(mode, s, g);
      r.Ok? ==> (|r.value.stmts| > 0
        && (forall i :: 0 <= i < |r.value.stmts| - 1 ==> HoistedAssign(r.value.stmts[i], s.line))
        && var last := r.value.stmts[|r.value.stmts| - 1];
           last.If? && last.line == s.line && !ContainsCall(last.test) && last.orelse != []
           && (s.orelse == [] ==> last.orelse == [Pass(s.line)])
           && last.body == ConvFrom(mode, s.body, 0, g).value.stmts)
  {
  }

  /** `visit_While`: a loop with an else block is refused; otherwise the
      test's calls are hoisted once, before the loop, and the body is the
      converted body with `continue` appended unless it already ended in
      one, so it ends in exactly the `continue` it needs. */
  lemma WhileShape(mode: ArgCounter, s: Stmt, g: nat)
    requires s.While?
    ensures s.orelse != [] ==> ConvWhile(mode, s, g) == Err(Error.Unsupported)
    ensures var r := ConvWhile(mode, s, g);
      r.Ok? ==> (|r.value.stmts| > 0
        && (forall i :: 0 <= i < |r.value.stmts| - 1 ==> HoistedAssign(r.value.stmts[i], s.line))
        && var last := r.value.stmts[|r.value.stmts| - 1];
           var b := ConvFrom(mode, s.body, 0, g).value.stmts;
           last.While? && last.line == s.line && !ContainsCall(last.test) && last.orelse == []
           && EndsWithContinue(last.body)
           && last.body == (if EndsWithContinue(b) then b else b + [Continue(s.line)]))
  {
  }

  /** `visit_FunctionDef`: defaults, keyword-only, positional-only, star
      parameters and decorators are refused; otherwise the definition is
      kept, one statement, with its body converted and ending in a
      `return`, `return None` being appended when it did not. */
  lemma DefShape(mode: ArgCounter, s: Stmt, g: nat)
    requires s.FunctionDef?
    ensures HasSignatureExtras(s.params) || s.decorators != [] ==> ConvDef(mode, s, g) == Err(Error.Unsupported)
    ensures var r := ConvDef(mode, s, g);
      r.Ok? ==> (var b := ConvFrom(mode, s.body, 0, g).value.stmts;
        |r.value.stmts| == 1 && r.value.stmts[0].FunctionDef?
        && r.value.stmts[0].name == s.name && r.value.stmts[0].params == s.params
        && EndsWithReturn(r.value.stmts[0].body)
        && r.value.stmts[0].body == (if EndsWithReturn(b) then b else b + [ReturnNone(s.line)]))
  {
  }

  /** The kinds `generic_visit` refuses are refused, and the statements
      without an expression pass through as they are. */
  lemma PassThrough(mode: ArgCounter, s: Stmt, g: nat)
    ensures s.Unsupported? ==> ConvStmt(mode, s, g) == Err(Error.Unsupported)
    ensures s.Pass? || s.Break? || s.Continue? || s.Global? || s.Nonlocal? ==> ConvStmt(mode, s, g) == Ok(Conv([s], g))
  {
  }

  /** `visit_statements` splices: converting `ss + ts` converts `ss`, then
      `ts` with the counter where `ss` left it, and concatenates. */
  lemma {:induction false} ConvFromConcat(mode: ArgCounter, ss: seq<Stmt>, ts: seq<Stmt>, k: nat, g: nat)
    requires k <= |ss|
    ensures ConvFrom(mode, ss + ts, k, g) ==
      match ConvFrom(mode, ss, k, g)
      case Err(e) => Err(e)
      case Ok(a) =>
        match ConvFrom(mode, ts, 0, a.count)
        case Err(e) => Err(e)
        case Ok(b) => Ok(Conv(a.stmts + b.stmts, b.count))
    decreases |ss| - k
  {
    if k == |ss| {
      ConvFromShift(mode, ss, ts, 0, g);
      assert ss + ts == ss + ts;
      match ConvFrom(mode, ts, 0, g)
      case Err(_) =>
      case Ok(b) => assert [] + b.stmts == b.stmts;
    } else {
      assert (ss + ts)[k] == ss[k];
      ConvFromConcat(mode, ss, ts, k + 1, g);
      match ConvStmt(mode, ss[k], g)
      case Err(_) =>
      case Ok(c) =>
        ConvFromConcat(mode, ss, ts, k + 1, c.count);
        match ConvFrom(mode, ss, k + 1, c.count)
        case Err(_) =>
        case Ok(a) =>
          match ConvFrom(mode, ts, 0, a.count)
          case Err(_) =>
          case Ok(b) => assert c.stmts + (a.stmts + b.stmts) == (c.stmts + a.stmts) + b.stmts;
    }
  }

  lemma {:induction false} ConvFromShift(mode: ArgCounter, ss: seq<Stmt>, ts: seq<Stmt>, j: nat, g: nat)
    requires j <= |ts|
    ensures ConvFrom(mode, ss + ts, |ss| + j, g) == ConvFrom(mode, ts, j, g)
    decreases |ts| - j
  {
    if j < |ts| {
      assert (ss + ts)[|ss| + j] == ts[j];
      match ConvStmt(mode, ts[j], g)
      case Err(_) =>
      case Ok(c) => ConvFromShift(mode, ss, ts, j + 1, c.count);
    }
  }

  // ---------------------------------------------------------------------
  // The classes

  /** `r` (no transformation so far before it) with `xs` and `pre` put in
      front: what a list visit returns once `xs` were already rewritten
      with assignments `pre`. */
  function Prepend(xs: seq<Expr>, pre: seq<Stmt>, r: Result<HoistedSeq>): Result<HoistedSeq>
  {
    match r
    case Err(e) => Err(e)
    case Ok(h) => Ok(HoistedSeq(xs + h.exprs, pre + h.pre))
  }

  lemma PrependNothing(r: Result<HoistedSeq>)
    ensures Prepend([], [], r) == r
  {
    match r
    case Err(_) =>
    case Ok(h) => assert [] + h.exprs == h.exprs && [] + h.pre == h.pre;
  }

  /** The outcome `r` of a visit, and the transformer's assignments and
      counter going from `p0`, `n0` to `p1`, `n1`, are those of the
      rewrite `h`. */
  predicate Rewrote(r: Result<Expr>, h: Result<Hoisted>, p0: seq<Stmt>, p1: seq<Stmt>, n0: nat, n1: nat)
  {
    match h
    case Err(err) => r == Err(err)
    case Ok(v) => r == Ok(v.expr) && p1 == p0 + v.pre && n1 == n0 + |v.pre|
  }

  predicate RewroteAll(r: Result<seq<Expr>>, h: Result<HoistedSeq>, p0: seq<Stmt>, p1: seq<Stmt>, n0: nat, n1: nat)
  {
    match h
    case Err(err) => r == Err(err)
    case Ok(v) => r == Ok(v.exprs) && p1 == p0 + v.pre && n1 == n0 + |v.pre|
  }

  lemma PerArgumentNothing(xs: seq<Expr>, line: int)
    ensures Prepend([], [], PerArgumentFrom(xs, 0, line)) == PerArgumentFrom(xs, 0, line)
  {
    PrependNothing(PerArgumentFrom(xs, 0, line));
  }

  /** One more argument rewritten by its own transformer. */
  lemma PerArgumentStep(xs: seq<Expr>, pre: seq<Stmt>, es: seq<Expr>, i: nat, line: int)
    requires i < |es|
    ensures Hoist(es[i], 0, line).Err? ==> (
      Prepend(xs, pre, PerArgumentFrom(es, i, line)) == Err(Hoist(es[i], 0, line).error))
    ensures Hoist(es[i], 0, line).Ok? ==> (
      var h := Hoist(es[i], 0, line).value;
      Prepend(xs, pre, PerArgumentFrom(es, i, line))
      == Prepend(xs + [h.expr], pre + h.pre, PerArgumentFrom(es, i + 1, line)))
  {
    if Hoist(es[i], 0, line).Err? {
      return;
    }
    var h := Hoist(es[i], 0, line).value;
    match PerArgumentFrom(es, i + 1, line)
    case Err(_) =>
    case Ok(rest) =>
      assert xs + ([h.expr] + rest.exprs) == xs + [h.expr] + rest.exprs;
      assert pre + (h.pre + rest.pre) == pre + h.pre + rest.pre;
  }

  /** One more element of the list rewritten. */
  lemma PrependStep(xs: seq<Expr>, pre: seq<Stmt>, es: seq<Expr>, i: nat, n: nat, line: int)
    requires i < |es|
    ensures Hoist(es[i], n, line).Err? ==> (
      Prepend(xs, pre, HoistFrom(es, i, n, line)) == Err(Hoist(es[i], n, line).error))
    ensures Hoist(es[i], n, line).Ok? ==> (
      var h := Hoist(es[i], n, line).value;
      Prepend(xs, pre, HoistFrom(es, i, n, line))
      == Prepend(xs + [h.expr], pre + h.pre, HoistFrom(es, i + 1, n + |h.pre|, line)))
  {
    if Hoist(es[i], n, line).Err? {
      return;
    }
    var h := Hoist(es[i], n, line).value;
    match HoistFrom(es, i + 1, n + |h.pre|, line)
    case Err(_) =>
    case Ok(rest) =>
      assert xs + ([h.expr] + rest.exprs) == xs + [h.expr] + rest.exprs;
      assert pre + (h.pre + rest.pre) == pre + h.pre + rest.pre;
  }

  /** `ExpressionTransformer`: a counter and the list of assignments to
      place before the statement. `line` is the line the created
      statements carry. After a refused call nothing is stated about the
      transformer's state: the source abandons it. */
  class ExpressionTransformer {
    var tempVarCount: nat
    var precedingAssignments: seq<Stmt>
    const line: int

    constructor(line: int)
      ensures tempVarCount == 0 && precedingAssignments == [] && this.line == line
    {
      tempVarCount := 0;
      precedingAssignments := [];
      this.line := line;
    }

    method GenerateTempVar() returns (name: string)
      modifies this
      ensures name == TempName(old(tempVarCount)) && tempVarCount == old(tempVarCount) + 1
      ensures precedingAssignments == old(precedingAssignments)
    {
      name := TempPrefix + NatToString(tempVarCount);
      tempVarCount := tempVarCount + 1;
    }

    /** `visit(e)`: returns what `Hoist` rewrites `e` to, appends the
        assignments it hoists and advances the counter past them. */
    method Visit(e: Expr) returns (r: Result<Expr>)
      modifies this
      decreases e, 1
      ensures Rewrote(r, Hoist(e, old(tempVarCount), line), old(precedingAssignments), precedingAssignments, old(tempVarCount), tempVarCount)
    {
      match e
      case Constant(_) => r := Ok(e);
      case Name(_) => r := Ok(e);
      case UnaryOp(op, x) =>
        var a := Visit(x);
        if a.Err? { return Err(a.error); }
        r := Ok(UnaryOp(op, a.value));
      case BinOp(_, _, _) => r := VisitBinOp(e);
      case Compare(_, _, _) => r := VisitCompare(e);
      case Call(_, _, _) => r := VisitCall(e);
      case OtherExpr(cs) =>
        var a := VisitList(cs);
        if a.Err? { return Err(a.error); }
        r := Ok(OtherExpr(a.value));
    }

    method VisitBinOp(e: Expr) returns (r: Result<Expr>)
      requires e.BinOp?
      modifies this
      decreases e, 0
      ensures Rewrote(r, HoistBinOp(e, old(tempVarCount), line), old(precedingAssignments), precedingAssignments, old(tempVarCount), tempVarCount)
    {
      ghost var n0, p0 := tempVarCount, precedingAssignments;
      var a := Visit(e.left);
      if a.Err? {
        assert HoistBinOp(e, n0, line) == Err(a.error);
        return Err(a.error);
      }
      ghost var hl := Hoist(e.left, n0, line).value;
      var b := Visit(e.right);
      if b.Err? {
        assert HoistBinOp(e, n0, line) == Err(b.error);
        return Err(b.error);
      }
      ghost var hr := Hoist(e.right, n0 + |hl.pre|, line).value;
      assert HoistBinOp(e, n0, line) == Ok(Hoisted(BinOp(hl.expr, e.bop, hr.expr), hl.pre + hr.pre));
      assert precedingAssignments == p0 + (hl.pre + hr.pre);
      r := Ok(BinOp(a.value, e.bop, b.value));
    }

    method VisitCompare(e: Expr) returns (r: Result<Expr>)
      requires e.Compare?
      modifies this
      decreases e, 0
      ensures Rewrote(r, HoistCompare(e, old(tempVarCount), line), old(precedingAssignments), precedingAssignments, old(tempVarCount), tempVarCount)
    {
      ghost var n0, p0 := tempVarCount, precedingAssignments;
      var a := Visit(e.first);
      if a.Err? {
        assert HoistCompare(e, n0, line) == Err(a.error);
        return Err(a.error);
      }
      ghost var hl := Hoist(e.first, n0, line).value;
      var b := VisitList(e.comparators);
      if b.Err? {
        assert HoistCompare(e, n0, line) == Err(b.error);
        return Err(b.error);
      }
      ghost var hs := HoistFrom(e.comparators, 0, n0 + |hl.pre|, line).value;
      assert HoistCompare(e, n0, line) == Ok(Hoisted(Compare(hl.expr, e.ops, hs.exprs), hl.pre + hs.pre));
      assert precedingAssignments == p0 + (hl.pre + hs.pre);
      r := Ok(Compare(a.value, e.ops, b.value));
    }

    /** `visit_Call`. */
    method VisitCall(e: Expr) returns (r: Result<Expr>)
      requires e.Call?
      modifies this
      decreases e, 0
      ensures Rewrote(r, HoistCall(e, old(tempVarCount), line), old(precedingAssignments), precedingAssignments, old(tempVarCount), tempVarCount)
    {
      var args := VisitList(e.args);
      if args.Err? { return Err(args.error); }
      if e.keywords != [] { return Err(Error.Unsupported); }
      var name := GenerateTempVar();
      precedingAssignments := precedingAssignments + [Assign(line, [Name(name)], Call(e.func, args.value, []))];
      r := Ok(Name(name));
    }

    /** `[self.visit(x) for x in es]`. */
    method VisitList(es: seq<Expr>) returns (r: Result<seq<Expr>>)
      modifies this
      decreases es, 0
      ensures RewroteAll(r, HoistFrom(es, 0, old(tempVarCount), line), old(precedingAssignments), precedingAssignments, old(tempVarCount), tempVarCount)
    {
      ghost var n0, p0 := tempVarCount, precedingAssignments;
      ghost var done: seq<Stmt> := [];
      var xs: seq<Expr> := [];
      var i := 0;
      PrependNothing(HoistFrom(es, 0, n0, line));
      assert precedingAssignments == p0 + done;
      while i < |es|
        invariant 0 <= i <= |es|
        invariant precedingAssignments == p0 + done && tempVarCount == n0 + |done|
        invariant HoistFrom(es, 0, n0, line) == Prepend(xs, done, HoistFrom(es, i, tempVarCount, line))
      {
        ghost var n := tempVarCount;
        var a := Visit(es[i]);
        PrependStep(xs, done, es, i, n, line);
        if a.Err? {
          return Err(a.error);
        }
        ghost var h := Hoist(es[i], n, line).value;
        assert precedingAssignments == p0 + (done + h.pre);
        done := done + h.pre;
        xs := xs + [a.value];
        i := i + 1;
      }
      assert xs + [] == xs && done + [] == done;
      r := Ok(xs);
    }
  }

  /** The statements a converter visit returns, and its counter after it,
      are those of the conversion `c`. */
  predicate Yields(r: Result<seq<Stmt>>, c: Result<Conv>, count: nat)
  {
    match c
    case Err(err) => r == Err(err)
    case Ok(v) => r == Ok(v.stmts) && count == v.count
  }

  /** `c` with `out` put in front of its statements. */
  function PrependConv(out: seq<Stmt>, c: Result<Conv>): Result<Conv>
  {
    match c
    case Err(e) => Err(e)
    case Ok(v) => Ok(Conv(out + v.stmts, v.count))
  }

  lemma PrependConvNothing(c: Result<Conv>)
    ensures PrependConv([], c) == c
  {
    match c
    case Err(_) =>
    case Ok(v) => assert [] + v.stmts == v.stmts;
  }

  /** One more statement of the list converted. */
  lemma PrependConvStep(mode: ArgCounter, out: seq<Stmt>, ss: seq<Stmt>, i: nat, g: nat)
    requires i < |ss|
    ensures ConvStmt(mode, ss[i], g).Err? ==> (
      PrependConv(out, ConvFrom(mode, ss, i, g)) == Err(ConvStmt(mode, ss[i], g).error))
    ensures ConvStmt(mode, ss[i], g).Ok? ==> (
      var c := ConvStmt(mode, ss[i], g).value;
      PrependConv(out, ConvFrom(mode, ss, i, g)) == PrependConv(out + c.stmts, ConvFrom(mode, ss, i + 1, c.count)))
  {
    if ConvStmt(mode, ss[i], g).Err? {
      return;
    }
    var c := ConvStmt(mode, ss[i], g).value;
    match ConvFrom(mode, ss, i + 1, c.count)
    case Err(_) =>
    case Ok(rest) => assert out + (c.stmts + rest.stmts) == out + c.stmts + rest.stmts;
  }

  /** `SimplipyConverter`. `mode` says how the arguments of a direct call
      are rewritten: `PerArgument` as the source does, `Threaded` with one
      transformer for all of them. After a refused construct nothing is
      stated about the counter: the source abandons the converter. */
  class SimplipyConverter {
    var globalTempVarCount: nat
    const mode: ArgCounter

    constructor(mode: ArgCounter)
      ensures globalTempVarCount == 0 && this.mode == mode
    {
      globalTempVarCount := 0;
      this.mode := mode;
    }

    method GenerateTempVar() returns (name: string)
      modifies this
      ensures name == TempName(old(globalTempVarCount)) && globalTempVarCount == old(globalTempVarCount) + 1
    {
      name := TempPrefix + NatToString(globalTempVarCount);
      globalTempVarCount := globalTempVarCount + 1;
    }

    /** `_transform_expression`: a fresh transformer, so numbering from 0. */
    method TransformExpression(e: Expr, line: int) returns (r: Result<Hoisted>)
      ensures r == Hoist(e, 0, line)
    {
      var t := new ExpressionTransformer(line);
      var x := t.Visit(e);
      if x.Err? {
        return Err(x.error);
      }
      ghost var v := Hoist(e, 0, line).value;
      assert [] + v.pre == v.pre;
      r := Ok(Hoisted(x.value, t.precedingAssignments));
    }

    /** The loop over a direct call's arguments in `visit_Assign` and
        `visit_Expr`. */
    method TransformArgs(xs: seq<Expr>, line: int) returns (r: Result<HoistedSeq>)
      ensures r == HoistArgs(mode, xs, line)
    {
      if mode == Threaded {
        var t := new ExpressionTransformer(line);
        var x := t.VisitList(xs);
        if x.Err? {
          return Err(x.error);
        }
        ghost var v := HoistFrom(xs, 0, 0, line).value;
        assert [] + v.pre == v.pre;
        return Ok(HoistedSeq(x.value, t.precedingAssignments));
      }
      var newArgs: seq<Expr> := [];
      var preceding: seq<Stmt> := [];
      var i := 0;
      PerArgumentNothing(xs, line);
      while i < |xs|
        invariant 0 <= i <= |xs|
        invariant PerArgumentFrom(xs, 0, line) == Prepend(newArgs, preceding, PerArgumentFrom(xs, i, line))
      {
        var a := TransformExpression(xs[i], line);
        PerArgumentStep(newArgs, preceding, xs, i, line);
        if a.Err? {
          return Err(a.error);
        }
        preceding := preceding + a.value.pre;
        newArgs := newArgs + [a.value.expr];
        i := i + 1;
      }
      assert newArgs + [] == newArgs && preceding + [] == preceding;
      r := Ok(HoistedSeq(newArgs, preceding));
    }

    /** `visit_Assign`; the counter is not used. */
    method VisitAssign(l: int, ts: seq<Expr>, v: Expr) returns (r: Result<seq<Stmt>>)
      ensures Yields(r, ConvAssign(mode, l, ts, v, globalTempVarCount), globalTempVarCount)
    {
      if |ts| != 1 || !ts[0].Name? {
        return Err(Error.Unsupported);
      }
      if v.Call? {
        var a := TransformArgs(v.args, l);
        if a.Err? {
          return Err(a.error);
        }
        if v.keywords != [] {
          return Err(Error.Unsupported);
        }
        return Ok(a.value.pre + [Assign(l, ts, Call(v.func, a.value.exprs, []))]);
      }
      var h := TransformExpression(v, l);
      if h.Err? {
        return Err(h.error);
      }
      r := Ok(h.value.pre + [Assign(l, ts, h.value.expr)]);
    }

    /** `visit_Expr`. */
    method VisitExpr(l: int, v: Expr) returns (r: Result<seq<Stmt>>)
      modifies this
      ensures Yields(r, ConvExpr(mode, l, v, old(globalTempVarCount)), globalTempVarCount)
    {
      if !v.Call? {
        return Ok([Pass(l)]);
      }
      var a := TransformArgs(v.args, l);
      if a.Err? {
        return Err(a.error);
      }
      if v.keywords != [] {
        return Err(Error.Unsupported);
      }
      var name := GenerateTempVar();
      r := Ok(a.value.pre + [Assign(l, [Name(name)], Call(v.func, a.value.exprs, []))]);
    }

    /** `visit_Return`; the counter is not used. */
    method VisitReturn(l: int, v: Option<Expr>) returns (r: Result<seq<Stmt>>)
      ensures Yields(r, ConvReturn(l, v, globalTempVarCount), globalTempVarCount)
    {
      if v.None? {
        return Ok([ReturnNone(l)]);
      }
      var h := TransformExpression(v.value, l);
      if h.Err? {
        return Err(h.error);
      }
      r := Ok(h.value.pre + [Return(l, Some(h.value.expr))]);
    }

    /** `visit_If`. */
    method VisitIf(s: Stmt) returns (r: Result<seq<Stmt>>)
      requires s.If?
      modifies this
      decreases s, 1
      ensures Yields(r, ConvIf(mode, s, old(globalTempVarCount)), globalTempVarCount)
    {
      var h := TransformExpression(s.test, s.line);
      if h.Err? {
        return Err(h.error);
      }
      var body := VisitStatements(s.body);
      if body.Err? {
        return Err(body.error);
      }
      var orelse := [Pass(s.line)];
      if s.orelse != [] {
        var o := VisitStatements(s.orelse);
        if o.Err? {
          return Err(o.error);
        }
        orelse := o.value;
      }
      r := Ok(h.value.pre + [If(s.line, h.value.expr, body.value, orelse)]);
    }

    /** `visit_While`. */
    method VisitWhile(s: Stmt) returns (r: Result<seq<Stmt>>)
      requires s.While?
      modifies this
      decreases s, 1
      ensures Yields(r, ConvWhile(mode, s, old(globalTempVarCount)), globalTempVarCount)
    {
      if s.orelse != [] {
        return Err(Error.Unsupported);
      }
      var h := TransformExpression(s.test, s.line);
      if h.Err? {
        return Err(h.error);
      }
      var body := VisitStatements(s.body);
      if body.Err? {
        return Err(body.error);
      }
      var b := body.value;
      if |b| == 0 || !b[|b| - 1].Continue? {
        b := b + [Continue(s.line)];
      }
      r := Ok(h.value.pre + [While(s.line, h.value.expr, b, [])]);
    }

    /** `visit_FunctionDef`. */
    method VisitFunctionDef(s: Stmt) returns (r: Result<seq<Stmt>>)
      requires s.FunctionDef?
      modifies this
      decreases s, 1
      ensures Yields(r, ConvDef(mode, s, old(globalTempVarCount)), globalTempVarCount)
    {
      var p := s.params;
      if p.defaults != [] || p.kwonlyargs != [] || p.kwDefaults != [] || p.posonlyargs != []
         || p.vararg.Some? || p.kwarg.Some? {
        return Err(Error.Unsupported);
      }
      if s.decorators != [] {
        return Err(Error.Unsupported);
      }
      var body := VisitStatements(s.body);
      if body.Err? {
        return Err(body.error);
      }
      var b := body.value;
      if |b| == 0 || !b[|b| - 1].Return? {
        b := b + [ReturnNone(s.line)];
      }
      r := Ok([FunctionDef(s.line, s.name, s.params, b, s.decorators)]);
    }

    /** `visit` on a statement: the statement visitors, and `generic_visit`
        for the rest. */
    method Visit(s: Stmt) returns (r: Result<seq<Stmt>>)
      modifies this
      decreases s, 2
      ensures Yields(r, ConvStmt(mode, s, old(globalTempVarCount)), globalTempVarCount)
    {
      match s
      case Assign(l, ts, v) => r := VisitAssign(l, ts, v);
      case ExprStmt(l, v) => r := VisitExpr(l, v);
      case If(_, _, _, _) => r := VisitIf(s);
      case While(_, _, _, _) => r := VisitWhile(s);
      case FunctionDef(_, _, _, _, _) => r := VisitFunctionDef(s);
      case Return(l, v) => r := VisitReturn(l, v);
      case Unsupported(_, _) => r := Err(Error.Unsupported);
      case _ => r := Ok([s]);
    }

    /** `visit_statements`: the visits' results flattened, in order. */
    method VisitStatements(ss: seq<Stmt>) returns (r: Result<seq<Stmt>>)
      modifies this
      decreases ss, 0
      ensures Yields(r, ConvFrom(mode, ss, 0, old(globalTempVarCount)), globalTempVarCount)
    {
      var out: seq<Stmt> := [];
      var i := 0;
      PrependConvNothing(ConvFrom(mode, ss, 0, globalTempVarCount));
      while i < |ss|
        invariant 0 <= i <= |ss|
        invariant ConvFrom(mode, ss, 0, old(globalTempVarCount)) == PrependConv(out, ConvFrom(mode, ss, i, globalTempVarCount))
      {
        ghost var g := globalTempVarCount;
        var c := Visit(ss[i]);
        PrependConvStep(mode, out, ss, i, g);
        if c.Err? {
          return Err(c.error);
        }
        out := out + c.value;
        i := i + 1;
      }
      assert out + [] == out;
      r := Ok(out);
    }

    /** `transform` on an already parsed module. */
    method Transform(m: Module) returns (r: Result<Module>)
      modifies this
      ensures match TransformFrom(mode, m, old(globalTempVarCount))
        case Err(err) => r == Err(err)
        case Ok(res) => r == Ok(res.0) && globalTempVarCount == res.1
    {
      var body := VisitStatements(m.body);
      if body.Err? {
        return Err(body.error);
      }
      r := Ok(Module(body.value));
    }
  }

  /** `simplify_python_code` on an already parsed module: a fresh converter
      as the source has it. */
  method SimplifyModule(m: Module) returns (r: Result<Module>)
    ensures match TransformFrom(PerArgument, m, 0)
      case Err(err) => r == Err(err)
      case Ok(res) => r == Ok(res.0)
  {
    var c := new SimplipyConverter(PerArgument);
    r := c.Transform(m);
  }
}
