/** The simplifier and the parser together: what `simplify_python_code`
    produces from a module whose calls all name their callee is a module
    the parser accepts, whichever way the arguments of a direct call are
    numbered. */
module Pipeline {
  import opened Wrappers
  import opened PyAst
  import opened Simplify
  import opened Parse

  lemma AllAcceptedAppend(a: seq<PyAst.Stmt>, b: seq<PyAst.Stmt>)
    requires AllAccepted(a) && AllAccepted(b)
    ensures AllAccepted(a + b)
  {
    forall i | 0 <= i < |a + b|
      ensures Accepted((a + b)[i])
    {
      if i >= |a| {
        assert (a + b)[i] == b[i - |a|];
      }
    }
  }

  /** Hoisted assignments of calls of named functions are accepted. */
  lemma PreAccepted(pre: seq<PyAst.Stmt>, line: int)
    requires forall i :: 0 <= i < |pre| ==> HoistedAssign(pre[i], line)
    requires CalleesNamed(pre)
    ensures AllAccepted(pre)
  {
    forall i | 0 <= i < |pre|
      ensures Accepted(pre[i])
    {
      assert pre[i].value.func.Name?;
    }
  }

  /** The statements before the last are accepted hoisted assignments and
      the last one is accepted. */
  lemma EndAccepted(pre: seq<PyAst.Stmt>, last: PyAst.Stmt, line: int)
    requires forall i :: 0 <= i < |pre| ==> HoistedAssign(pre[i], line)
    requires CalleesNamed(pre) && Accepted(last)
    ensures AllAccepted(pre + [last])
  {
    PreAccepted(pre, line);
    AllAcceptedAppend(pre, [last]);
  }

  lemma NumberedHoisted(pre: seq<PyAst.Stmt>, n: nat, line: int)
    requires NumberedFrom(pre, n, line)
    ensures forall i :: 0 <= i < |pre| ==> HoistedAssign(pre[i], line)
  {
  }

  lemma AssignOut(mode: ArgCounter, l: int, ts: seq<Expr>, v: Expr, g: nat)
    requires CalleesAreNames(v) && ConvAssign(mode, l, ts, v, g).Ok?
    ensures AllAccepted(ConvAssign(mode, l, ts, v, g).value.stmts)
  {
    if v.Call? {
      var a := HoistArgs(mode, v.args, l).value;
      EndAccepted(a.pre, Assign(l, ts, Call(v.func, a.exprs, [])), l);
    } else {
      var h := Hoist(v, 0, l).value;
      NumberedHoisted(h.pre, 0, l);
      EndAccepted(h.pre, Assign(l, ts, h.expr), l);
    }
  }

  lemma ExprOut(mode: ArgCounter, l: int, v: Expr, g: nat)
    requires CalleesAreNames(v) && ConvExpr(mode, l, v, g).Ok?
    ensures AllAccepted(ConvExpr(mode, l, v, g).value.stmts)
  {
    if v.Call? {
      var a := HoistArgs(mode, v.args, l).value;
      EndAccepted(a.pre, TempAssignment(l, g, v.func, a.exprs), l);
    }
  }

  lemma ReturnOut(l: int, v: Option<Expr>, g: nat)
    requires (v.Some? ==> CalleesAreNames(v.value)) && ConvReturn(l, v, g).Ok?
    ensures AllAccepted(ConvReturn(l, v, g).value.stmts)
  {
    if v.Some? {
      var h := Hoist(v.value, 0, l).value;
      NumberedHoisted(h.pre, 0, l);
      EndAccepted(h.pre, Return(l, Some(h.expr)), l);
    }
  }

  lemma {:induction false} IfOut(mode: ArgCounter, s: PyAst.Stmt, g: nat)
    requires s.If? && StmtCalleesAreNames(s) && ConvIf(mode, s, g).Ok?
    ensures AllAccepted(ConvIf(mode, s, g).value.stmts)
    decreases s, 1
  {
    var h := Hoist(s.test, 0, s.line).value;
    var b := ConvFrom(mode, s.body, 0, g).value;
    ConvFromOut(mode, s.body, 0, g);
    NumberedHoisted(h.pre, 0, s.line);
    if s.orelse != [] {
      var o := ConvFrom(mode, s.orelse, 0, b.count).value;
      ConvFromOut(mode, s.orelse, 0, b.count);
      EndAccepted(h.pre, If(s.line, h.expr, b.stmts, o.stmts), s.line);
    } else {
      assert AllAccepted([Pass(s.line)]);
      EndAccepted(h.pre, If(s.line, h.expr, b.stmts, [Pass(s.line)]), s.line);
    }
  }

  lemma {:induction false} WhileOut(mode: ArgCounter, s: PyAst.Stmt, g: nat)
    requires s.While? && StmtCalleesAreNames(s) && ConvWhile(mode, s, g).Ok?
    ensures AllAccepted(ConvWhile(mode, s, g).value.stmts)
    decreases s, 1
  {
    var h := Hoist(s.test, 0, s.line).value;
    var b := ConvFrom(mode, s.body, 0, g).value;
    ConvFromOut(mode, s.body, 0, g);
    NumberedHoisted(h.pre, 0, s.line);
    var body := if EndsWithContinue(b.stmts) then b.stmts else b.stmts + [Continue(s.line)];
    assert AllAccepted([Continue(s.line)]);
    AllAcceptedAppend(b.stmts, [Continue(s.line)]);
    EndAccepted(h.pre, While(s.line, h.expr, body, []), s.line);
  }

  lemma {:induction false} DefOut(mode: ArgCounter, s: PyAst.Stmt, g: nat)
    requires s.FunctionDef? && StmtCalleesAreNames(s) && ConvDef(mode, s, g).Ok?
    ensures AllAccepted(ConvDef(mode, s, g).value.stmts)
    decreases s, 1
  {
    var b := ConvFrom(mode, s.body, 0, g).value;
    ConvFromOut(mode, s.body, 0, g);
    assert Accepted(ReturnNone(s.line));
    AllAcceptedAppend(b.stmts, [ReturnNone(s.line)]);
    var body := if EndsWithReturn(b.stmts) then b.stmts else b.stmts + [ReturnNone(s.line)];
    assert Accepted(FunctionDef(s.line, s.name, s.params, body, s.decorators));
  }

  /** Every statement a converted statement becomes is accepted. */
  lemma {:induction false} ConvStmtOut(mode: ArgCounter, s: PyAst.Stmt, g: nat)
    requires StmtCalleesAreNames(s) && ConvStmt(mode, s, g).Ok?
    ensures AllAccepted(ConvStmt(mode, s, g).value.stmts)
    decreases s, 2
  {
    match s
    case Assign(l, ts, v) => AssignOut(mode, l, ts, v, g);
    case ExprStmt(l, v) => ExprOut(mode, l, v, g);
    case If(_, _, _, _) => IfOut(mode, s, g);
    case While(_, _, _, _) => WhileOut(mode, s, g);
    case FunctionDef(_, _, _, _, _) => DefOut(mode, s, g);
    case Return(l, v) => ReturnOut(l, v, g);
    case _ => assert Accepted(s);
  }

  lemma {:induction false} ConvFromOut(mode: ArgCounter, ss: seq<PyAst.Stmt>, k: nat, g: nat)
    requires k <= |ss| && BodyCalleesAreNames(ss) && ConvFrom(mode, ss, k, g).Ok?
    ensures AllAccepted(ConvFrom(mode, ss, k, g).value.stmts)
    decreases ss, 0, |ss| - k
  {
    if k < |ss| {
      var c := ConvStmt(mode, ss[k], g).value;
      ConvStmtOut(mode, ss[k], g);
      ConvFromOut(mode, ss, k + 1, c.count);
      AllAcceptedAppend(c.stmts, ConvFrom(mode, ss, k + 1, c.count).value.stmts);
    }
  }

  /** The simplifier's output parses: a module whose calls all name their
      callee and that the simplifier does not refuse becomes a module
      every statement of which the parser accepts. */
  lemma SimplifiedParses(mode: ArgCounter, m: Module)
    requires BodyCalleesAreNames(m.body) && TransformFrom(mode, m, 0).Ok?
    ensures AllAccepted(TransformFrom(mode, m, 0).value.0.body)
    ensures ParseProgram(TransformFrom(mode, m, 0).value.0).Ok?
  {
    ConvFromOut(mode, m.body, 0, 0);
    ParsesIff(TransformFrom(mode, m, 0).value.0);
  }
}
