/** simplipy/parse/parse.py: the `Visitor` that turns a Python module into
    the program tree. Blocks are built on a stack: a compound statement
    pushes a fresh block for each of its bodies, visits the body into it,
    pops it and wraps it in the new statement, which is appended to the
    block below. Assigned names, `global` and `nonlocal` names are
    recorded in the innermost lexical block (the root or a function body).

    The stack transformations are the functions below; class `Visitor`
    performs them in place and is proved to follow them. */
module Parse {
  import opened Wrappers
  import opened PyAst
  import opened Expression
  import opened Instruction
  import opened Tree

  type Stack = seq<Block>

  // ---------------------------------------------------------------------
  // The stack transformations

  /** `_encl_lexical_block`: the position of the innermost lexical block;
      LookupError when there is none. */
  function EnclosingLexical(st: Stack): (r: Result<nat>)
    ensures r.Ok? ==> r.value < |st| && st[r.value].lexical
    ensures r.Ok? ==> forall j :: r.value < j < |st| ==> !st[j].lexical
    ensures r.Err? ==> r.error == LookupError && forall j :: 0 <= j < |st| ==> !st[j].lexical
  {
    if st == [] then Err(LookupError)
    else if st[|st| - 1].lexical then Ok(|st| - 1)
    else
      var r := EnclosingLexical(st[..|st| - 1]);
      assert forall j :: 0 <= j < |st| - 1 ==> st[..|st| - 1][j] == st[j];
      r
  }

  /** `_update_locals(var)`: add `x` to the innermost lexical block's
      locals, unless that block is the root. */
  function AddLocal(st: Stack, x: string): (r: Result<Stack>)
    ensures r.Ok? <==> EnclosingLexical(st).Ok?
    ensures r.Ok? ==> |r.value| == |st| && forall j :: 0 <= j < |st| ==>
      r.value[j] == if j == EnclosingLexical(st).value && j != 0 then st[j].(locals := st[j].locals + {x}) else st[j]
  {
    var j :- EnclosingLexical(st);
    Ok(if j != 0 then st[j := st[j].(locals := st[j].locals + {x})] else st)
  }

  /** `global` names: added to the innermost lexical block, root included. */
  function AddGlobals(st: Stack, names: seq<string>): (r: Result<Stack>)
    ensures r.Ok? <==> EnclosingLexical(st).Ok?
    ensures r.Ok? ==> var j := EnclosingLexical(st).value;
      r.value == st[j := st[j].(globals := st[j].globals + set n | n in names)]
  {
    var j :- EnclosingLexical(st);
    Ok(st[j := st[j].(globals := st[j].globals + set n | n in names)])
  }

  /** `nonlocal` names: added to the innermost lexical block, root included. */
  function AddNonlocals(st: Stack, names: seq<string>): (r: Result<Stack>)
    ensures r.Ok? <==> EnclosingLexical(st).Ok?
    ensures r.Ok? ==> var j := EnclosingLexical(st).value;
      r.value == st[j := st[j].(nonlocals := st[j].nonlocals + set n | n in names)]
  {
    var j :- EnclosingLexical(st);
    Ok(st[j := st[j].(nonlocals := st[j].nonlocals + set n | n in names)])
  }

  /** `Visitor._add_stmt`: the statement gets the current length of the
      top block as its index and is appended to it. */
  function Append(st: Stack, s: Tree.Stmt): (r: Stack)
    requires |st| > 0
    ensures |r| == |st| && forall j :: 0 <= j < |st| - 1 ==> r[j] == st[j]
    ensures var top := st[|st| - 1];
      r[|st| - 1] == top.(stmts := top.stmts + [SetIdx(s, |top.stmts|)])
  {
    var top := st[|st| - 1];
    st[|st| - 1 := AddStmt(top, SetIdx(s, |top.stmts|))]
  }

  /** Push a fresh block, visit `body` into it, pop it. */
  function VisitInto(st: Stack, body: seq<PyAst.Stmt>, lexical: bool): (r: Result<(Stack, Block)>)
    ensures r.Ok? ==> |r.value.0| == |st|
    ensures body == [] ==> r == Ok((st, EmptyBlock(lexical)))
    decreases body, 2
  {
    var st1 :- VisitFrom(st + [EmptyBlock(lexical)], body, 0);
    Ok((st1[..|st1| - 1], st1[|st1| - 1]))
  }

  /** `visit_Assign`. The name is recorded before the value is checked. */
  function AssignStep(st: Stack, l: int, ts: seq<Expr>, v: Expr): (r: Result<Stack>)
    requires |st| > 0
    ensures r.Ok? ==> |r.value| == |st|
    ensures |ts| != 1 || !ts[0].Name? ==> r == Err(NotImplementedError)
    ensures r.Ok? && v.Call? ==> v.func.Name?
  {
    if |ts| != 1 || !ts[0].Name? then Err(NotImplementedError)
    else
      var x := ts[0].id;
      var st1 :- AddLocal(st, x);
      if v.Call? then
        if !v.func.Name? then Err(NotImplementedError)
        else
          var args :- NewExpressions(v.args);
          Ok(Append(st1, Simple(CallAssignI(l, x, v.func.id, args), 0)))
      else
        var e :- NewExpression(v);
        Ok(Append(st1, Simple(ExprAssignI(l, x, e), 0)))
  }

  /** `visit_If`. The missing else block is reported only after the body
      has been visited. */
  function IfStep(st: Stack, s: PyAst.Stmt): (r: Result<Stack>)
    requires |st| > 0 && s.If?
    ensures r.Ok? ==> |r.value| == |st|
    ensures r.Ok? ==> s.orelse != [] && NewExpression(s.test).Ok?
    decreases s, 2
  {
    var e :- NewExpression(s.test);
    var (st1, ib) :- VisitInto(st, s.body, false);
    if s.orelse == [] then Err(ValueError)
    else
      var (st2, eb) :- VisitInto(st1, s.orelse, false);
      Ok(Append(st2, IfStmt(IfI(s.line, e), ib, eb, 0)))
  }

  /** `visit_While`: the loop's else block is not looked at. */
  function WhileStep(st: Stack, s: PyAst.Stmt): (r: Result<Stack>)
    requires |st| > 0 && s.While?
    ensures r.Ok? ==> |r.value| == |st|
    ensures r.Ok? ==> NewExpression(s.test).Ok?
    decreases s, 2
  {
    var e :- NewExpression(s.test);
    var (st1, b) :- VisitInto(st, s.body, false);
    Ok(Append(st1, WhileStmt(WhileI(s.line, e), b, 0)))
  }

  /** `visit_FunctionDef`: the formals are the plain positional
      parameters; the name is recorded in the enclosing scope before the
      body is visited into a fresh lexical block. */
  function DefStep(st: Stack, s: PyAst.Stmt): (r: Result<Stack>)
    requires |st| > 0 && s.FunctionDef?
    ensures r.Ok? ==> |r.value| == |st|
    ensures r.Ok? ==> EnclosingLexical(st).Ok?
    decreases s, 2
  {
    var st1 :- AddLocal(st, s.name);
    var (st2, b) :- VisitInto(st1, s.body, true);
    Ok(Append(st2, DefStmt(DefI(s.line, s.name, s.params.args), b, 0)))
  }

  /** `visit_Return`: a bare `return` is refused. */
  function ReturnStep(st: Stack, l: int, v: Option<Expr>): (r: Result<Stack>)
    requires |st| > 0
    ensures r.Ok? ==> |r.value| == |st|
    ensures v.None? ==> r == Err(NotImplementedError)
    ensures v.Some? && ContainsCall(v.value) ==> r.Err?
  {
    if v.None? then Err(NotImplementedError)
    else
      var e :- NewExpression(v.value);
      Ok(Append(st, Simple(RetI(l, e), 0)))
  }

  /** `visit_Nonlocal`. */
  function NonlocalStep(st: Stack, l: int, names: seq<string>): (r: Result<Stack>)
    requires |st| > 0
    ensures r.Ok? ==> |r.value| == |st|
    ensures r.Ok? <==> EnclosingLexical(st).Ok?
  {
    var st1 :- AddNonlocals(st, names);
    Ok(Append(st1, Simple(NonlocalI(l, names), 0)))
  }

  /** `visit_Global`. */
  function GlobalStep(st: Stack, l: int, names: seq<string>): (r: Result<Stack>)
    requires |st| > 0
    ensures r.Ok? ==> |r.value| == |st|
    ensures r.Ok? <==> EnclosingLexical(st).Ok?
  {
    var st1 :- AddGlobals(st, names);
    Ok(Append(st1, Simple(GlobalI(l, names), 0)))
  }

  /** `visit(node)` for one statement node; `generic_visit` refuses every
      kind without a `visit_` method. */
  function VisitStmt(st: Stack, s: PyAst.Stmt): (r: Result<Stack>)
    requires |st| > 0
    ensures r.Ok? ==> |r.value| == |st|
    decreases s, 3
  {
    match s
    case Pass(l) => Ok(Append(st, Simple(PassI(l), 0)))
    case Break(l) => Ok(Append(st, Simple(BreakI(l), 0)))
    case Continue(l) => Ok(Append(st, Simple(ContinueI(l), 0)))
    case Assign(l, ts, v) => AssignStep(st, l, ts, v)
    case If(_, _, _, _) => IfStep(st, s)
    case While(_, _, _, _) => WhileStep(st, s)
    case FunctionDef(_, _, _, _, _) => DefStep(st, s)
    case Return(l, v) => ReturnStep(st, l, v)
    case Nonlocal(l, names) => NonlocalStep(st, l, names)
    case Global(l, names) => GlobalStep(st, l, names)
    case ExprStmt(_, _) => Err(NotImplementedError)
    case Unsupported(_, _) => Err(NotImplementedError)
  }

  /** The `for stmt_node in ...: self.visit(stmt_node)` loops, from
      statement `k` on; the first error stops the visit. */
  function VisitFrom(st: Stack, ss: seq<PyAst.Stmt>, k: nat): (r: Result<Stack>)
    requires |st| > 0
    ensures r.Ok? ==> |r.value| == |st|
    decreases ss, 1, |ss| - k
  {
    if k >= |ss| then Ok(st)
    else
      var st1 :- VisitStmt(st, ss[k]);
      VisitFrom(st1, ss, k + 1)
  }

  /** `parse_pgm` on a visitor whose stack is `st`: visit the module's
      statements, then take the bottom block as the program. */
  function ParseWith(st: Stack, m: Module): Result<Program>
    requires |st| > 0
  {
    var st1 :- VisitFrom(st, m.body, 0);
    Ok(Program(st1[0]))
  }

  /** A fresh visitor's stack holds only the root block, lexical. */
  function ParseProgram(m: Module): (r: Result<Program>)
    ensures m.body == [] ==> r == Ok(Program(EmptyBlock(true)))
  {
    ParseWith([EmptyBlock(true)], m)
  }

  // ---------------------------------------------------------------------
  // What a visit keeps and produces

  /** The lexical flags of compound statements' blocks: if, else and
      while bodies are not lexical, function bodies are, at every depth. */
  predicate ShapedBlock(b: Block)
  {
    forall j :: 0 <= j < |b.stmts| ==> ShapedStmt(b.stmts[j])
  }

  predicate ShapedStmt(s: Tree.Stmt)
  {
    match s
    case Simple(_, _) => true
    case IfStmt(_, ib, eb, _) => !ib.lexical && !eb.lexical && ShapedBlock(ib) && ShapedBlock(eb)
    case WhileStmt(_, b, _) => !b.lexical && ShapedBlock(b)
    case DefStmt(_, b, _) => b.lexical && ShapedBlock(b)
  }

  /** Every block on the stack is well indexed and shaped. */
  predicate StackOk(st: Stack)
  {
    forall j :: 0 <= j < |st| ==> WellIndexedBlock(st[j]) && ShapedBlock(st[j])
  }

  /** `st'` is `st` after some statements were appended to its top block
      and names recorded: same depth and lexical flags, the blocks below
      the top keep their statements, the top's old statements are a
      prefix of its new ones, the name sets only grow, the root's
      locals stay as they were, and the blocks below the innermost
      lexical one are untouched. */
  predicate Extends(st: Stack, st': Stack)
  {
    |st'| == |st| && |st| > 0
    && (forall j :: 0 <= j < |st| ==> st'[j].lexical == st[j].lexical)
    && (forall j :: 0 <= j < |st| - 1 ==> st'[j].stmts == st[j].stmts)
    && |st[|st| - 1].stmts| <= |st'[|st| - 1].stmts|
    && st'[|st| - 1].stmts[..|st[|st| - 1].stmts|] == st[|st| - 1].stmts
    && (forall j :: 0 <= j < |st| ==>
          st[j].locals <= st'[j].locals && st[j].globals <= st'[j].globals && st[j].nonlocals <= st'[j].nonlocals)
    && st'[0].locals == st[0].locals
    && (EnclosingLexical(st).Ok? ==> forall j :: 0 <= j < EnclosingLexical(st).value ==> st'[j] == st[j])
  }

  /** The innermost lexical block depends on the lexical flags alone. */
  lemma {:induction false} EnclosingLexicalFlags(a: Stack, b: Stack)
    requires |a| == |b| && forall j :: 0 <= j < |a| ==> a[j].lexical == b[j].lexical
    ensures EnclosingLexical(a) == EnclosingLexical(b)
    decreases |a|
  {
    if a != [] && !a[|a| - 1].lexical {
      EnclosingLexicalFlags(a[..|a| - 1], b[..|b| - 1]);
    }
  }

  /** The arguments of a call, each wrapped in an `Expression`. */
  function Wrapped(nodes: seq<Expr>): (r: seq<Expression>)
    ensures |r| == |nodes| && forall j :: 0 <= j < |nodes| ==> r[j].node == nodes[j]
  {
    seq(|nodes|, j requires 0 <= j < |nodes| => Expression(nodes[j]))
  }

  /** Tree statement `t` is the translation of AST statement `a`: the
      statement class `visit_<kind>` builds for `a`, whose instruction has
      `a`'s line, target, callee, formals, names and expression nodes,
      and, for a compound statement, blocks that translate `a`'s bodies
      (an if's body into its if block and its else block into its else
      block; a while's else block is not translated). The index is the
      one `_add_stmt` gives and is not constrained here. */
  predicate Translates(a: PyAst.Stmt, t: Tree.Stmt)
    decreases a, 1
  {
    match a
    case Pass(l) => t.Simple? && t.instr == PassI(l)
    case Break(l) => t.Simple? && t.instr == BreakI(l)
    case Continue(l) => t.Simple? && t.instr == ContinueI(l)
    case Assign(l, ts, v) =>
      t.Simple? && |ts| == 1 && ts[0].Name?
      && if v.Call? then v.func.Name? && t.instr == CallAssignI(l, ts[0].id, v.func.id, Wrapped(v.args))
         else t.instr == ExprAssignI(l, ts[0].id, Expression(v))
    case If(l, test, body, orelse) =>
      t.IfStmt? && t.ifInstr == IfI(l, Expression(test))
      && TranslatesAll(body, t.ifBlock) && TranslatesAll(orelse, t.elseBlock)
    case While(l, test, body, _) =>
      t.WhileStmt? && t.whileInstr == WhileI(l, Expression(test)) && TranslatesAll(body, t.body)
    case FunctionDef(l, name, params, body, _) =>
      t.DefStmt? && t.defInstr == DefI(l, name, params.args) && TranslatesAll(body, t.body)
    case Return(l, v) => t.Simple? && v.Some? && t.instr == RetI(l, Expression(v.value))
    case Nonlocal(l, names) => t.Simple? && t.instr == NonlocalI(l, names)
    case Global(l, names) => t.Simple? && t.instr == GlobalI(l, names)
    case ExprStmt(_, _) => false
    case Unsupported(_, _) => false
  }

  /** Block `b` holds the translations of `ss`, one each, in order. */
  predicate TranslatesAll(ss: seq<PyAst.Stmt>, b: Block)
    decreases ss, 0
  {
    |b.stmts| == |ss| && forall i :: 0 <= i < |ss| ==> Translates(ss[i], b.stmts[i])
  }

  /** The effect of visiting one statement `a`: the stack is extended and
      still well formed, and its top block gained exactly one statement,
      the translation of `a`. */
  predicate Grows(st: Stack, st': Stack, a: PyAst.Stmt)
  {
    Extends(st, st') && StackOk(st')
    && var n := |st[|st| - 1].stmts|;
       var top := st'[|st| - 1].stmts;
       |top| == n + 1 && Translates(a, top[n])
  }

  lemma ExtendsRefl(st: Stack)
    requires |st| > 0
    ensures Extends(st, st)
  {
    assert st[|st| - 1].stmts[..|st[|st| - 1].stmts|] == st[|st| - 1].stmts;
  }

  lemma ExtendsTrans(a: Stack, b: Stack, c: Stack)
    requires Extends(a, b) && Extends(b, c)
    ensures Extends(a, c)
  {
    var n := |a| - 1;
    assert c[n].stmts[..|b[n].stmts|][..|a[n].stmts|] == c[n].stmts[..|a[n].stmts|];
    EnclosingLexicalFlags(a, b);
  }

  /** Appending the translation of `a` to a stack that extends `st` but
      kept `st`'s top statements. */
  lemma AppendGrows(st: Stack, st1: Stack, t: Tree.Stmt, a: PyAst.Stmt)
    requires Extends(st, st1) && StackOk(st1) && st1[|st| - 1].stmts == st[|st| - 1].stmts
    requires ShapedStmt(t) && WellIndexedStmt(t) && Translates(a, t)
    ensures Grows(st, Append(st1, t), a)
  {
    var top := st1[|st1| - 1];
    var s' := SetIdx(t, |top.stmts|);
    var nb := AddStmt(top, s');
    var st2 := Append(st1, t);
    assert ShapedStmt(s') && WellIndexedStmt(s');
    assert forall j :: 0 <= j < |nb.stmts| ==> nb.stmts[j] == if j < |top.stmts| then top.stmts[j] else s';
    assert WellIndexedBlock(nb) && ShapedBlock(nb);
    assert forall j :: 0 <= j < |st1| - 1 ==> st2[j] == st1[j];
    assert Extends(st1, st2);
    ExtendsTrans(st, st1, st2);
  }

  lemma NamesKeep(st: Stack, j: nat, b: Block)
    requires j < |st| && StackOk(st) && b.stmts == st[j].stmts && b.lexical == st[j].lexical
    requires st[j].locals <= b.locals && st[j].globals <= b.globals && st[j].nonlocals <= b.nonlocals
    requires j == 0 ==> b.locals == st[0].locals
    requires EnclosingLexical(st) == Ok(j)
    ensures Extends(st, st[j := b]) && StackOk(st[j := b])
  {
    ExtendsRefl(st);
  }

  lemma LocalKeeps(st: Stack, x: string)
    requires |st| > 0 && StackOk(st) && AddLocal(st, x).Ok?
    ensures Extends(st, AddLocal(st, x).value) && StackOk(AddLocal(st, x).value)
    ensures forall j :: 0 <= j < |st| ==> AddLocal(st, x).value[j].stmts == st[j].stmts
  {
    var j := EnclosingLexical(st).value;
    if j != 0 {
      NamesKeep(st, j, st[j].(locals := st[j].locals + {x}));
    } else {
      ExtendsRefl(st);
    }
  }

  /** Visiting into a fresh block of the given kind returns the stack
      extended with its statements untouched, and the new block, well
      indexed and shaped. */
  lemma {:induction false} VisitIntoKeeps(st: Stack, body: seq<PyAst.Stmt>, lexical: bool)
    requires |st| > 0 && StackOk(st) && VisitInto(st, body, lexical).Ok?
    ensures Extends(st, VisitInto(st, body, lexical).value.0) && StackOk(VisitInto(st, body, lexical).value.0)
    ensures forall j :: 0 <= j < |st| ==> VisitInto(st, body, lexical).value.0[j].stmts == st[j].stmts
    ensures var b := VisitInto(st, body, lexical).value.1;
      b.lexical == lexical && WellIndexedBlock(b) && ShapedBlock(b) && TranslatesAll(body, b)
    ensures lexical ==> VisitInto(st, body, lexical).value.0 == st
    decreases body, 2
  {
    var st0 := st + [EmptyBlock(lexical)];
    assert StackOk(st0);
    assert st0[..|st|] == st;
    VisitFromKeeps(st0, body, 0);
    VisitFromTranslates(st0, body, 0);
    var st1 := VisitFrom(st0, body, 0).value;
    assert forall j :: 0 <= j < |st| ==> st1[j].stmts == st[j].stmts;
  }

  lemma SimpleGrows(st: Stack, i: SimpleInstr, a: PyAst.Stmt)
    requires |st| > 0 && StackOk(st) && Translates(a, Simple(i, 0))
    ensures Grows(st, Append(st, Simple(i, 0)), a)
  {
    ExtendsRefl(st);
    AppendGrows(st, st, Simple(i, 0), a);
  }

  lemma AssignGrows(st: Stack, s: PyAst.Stmt)
    requires s.Assign? && |st| > 0 && StackOk(st) && AssignStep(st, s.line, s.targets, s.value).Ok?
    ensures Grows(st, AssignStep(st, s.line, s.targets, s.value).value, s)
  {
    var x := s.targets[0].id;
    LocalKeeps(st, x);
    var st1 := AddLocal(st, x).value;
    if s.value.Call? {
      var args := NewExpressions(s.value.args).value;
      AppendGrows(st, st1, Simple(CallAssignI(s.line, x, s.value.func.id, args), 0), s);
    } else {
      var e := NewExpression(s.value).value;
      AppendGrows(st, st1, Simple(ExprAssignI(s.line, x, e), 0), s);
    }
  }

  lemma {:induction false} IfGrows(st: Stack, s: PyAst.Stmt)
    requires s.If? && |st| > 0 && StackOk(st) && IfStep(st, s).Ok?
    ensures Grows(st, IfStep(st, s).value, s)
    decreases s, 2
  {
    var e := NewExpression(s.test).value;
    VisitIntoKeeps(st, s.body, false);
    var (st1, ib) := VisitInto(st, s.body, false).value;
    VisitIntoKeeps(st1, s.orelse, false);
    var (st2, eb) := VisitInto(st1, s.orelse, false).value;
    ExtendsTrans(st, st1, st2);
    AppendGrows(st, st2, IfStmt(IfI(s.line, e), ib, eb, 0), s);
  }

  lemma {:induction false} WhileGrows(st: Stack, s: PyAst.Stmt)
    requires s.While? && |st| > 0 && StackOk(st) && WhileStep(st, s).Ok?
    ensures Grows(st, WhileStep(st, s).value, s)
    decreases s, 2
  {
    var e := NewExpression(s.test).value;
    VisitIntoKeeps(st, s.body, false);
    var (st1, b) := VisitInto(st, s.body, false).value;
    AppendGrows(st, st1, WhileStmt(WhileI(s.line, e), b, 0), s);
  }

  /** A def appends its translation; its name joins the locals of the
      innermost lexical block around it (unless that is the root), and the
      body, visited into its own lexical block, records nothing in the
      blocks below. */
  lemma {:induction false} DefGrows(st: Stack, s: PyAst.Stmt)
    requires s.FunctionDef? && |st| > 0 && StackOk(st) && DefStep(st, s).Ok?
    ensures Grows(st, DefStep(st, s).value, s)
    ensures var j := EnclosingLexical(st).value;
      DefStep(st, s).value[j].locals == st[j].locals + (if j != 0 then {s.name} else {})
      && forall i :: 0 <= i < |st| && i != j ==> DefStep(st, s).value[i].locals == st[i].locals
    decreases s, 2
  {
    LocalKeeps(st, s.name);
    var st1 := AddLocal(st, s.name).value;
    VisitIntoKeeps(st1, s.body, true);
    var (st2, b) := VisitInto(st1, s.body, true).value;
    ExtendsTrans(st, st1, st2);
    AppendGrows(st, st2, DefStmt(DefI(s.line, s.name, s.params.args), b, 0), s);
  }

  lemma ScopeGrows(st: Stack, s: PyAst.Stmt)
    requires (s.Global? || s.Nonlocal?) && |st| > 0 && StackOk(st)
    requires if s.Global? then GlobalStep(st, s.line, s.names).Ok? else NonlocalStep(st, s.line, s.names).Ok?
    ensures Grows(st, if s.Global? then GlobalStep(st, s.line, s.names).value else NonlocalStep(st, s.line, s.names).value, s)
  {
    var j := EnclosingLexical(st).value;
    if s.Global? {
      var st1 := AddGlobals(st, s.names).value;
      NamesKeep(st, j, st1[j]);
      AppendGrows(st, st1, Simple(GlobalI(s.line, s.names), 0), s);
    } else {
      var st1 := AddNonlocals(st, s.names).value;
      NamesKeep(st, j, st1[j]);
      AppendGrows(st, st1, Simple(NonlocalI(s.line, s.names), 0), s);
    }
  }

  /** An accepted statement extends the stack, keeps every block on it
      well indexed and shaped, and adds its translation as the one new
      statement of the current block. */
  lemma {:induction false} VisitStmtGrows(st: Stack, s: PyAst.Stmt)
    requires |st| > 0 && StackOk(st) && VisitStmt(st, s).Ok?
    ensures Grows(st, VisitStmt(st, s).value, s)
    decreases s, 3
  {
    match s
    case Pass(l) => SimpleGrows(st, PassI(l), s);
    case Break(l) => SimpleGrows(st, BreakI(l), s);
    case Continue(l) => SimpleGrows(st, ContinueI(l), s);
    case Assign(_, _, _) => AssignGrows(st, s);
    case If(_, _, _, _) => IfGrows(st, s);
    case While(_, _, _, _) => WhileGrows(st, s);
    case FunctionDef(_, _, _, _, _) => DefGrows(st, s);
    case Return(l, v) => SimpleGrows(st, RetI(l, NewExpression(v.value).value), s);
    case Nonlocal(_, _) => ScopeGrows(st, s);
    case Global(_, _) => ScopeGrows(st, s);
  }

  /** Visiting `ss[k..]` extends the stack and keeps it well formed. */
  lemma {:induction false} VisitFromKeeps(st: Stack, ss: seq<PyAst.Stmt>, k: nat)
    requires |st| > 0 && StackOk(st) && VisitFrom(st, ss, k).Ok?
    ensures Extends(st, VisitFrom(st, ss, k).value) && StackOk(VisitFrom(st, ss, k).value)
    decreases ss, 1, |ss| - k
  {
    if k < |ss| {
      VisitStmtGrows(st, ss[k]);
      var st1 := VisitStmt(st, ss[k]).value;
      VisitFromKeeps(st1, ss, k + 1);
      ExtendsTrans(st, st1, VisitFrom(st, ss, k).value);
    } else {
      ExtendsRefl(st);
    }
  }

  /** Visiting `ss[k..]` appends the statements' translations, in order,
      to the current block. */
  lemma {:induction false} VisitFromTranslates(st: Stack, ss: seq<PyAst.Stmt>, k: nat)
    requires |st| > 0 && StackOk(st) && k <= |ss| && VisitFrom(st, ss, k).Ok?
    ensures var n := |st[|st| - 1].stmts|;
      var top := VisitFrom(st, ss, k).value[|st| - 1].stmts;
      |top| == n + |ss| - k && top[..n] == st[|st| - 1].stmts && TranslatedFrom(ss, k, top, n)
    decreases ss, 1, |ss| - k
  {
    if k < |ss| {
      var st1 := VisitStmt(st, ss[k]).value;
      var n := |st[|st| - 1].stmts|;
      assert |st1| == |st| && StackOk(st1) && |st1[|st| - 1].stmts| == n + 1
        && st1[|st| - 1].stmts[..n] == st[|st| - 1].stmts && Translates(ss[k], st1[|st| - 1].stmts[n]) by {
        VisitStmtGrows(st, ss[k]);
      }
      assert VisitFrom(st, ss, k) == VisitFrom(st1, ss, k + 1);
      VisitFromTranslates(st1, ss, k + 1);
      TranslatesCons(ss, k, n, st[|st| - 1].stmts, st1[|st| - 1].stmts, VisitFrom(st, ss, k).value[|st| - 1].stmts);
    }
  }

  /** `ss[k..]` translates statement by statement into `top[n..]`. */
  predicate TranslatedFrom(ss: seq<PyAst.Stmt>, k: nat, top: seq<Tree.Stmt>, n: nat)
  {
    forall i :: k <= i < |ss| && 0 <= n + i - k < |top| ==> Translates(ss[i], top[n + i - k])
  }

  /** The step of `VisitFromTranslates`: one statement's translation in
      front of the rest's. */
  lemma TranslatesCons(ss: seq<PyAst.Stmt>, k: nat, n: nat, prefix: seq<Tree.Stmt>, top1: seq<Tree.Stmt>, top: seq<Tree.Stmt>)
    requires k < |ss|
    requires |top1| == n + 1 && top1[..n] == prefix && Translates(ss[k], top1[n])
    requires |top| == n + 1 + |ss| - (k + 1) && top[..n + 1] == top1
    requires TranslatedFrom(ss, k + 1, top, n + 1)
    ensures |top| == n + |ss| - k && top[..n] == prefix
    ensures TranslatedFrom(ss, k, top, n)
  {
    assert top[..n] == top1[..n];
    assert top[n] == top1[n];
  }

  /** A parsed program's root is lexical and records no locals; every
      statement in the tree carries its position as index; if, else and
      while bodies are not lexical and function bodies are; and the root
      translates the module: one statement per module statement, each
      with its instruction's contents and, at every depth, blocks that
      translate the corresponding bodies. */
  lemma ParsedTree(m: Module)
    requires ParseProgram(m).Ok?
    ensures var b := ParseProgram(m).value.block;
      b.lexical && b.locals == {} && WellIndexedBlock(b) && ShapedBlock(b)
    ensures TranslatesAll(m.body, ParseProgram(m).value.block)
  {
    var st0 := [EmptyBlock(true)];
    assert StackOk(st0);
    VisitFromKeeps(st0, m.body, 0);
    VisitFromTranslates(st0, m.body, 0);
  }

  /** The statement kinds the parser refuses, and the one it silently
      simplifies: an if needs an else block, a return needs a value,
      expression statements and every other kind are refused, and a
      while loop's else block is dropped. */
  lemma Rejections(st: Stack, l: int, t: Expr, body: seq<PyAst.Stmt>, o: seq<PyAst.Stmt>, e: Expr, k: UnsupportedKind)
    requires |st| > 0
    ensures VisitStmt(st, If(l, t, body, [])).Err?
    ensures VisitStmt(st, Return(l, None)) == Err(NotImplementedError)
    ensures VisitStmt(st, ExprStmt(l, e)) == Err(NotImplementedError)
    ensures VisitStmt(st, PyAst.Unsupported(l, k)) == Err(NotImplementedError)
    ensures VisitStmt(st, While(l, t, body, o)) == VisitStmt(st, While(l, t, body, []))
  {
  }

  /** When an assignment is accepted: one plain-name target, a lexical
      block to record it in, and either a call of a named function on
      call-free arguments or a call-free expression. Its name is then
      recorded in the innermost lexical block's locals unless that is the
      root. */
  lemma AssignAccepted(st: Stack, l: int, ts: seq<Expr>, v: Expr)
    requires |st| > 0
    ensures var r := AssignStep(st, l, ts, v);
      r.Ok? <==> (|ts| == 1 && ts[0].Name? && EnclosingLexical(st).Ok?
                  && if v.Call? then v.func.Name? && AllCallFree(v.args) else !ContainsCall(v))
    ensures var r := AssignStep(st, l, ts, v);
      r.Ok? ==> var j := EnclosingLexical(st).value;
        r.value[j].locals == st[j].locals + (if j != 0 then {ts[0].id} else {})
  {
  }

  /** Appending a statement changes no block's name sets. */
  lemma AppendKeepsNames(st: Stack, s: Tree.Stmt)
    requires |st| > 0
    ensures forall i :: 0 <= i < |st| ==>
      Append(st, s)[i].globals == st[i].globals && Append(st, s)[i].nonlocals == st[i].nonlocals
  {
  }

  /** A `global` statement is accepted exactly when there is a lexical
      block, and records its names there, the root included; the other
      blocks' names are untouched. */
  lemma GlobalsRecorded(st: Stack, l: int, names: seq<string>)
    requires |st| > 0
    ensures GlobalStep(st, l, names).Ok? <==> EnclosingLexical(st).Ok?
    ensures var r := GlobalStep(st, l, names);
      r.Ok? ==> var j := EnclosingLexical(st).value;
        r.value[j].globals == st[j].globals + (set n | n in names)
        && forall i :: 0 <= i < |st| && i != j ==> r.value[i].globals == st[i].globals
  {
    if EnclosingLexical(st).Ok? {
      var j := EnclosingLexical(st).value;
      var st1 := AddGlobals(st, names).value;
      var r := Append(st1, Simple(GlobalI(l, names), 0));
      AppendKeepsNames(st1, Simple(GlobalI(l, names), 0));
      assert GlobalStep(st, l, names) == Ok(r);
    }
  }

  /** The same for `nonlocal`. */
  lemma NonlocalsRecorded(st: Stack, l: int, names: seq<string>)
    requires |st| > 0
    ensures NonlocalStep(st, l, names).Ok? <==> EnclosingLexical(st).Ok?
    ensures var r := NonlocalStep(st, l, names);
      r.Ok? ==> var j := EnclosingLexical(st).value;
        r.value[j].nonlocals == st[j].nonlocals + (set n | n in names)
        && forall i :: 0 <= i < |st| && i != j ==> r.value[i].nonlocals == st[i].nonlocals
  {
    if EnclosingLexical(st).Ok? {
      var j := EnclosingLexical(st).value;
      var st1 := AddNonlocals(st, names).value;
      var r := Append(st1, Simple(NonlocalI(l, names), 0));
      AppendKeepsNames(st1, Simple(NonlocalI(l, names), 0));
      assert NonlocalStep(st, l, names) == Ok(r);
    }
  }

  // ---------------------------------------------------------------------
  // Which modules parse

  /** The statements the parser accepts, given a lexical root: the simple
      ones; an assignment to one plain name of a call of a named function
      on call-free arguments or of a call-free expression; an `if` with a
      call-free test and an else block; a `while` with a call-free test;
      a function definition; a `return` of a call-free value; and the
      bodies of the compound statements accepted throughout. */
  predicate Accepted(s: PyAst.Stmt)
    decreases s, 1
  {
    match s
    case Pass(_) => true
    case Break(_) => true
    case Continue(_) => true
    case Global(_, _) => true
    case Nonlocal(_, _) => true
    case Assign(_, ts, v) =>
      |ts| == 1 && ts[0].Name? && if v.Call? then v.func.Name? && AllCallFree(v.args) else !ContainsCall(v)
    case If(_, t, b, o) => !ContainsCall(t) && o != [] && AllAccepted(b) && AllAccepted(o)
    case While(_, t, b, _) => !ContainsCall(t) && AllAccepted(b)
    case FunctionDef(_, _, _, b, _) => AllAccepted(b)
    case Return(_, v) => v.Some? && !ContainsCall(v.value)
    case ExprStmt(_, _) => false
    case Unsupported(_, _) => false
  }

  predicate AllAccepted(ss: seq<PyAst.Stmt>)
    decreases ss, 0
  {
    forall i :: 0 <= i < |ss| ==> Accepted(ss[i])
  }

  /** A stack the visit can run on: well formed, with a lexical root. */
  predicate Rooted(st: Stack)
  {
    |st| > 0 && StackOk(st) && st[0].lexical
  }

  lemma {:induction false} IfAccepted(st: Stack, s: PyAst.Stmt)
    requires Rooted(st) && s.If?
    ensures IfStep(st, s).Ok? <==> Accepted(s)
    decreases s, 2
  {
    VisitIntoAccepted(st, s.body, false);
    if VisitInto(st, s.body, false).Ok? {
      VisitIntoKeeps(st, s.body, false);
      var st1 := VisitInto(st, s.body, false).value.0;
      VisitIntoAccepted(st1, s.orelse, false);
    }
  }

  lemma {:induction false} WhileAccepted(st: Stack, s: PyAst.Stmt)
    requires Rooted(st) && s.While?
    ensures WhileStep(st, s).Ok? <==> Accepted(s)
    decreases s, 2
  {
    VisitIntoAccepted(st, s.body, false);
  }

  lemma {:induction false} DefAccepted(st: Stack, s: PyAst.Stmt)
    requires Rooted(st) && s.FunctionDef?
    ensures DefStep(st, s).Ok? <==> Accepted(s)
    decreases s, 2
  {
    LocalKeeps(st, s.name);
    var st1 := AddLocal(st, s.name).value;
    VisitIntoAccepted(st1, s.body, true);
  }

  /** With a lexical root, a statement is visited without error exactly
      when it is accepted. */
  lemma {:induction false} StmtAccepted(st: Stack, s: PyAst.Stmt)
    requires Rooted(st)
    ensures VisitStmt(st, s).Ok? <==> Accepted(s)
    decreases s, 3
  {
    match s
    case Assign(l, ts, v) => AssignAccepted(st, l, ts, v);
    case If(_, _, _, _) => IfAccepted(st, s);
    case While(_, _, _, _) => WhileAccepted(st, s);
    case FunctionDef(_, _, _, _, _) => DefAccepted(st, s);
    case Nonlocal(l, names) => NonlocalsRecorded(st, l, names);
    case Global(l, names) => GlobalsRecorded(st, l, names);
    case _ =>
  }

  lemma {:induction false} VisitIntoAccepted(st: Stack, body: seq<PyAst.Stmt>, lexical: bool)
    requires Rooted(st)
    ensures VisitInto(st, body, lexical).Ok? <==> AllAccepted(body)
    decreases body, 2
  {
    var st0 := st + [EmptyBlock(lexical)];
    assert StackOk(st0);
    FromAccepted(st0, body, 0);
  }

  /** `ss[k..]` is visited without error exactly when each of its
      statements is accepted. */
  lemma {:induction false} FromAccepted(st: Stack, ss: seq<PyAst.Stmt>, k: nat)
    requires Rooted(st) && k <= |ss|
    ensures VisitFrom(st, ss, k).Ok? <==> forall i :: k <= i < |ss| ==> Accepted(ss[i])
    decreases ss, 1, |ss| - k
  {
    if k < |ss| {
      StmtAccepted(st, ss[k]);
      if VisitStmt(st, ss[k]).Ok? {
        VisitStmtGrows(st, ss[k]);
        FromAccepted(VisitStmt(st, ss[k]).value, ss, k + 1);
      }
    }
  }

  /** A module parses exactly when all its statements are accepted. */
  lemma ParsesIff(m: Module)
    ensures ParseProgram(m).Ok? <==> AllAccepted(m.body)
  {
    var st0 := [EmptyBlock(true)];
    assert StackOk(st0);
    FromAccepted(st0, m.body, 0);
  }

  // ---------------------------------------------------------------------
  // The visitor

  /** The method's outcome and the visitor's new stack are those of the
      stack transformation's result `r`. */
  predicate Follows(o: Outcome, r: Result<Stack>, st: Stack)
  {
    (o.Success? <==> r.Ok?) && (r.Ok? ==> st == r.value) && (r.Err? ==> o == Fail(r.error))
  }

  /** `Visitor`. After a failed visit the stack is left as the failing
      visit left it; nothing is stated about it. */
  class Visitor {
    var blockStack: Stack

    /** The stack starts with the lexical root block. */
    constructor()
      ensures blockStack == [EmptyBlock(true)]
    {
      blockStack := [EmptyBlock(true)];
    }

    method AddStatement(s: Tree.Stmt)
      requires |blockStack| > 0
      modifies this
      ensures blockStack == Append(old(blockStack), s)
    {
      var top := blockStack[|blockStack| - 1];
      blockStack := blockStack[|blockStack| - 1 := AddStmt(top, SetIdx(s, |top.stmts|))];
    }

    /** Scans the stack from the top down. */
    method EnclLexicalBlock() returns (r: Result<nat>)
      ensures r == EnclosingLexical(blockStack)
    {
      var i := |blockStack|;
      while i > 0
        invariant 0 <= i <= |blockStack|
        invariant forall j :: i <= j < |blockStack| ==> !blockStack[j].lexical
      {
        if blockStack[i - 1].lexical {
          return Ok(i - 1);
        }
        i := i - 1;
      }
      return Err(LookupError);
    }

    method UpdateLocals(x: string) returns (o: Outcome)
      modifies this
      ensures Follows(o, AddLocal(old(blockStack), x), blockStack)
    {
      var j := EnclLexicalBlock();
      if j.Err? {
        return Fail(j.error);
      }
      if j.value != 0 {
        var b := blockStack[j.value];
        blockStack := blockStack[j.value := b.(locals := b.locals + {x})];
      }
      return Success;
    }

    method VisitAssign(l: int, ts: seq<Expr>, v: Expr) returns (o: Outcome)
      requires |blockStack| > 0
      modifies this
      ensures Follows(o, AssignStep(old(blockStack), l, ts, v), blockStack)
    {
      if |ts| != 1 || !ts[0].Name? {
        return Fail(NotImplementedError);
      }
      var x := ts[0].id;
      o := UpdateLocals(x);
      if o.Fail? {
        return;
      }
      if v.Call? {
        if !v.func.Name? {
          return Fail(NotImplementedError);
        }
        var args := NewExpressions(v.args);
        if args.Err? {
          return Fail(args.error);
        }
        AddStatement(Simple(CallAssignI(l, x, v.func.id, args.value), 0));
      } else {
        var e := NewExpression(v);
        if e.Err? {
          return Fail(e.error);
        }
        AddStatement(Simple(ExprAssignI(l, x, e.value), 0));
      }
    }

    /** Push a fresh block, visit `body` into it, pop it. */
    method VisitNested(body: seq<PyAst.Stmt>, lexical: bool) returns (o: Outcome, b: Block)
      requires |blockStack| > 0
      modifies this
      ensures var r := VisitInto(old(blockStack), body, lexical);
        (o.Success? <==> r.Ok?) && (r.Ok? ==> blockStack == r.value.0 && b == r.value.1)
        && (r.Err? ==> o == Fail(r.error))
      decreases body, 2
    {
      blockStack := blockStack + [EmptyBlock(lexical)];
      o := VisitBody(body);
      if o.Fail? {
        return o, EmptyBlock(lexical);
      }
      b := blockStack[|blockStack| - 1];
      blockStack := blockStack[..|blockStack| - 1];
    }

    method VisitIf(s: PyAst.Stmt) returns (o: Outcome)
      requires |blockStack| > 0 && s.If?
      modifies this
      ensures Follows(o, IfStep(old(blockStack), s), blockStack)
      decreases s, 2
    {
      var e := NewExpression(s.test);
      if e.Err? {
        return Fail(e.error);
      }
      var ib;
      o, ib := VisitNested(s.body, false);
      if o.Fail? {
        return;
      }
      if s.orelse == [] {
        return Fail(ValueError);
      }
      var eb;
      o, eb := VisitNested(s.orelse, false);
      if o.Fail? {
        return;
      }
      AddStatement(IfStmt(IfI(s.line, e.value), ib, eb, 0));
    }

    method VisitWhile(s: PyAst.Stmt) returns (o: Outcome)
      requires |blockStack| > 0 && s.While?
      modifies this
      ensures Follows(o, WhileStep(old(blockStack), s), blockStack)
      decreases s, 2
    {
      var e := NewExpression(s.test);
      if e.Err? {
        return Fail(e.error);
      }
      var b;
      o, b := VisitNested(s.body, false);
      if o.Fail? {
        return;
      }
      AddStatement(WhileStmt(WhileI(s.line, e.value), b, 0));
    }

    method VisitFunctionDef(s: PyAst.Stmt) returns (o: Outcome)
      requires |blockStack| > 0 && s.FunctionDef?
      modifies this
      ensures Follows(o, DefStep(old(blockStack), s), blockStack)
      decreases s, 2
    {
      o := UpdateLocals(s.name);
      if o.Fail? {
        return;
      }
      var b;
      o, b := VisitNested(s.body, true);
      if o.Fail? {
        return;
      }
      AddStatement(DefStmt(DefI(s.line, s.name, s.params.args), b, 0));
    }

    method VisitReturn(l: int, v: Option<Expr>) returns (o: Outcome)
      requires |blockStack| > 0
      modifies this
      ensures Follows(o, ReturnStep(old(blockStack), l, v), blockStack)
    {
      if v.None? {
        return Fail(NotImplementedError);
      }
      var e := NewExpression(v.value);
      if e.Err? {
        return Fail(e.error);
      }
      AddStatement(Simple(RetI(l, e.value), 0));
      return Success;
    }

    method VisitNonlocal(l: int, names: seq<string>) returns (o: Outcome)
      requires |blockStack| > 0
      modifies this
      ensures Follows(o, NonlocalStep(old(blockStack), l, names), blockStack)
    {
      var j := EnclLexicalBlock();
      if j.Err? {
        return Fail(j.error);
      }
      var b := blockStack[j.value];
      blockStack := blockStack[j.value := b.(nonlocals := b.nonlocals + set n | n in names)];
      AddStatement(Simple(NonlocalI(l, names), 0));
      return Success;
    }

    method VisitGlobal(l: int, names: seq<string>) returns (o: Outcome)
      requires |blockStack| > 0
      modifies this
      ensures Follows(o, GlobalStep(old(blockStack), l, names), blockStack)
    {
      var j := EnclLexicalBlock();
      if j.Err? {
        return Fail(j.error);
      }
      var b := blockStack[j.value];
      blockStack := blockStack[j.value := b.(globals := b.globals + set n | n in names)];
      AddStatement(Simple(GlobalI(l, names), 0));
      return Success;
    }

    /** `visit(node)`: dispatch on the statement kind. */
    method Visit(s: PyAst.Stmt) returns (o: Outcome)
      requires |blockStack| > 0
      modifies this
      ensures Follows(o, VisitStmt(old(blockStack), s), blockStack)
      decreases s, 3
    {
      match s
      case Pass(l) =>
        AddStatement(Simple(PassI(l), 0));
        o := Success;
      case Break(l) =>
        AddStatement(Simple(BreakI(l), 0));
        o := Success;
      case Continue(l) =>
        AddStatement(Simple(ContinueI(l), 0));
        o := Success;
      case Assign(l, ts, v) => o := VisitAssign(l, ts, v);
      case If(_, _, _, _) => o := VisitIf(s);
      case While(_, _, _, _) => o := VisitWhile(s);
      case FunctionDef(_, _, _, _, _) => o := VisitFunctionDef(s);
      case Return(l, v) => o := VisitReturn(l, v);
      case Nonlocal(l, names) => o := VisitNonlocal(l, names);
      case Global(l, names) => o := VisitGlobal(l, names);
      case ExprStmt(_, _) => o := Fail(NotImplementedError);
      case Unsupported(_, _) => o := Fail(NotImplementedError);
    }

    /** Visit the statements in order, stopping at the first failure. */
    method VisitBody(ss: seq<PyAst.Stmt>) returns (o: Outcome)
      requires |blockStack| > 0
      modifies this
      ensures Follows(o, VisitFrom(old(blockStack), ss, 0), blockStack)
      decreases ss, 1
    {
      ghost var st0 := blockStack;
      var k := 0;
      while k < |ss|
        invariant 0 <= k <= |ss|
        invariant |blockStack| == |st0|
        invariant VisitFrom(st0, ss, 0) == VisitFrom(blockStack, ss, k)
      {
        o := Visit(ss[k]);
        if o.Fail? {
          return;
        }
        k := k + 1;
      }
      return Success;
    }

    /** `parse_pgm`: visit the module, then wrap the bottom block. */
    method ParsePgm(m: Module) returns (r: Result<Program>)
      requires |blockStack| > 0
      modifies this
      ensures r == ParseWith(old(blockStack), m)
    {
      var o := VisitBody(m.body);
      if o.Fail? {
        return Err(o.error);
      }
      return Ok(Program(blockStack[0]));
    }
  }

  /** `Visitor().parse_pgm(tree)`. */
  method Parse(m: Module) returns (r: Result<Program>)
    ensures r == ParseProgram(m)
  {
    var v := new Visitor();
    r := v.ParsePgm(m);
  }
}
