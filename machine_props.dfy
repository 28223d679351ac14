/** What one step of the machine keeps and changes: the invariant of
    configurations, the parent chain as the reversed call stack, the
    effect of a step on the stack depth, name resolution, comparison
    chains and the final state. */
module MachineProps {
  import opened Wrappers
  import opened PyAst
  import opened Expression
  import opened Instruction
  import opened Tree
  import opened Paths
  import opened Stf
  import opened Ctf
  import opened CtfProps
  import opened InstrMap
  import opened Values
  import opened Machine

  /** The shape of the configurations the machine reaches from `Init`:
      the global environment exists and starts the stack; every edge
      points from a newer environment to an older one; each context's
      environment is the child of the one below it. */
  predicate StackOk(c: Config)
  {
    GlobalEnvId in c.envs
    && Descending(c.edges)
    && (forall k :: k in c.edges ==> k in c.envs && c.edges[k] in c.envs)
    && GlobalEnvId !in c.edges
    && |c.stack| >= 1 && c.stack[0].envId == GlobalEnvId
    && (forall i :: 0 <= i < |c.stack| ==> c.stack[i].envId in c.envs)
    && (forall i :: 0 < i < |c.stack| ==>
          c.stack[i].envId in c.edges && c.edges[c.stack[i].envId] == c.stack[i - 1].envId)
  }

  /** Every context is at a mapped line, and every context below the top
      waits at a call. */
  predicate LinesOk(code: Code, c: Config)
    requires Mapped(code)
  {
    (forall i :: 0 <= i < |c.stack| ==> c.stack[i].line in code.instrs)
    && (forall i :: 0 <= i < |c.stack| - 1 ==>
          c.stack[i].line in code.instrs && InstrAt(code, c.stack[i].line).CallAssignI?)
  }

  /** Every table entry leads to a line of the instruction map. */
  predicate Closed(code: Code)
  {
    forall w, l :: l in Tab(code.tables, w) ==> Tab(code.tables, w)[l] in code.instrs
  }

  /** What a step needs of the code and keeps of the configuration. */
  predicate Shape(code: Code, c: Config)
  {
    Mapped(code) && Closed(code) && StackOk(c) && LinesOk(code, c)
  }

  ghost predicate Inv(code: Code, c: Config)
  {
    CodeOk(code) && Shape(code, c)
  }

  lemma CodeOkClosed(code: Code)
    requires CodeOk(code)
    ensures Mapped(code) && Closed(code)
  {
    InstrMapProps(code.root);
    TableTargetsMapped(code.root, code.tables, NextW);
    TableTargetsMapped(code.root, code.tables, TrueW);
    TableTargetsMapped(code.root, code.tables, FalseW);
    forall w, l | l in Tab(code.tables, w) ensures Tab(code.tables, w)[l] in code.instrs {
      if w.NextW? {} else if w.TrueW? {} else {}
    }
  }

  /** Every table entry leads to a line of the instruction map. */
  lemma TableTargetsMapped(root: Block, t: Tables, w: Which)
    requires CtfTables(Intended, root) == Ok(t)
    ensures forall l :: l in Tab(t, w) ==> Tab(t, w)[l] in InstrMapOf(root)
  {
    FoldValues(Intended, root, EmptyTables(), PathsIn(root, []), t, w);
    assert Tab(EmptyTables(), w) == map[] by { if w.NextW? {} else if w.TrueW? {} else {} }
    InstrMapProps(root);
    forall l | l in Tab(t, w) ensures Tab(t, w)[l] in InstrMapOf(root) {
      var p :| p in PathsIn(root, []) && HasRow(Intended, root, p, w) && FirstOf(root, p) == l
        && RowLine(root, p, w) == Ok(Tab(t, w)[l]);
      var target := ApplyStf(TransferOf(w), root, p).value;
      assert FirstOf(root, target) == Tab(t, w)[l];
    }
  }

  // ---------------------------------------------------------------------
  // The initial configuration

  /** `State(pgm)` succeeds exactly when the tables can be built and the
      program is not empty, and it starts in a configuration of `Inv` at
      the program's first line. */
  lemma InitInv(pgm: Program)
    ensures Init(pgm).Ok? <==> CtfTables(Intended, pgm.block).Ok? && |pgm.block.stmts| > 0
    ensures Init(pgm).Ok? ==> Inv(Init(pgm).value.0, Init(pgm).value.1)
    ensures Init(pgm).Ok? ==> Init(pgm).value.1.stack == [Context(First(pgm.block.stmts[0]), GlobalEnvId)]
  {
    if Init(pgm).Ok? {
      InstrMapProps(pgm.block);
      CodeOkClosed(Init(pgm).value.0);
      var p := StmtPath([], 0);
      assert ValidPath(pgm.block, p) && FirstOf(pgm.block, p) == First(pgm.block.stmts[0]);
    }
  }

  // ---------------------------------------------------------------------
  // Parent chain and the call stack

  /** The environment ids of a stack, innermost first. */
  function StackEnvs(s: seq<Context>): (r: seq<nat>)
    ensures |r| == |s|
  {
    seq(|s|, k requires 0 <= k < |s| => s[|s| - 1 - k].envId)
  }

  lemma StackEnvsLast(s: seq<Context>)
    requires |s| > 0
    ensures StackEnvs(s) == [s[|s| - 1].envId] + StackEnvs(s[..|s| - 1])
  {
    var a := StackEnvs(s);
    var b := [s[|s| - 1].envId] + StackEnvs(s[..|s| - 1]);
    assert |a| == |b|;
    forall k | 0 <= k < |a| ensures a[k] == b[k] {
      if k > 0 { assert b[k] == StackEnvs(s[..|s| - 1])[k - 1]; }
    }
  }

  lemma {:induction false} ChainOfPrefix(c: Config, n: nat)
    requires StackOk(c) && 1 <= n <= |c.stack|
    ensures ParentChainOf(c.edges, c.stack[n - 1].envId) == StackEnvs(c.stack[..n])
    decreases n
  {
    StackEnvsLast(c.stack[..n]);
    assert c.stack[..n][..n - 1] == c.stack[..n - 1];
    if n == 1 {
      assert c.stack[0].envId !in c.edges;
    } else {
      ChainOfPrefix(c, n - 1);
      assert c.stack[n - 1].envId in c.edges && c.edges[c.stack[n - 1].envId] == c.stack[n - 2].envId;
    }
  }

  /** `get_parent_chain` lists the environments of the call stack from the
      top down: the machine resolves names dynamically, through the
      callers' environments. */
  lemma ChainIsStack(c: Config)
    requires StackOk(c)
    ensures ParentChainOf(c.edges, Top(c).envId) == StackEnvs(c.stack)
  {
    ChainOfPrefix(c, |c.stack|);
    assert c.stack[..|c.stack|] == c.stack;
  }

  /** Which environments `lookup_env` searches for a name the current
      function declares neither global nor nonlocal, and for a nonlocal. */
  lemma LookupEnvSearch(code: Code, c: Config, x: string)
    requires Mapped(code) && StackOk(c) && Top(c).line in code.instrs
    requires ScopeOf(code, c).Ok? && ScopeOf(code, c).value != []
    requires x !in BlockAt(code.root, ScopeOf(code, c).value).value.globals
    ensures forall k :: 0 <= k < |StackEnvs(c.stack)| ==> StackEnvs(c.stack)[k] in c.envs
    ensures x !in BlockAt(code.root, ScopeOf(code, c).value).value.nonlocals ==>
      LookupEnv(code, c, x) == FirstHolding(c.envs, StackEnvs(c.stack), x)
    ensures x in BlockAt(code.root, ScopeOf(code, c).value).value.nonlocals ==>
      LookupEnv(code, c, x) ==
        if |c.stack| < 2 then Err(LookupError) else FirstHolding(c.envs, StackEnvs(c.stack[1..|c.stack| - 1]), x)
  {
    if |c.stack| >= 2 { StackEnvsMiddle(c.stack); }
    ChainIsStack(c);
    var chain := StackEnvs(c.stack);
    assert ParentChainOf(c.edges, Top(c).envId) == chain;
    forall k | 0 <= k < |chain| ensures chain[k] in c.envs {
      assert chain[k] == c.stack[|c.stack| - 1 - k].envId;
    }
  }

  /** The declared cases of `lookup_env`: a name declared both global and
      nonlocal in the scope is a ValueError; otherwise at top level, or
      for a name declared global, it is the global environment. */
  lemma LookupGlobal(code: Code, c: Config, x: string)
    requires Mapped(code) && StackOk(c) && Top(c).line in code.instrs && ScopeOf(code, c).Ok?
    ensures var blk := BlockAt(code.root, ScopeOf(code, c).value).value;
      x in blk.globals && x in blk.nonlocals ==> LookupEnv(code, c, x) == Err(ValueError)
    ensures var q := ScopeOf(code, c).value; var blk := BlockAt(code.root, q).value;
      !(x in blk.globals && x in blk.nonlocals) && (q == [] || x in blk.globals) ==>
        LookupEnv(code, c, x) == Ok(GlobalEnvId)
  {
    ChainIsStack(c);
    var chain := StackEnvs(c.stack);
    assert ParentChainOf(c.edges, Top(c).envId) == chain;
    forall k | 0 <= k < |chain| ensures chain[k] in c.envs {
      assert chain[k] == c.stack[|c.stack| - 1 - k].envId;
    }
  }

  /** Searching the environments of a stack from the top finds the
      innermost frame that binds the name, and fails only when none does. */
  lemma FirstHoldingStack(envs: map<nat, Env>, s: seq<Context>, x: string)
    requires forall i :: 0 <= i < |s| ==> s[i].envId in envs
    ensures forall k :: 0 <= k < |StackEnvs(s)| ==> StackEnvs(s)[k] in envs
    ensures FirstHolding(envs, StackEnvs(s), x).Ok? <==> exists i :: 0 <= i < |s| && x in envs[s[i].envId]
    ensures FirstHolding(envs, StackEnvs(s), x).Ok? ==> exists i :: (0 <= i < |s|
      && s[i].envId == FirstHolding(envs, StackEnvs(s), x).value
      && x in envs[s[i].envId] && forall j :: i < j < |s| ==> x !in envs[s[j].envId])
  {
    var chain := StackEnvs(s);
    var n := |s|;
    forall k | 0 <= k < n ensures chain[k] == s[n - 1 - k].envId && chain[k] in envs {}
    var r := FirstHolding(envs, chain, x);
    if r.Ok? {
      var k :| 0 <= k < n && chain[k] == r.value && x in envs[r.value]
        && forall j :: 0 <= j < k ==> x !in envs[chain[j]];
      var i := n - 1 - k;
      assert s[i].envId == r.value;
      forall j | i < j < n ensures x !in envs[s[j].envId] {
        assert chain[n - 1 - j] == s[j].envId;
      }
    } else {
      forall i | 0 <= i < n ensures x !in envs[s[i].envId] {
        assert chain[n - 1 - i] == s[i].envId;
      }
    }
  }

  /** The environments strictly between the top and the bottom of a
      stack, innermost first. */
  lemma StackEnvsMiddle(s: seq<Context>)
    requires |s| >= 2
    ensures StackEnvs(s)[1..|s| - 1] == StackEnvs(s[1..|s| - 1])
  {
    var a := StackEnvs(s)[1..|s| - 1];
    var b := StackEnvs(s[1..|s| - 1]);
    assert |a| == |b|;
    forall k | 0 <= k < |a| ensures a[k] == b[k] {
      assert a[k] == s[|s| - 2 - k].envId;
    }
  }

  /** A name the current function declares neither global nor nonlocal
      resolves to the innermost active frame that binds it, and the
      lookup fails exactly when no active frame does. */
  lemma LookupDynamic(code: Code, c: Config, x: string)
    requires Mapped(code) && StackOk(c) && Top(c).line in code.instrs
    requires ScopeOf(code, c).Ok? && ScopeOf(code, c).value != []
    requires x !in BlockAt(code.root, ScopeOf(code, c).value).value.globals
    requires x !in BlockAt(code.root, ScopeOf(code, c).value).value.nonlocals
    ensures LookupEnv(code, c, x).Ok? <==> exists i :: 0 <= i < |c.stack| && x in c.envs[c.stack[i].envId]
    ensures LookupEnv(code, c, x).Ok? ==> exists i :: (0 <= i < |c.stack| && c.stack[i].envId == LookupEnv(code, c, x).value
      && x in c.envs[c.stack[i].envId] && forall j :: i < j < |c.stack| ==> x !in c.envs[c.stack[j].envId])
    ensures LookupEnv(code, c, x).Err? ==> LookupEnv(code, c, x).error == LookupError
  {
    LookupEnvSearch(code, c, x);
    FirstHoldingStack(c.envs, c.stack, x);
  }

  /** A nonlocal resolves to the innermost binding frame strictly between
      the current frame and the global one. */
  lemma LookupNonlocal(code: Code, c: Config, x: string)
    requires Mapped(code) && StackOk(c) && Top(c).line in code.instrs
    requires ScopeOf(code, c).Ok? && ScopeOf(code, c).value != []
    requires x !in BlockAt(code.root, ScopeOf(code, c).value).value.globals
    requires x in BlockAt(code.root, ScopeOf(code, c).value).value.nonlocals
    ensures LookupEnv(code, c, x).Ok? <==> exists i :: 0 < i < |c.stack| - 1 && x in c.envs[c.stack[i].envId]
    ensures LookupEnv(code, c, x).Ok? ==> exists i :: (0 < i < |c.stack| - 1 && c.stack[i].envId == LookupEnv(code, c, x).value
      && x in c.envs[c.stack[i].envId] && forall j :: i < j < |c.stack| - 1 ==> x !in c.envs[c.stack[j].envId])
  {
    LookupEnvSearch(code, c, x);
    var n := |c.stack|;
    if n >= 2 {
      var mid := c.stack[1..n - 1];
      FirstHoldingStack(c.envs, mid, x);
      var r := FirstHolding(c.envs, StackEnvs(mid), x);
      if r.Ok? {
        var i :| 0 <= i < |mid| && mid[i].envId == r.value
          && x in c.envs[mid[i].envId] && forall j :: i < j < |mid| ==> x !in c.envs[mid[j].envId];
        assert mid[i] == c.stack[i + 1];
        forall j | i + 1 < j < n - 1 ensures x !in c.envs[c.stack[j].envId] {
          assert mid[j - 1] == c.stack[j];
        }
      }
      if exists i :: 0 < i < n - 1 && x in c.envs[c.stack[i].envId] {
        var i :| 0 < i < n - 1 && x in c.envs[c.stack[i].envId];
        assert mid[i - 1] == c.stack[i];
      }
    }
  }

  // ---------------------------------------------------------------------
  // One step keeps the invariant

  lemma SetVarShape(code: Code, c: Config, id: nat, x: string, v: Value)
    requires Shape(code, c) && id in c.envs
    ensures Shape(code, SetVar(c, id, x, v))
  {
  }

  lemma AdvanceShape(code: Code, c: Config, w: Which)
    requires Shape(code, c) && Advance(code, c, w).outcome.Success?
    ensures Shape(code, Advance(code, c, w).cfg) && |Advance(code, c, w).cfg.stack| == |c.stack|
  {
    var c' := Advance(code, c, w).cfg;
    assert forall i :: 0 <= i < |c.stack| - 1 ==> c'.stack[i] == c.stack[i];
  }

  lemma BindArgsShape(code: Code, c: Config, id: nat, formals: seq<string>, args: seq<Expression>, k: nat)
    requires Shape(code, c) && id in c.envs && |formals| == |args| && k <= |args|
    ensures Shape(code, BindArgs(code, c, id, formals, args, k).cfg)
    decreases |args| - k
  {
    if k < |args| {
      match Eval(code, c, args[k].node)
      case Err(_) =>
      case Ok(v) =>
        SetVarShape(code, c, id, formals[k], v);
        BindArgsShape(code, SetVar(c, id, formals[k], v), id, formals, args, k + 1);
    }
  }

  /** Adding or replacing an environment keeps the shape. */
  lemma PutEnvShape(code: Code, c: Config, id: nat, env: Env)
    requires Shape(code, c)
    ensures Shape(code, c.(envs := c.envs[id := env]))
  {
  }

  /** Linking a fresh environment below the caller's and pushing a context
      for it keeps the shape, provided the caller waits at a call. */
  lemma PushShape(code: Code, c: Config, id: nat, l: int)
    requires Shape(code, c) && id in c.envs && id !in c.edges && Top(c).envId < id
    requires l in code.instrs && InstrAt(code, Top(c).line).CallAssignI?
    ensures Shape(code, c.(edges := c.edges[id := Top(c).envId], stack := c.stack + [Context(l, id)]))
  {
    PushStackOk(c, id, l);
    PushLinesOk(code, c, id, l);
  }

  lemma PushStackOk(c: Config, id: nat, l: int)
    requires StackOk(c) && id in c.envs && id !in c.edges && Top(c).envId < id
    ensures StackOk(c.(edges := c.edges[id := Top(c).envId], stack := c.stack + [Context(l, id)]))
  {
    var c' := c.(edges := c.edges[id := Top(c).envId], stack := c.stack + [Context(l, id)]);
    assert forall i :: 0 <= i < |c.stack| ==> c'.stack[i] == c.stack[i];
    assert id != GlobalEnvId;
  }

  lemma PushLinesOk(code: Code, c: Config, id: nat, l: int)
    requires Mapped(code) && LinesOk(code, c) && |c.stack| > 0
    requires l in code.instrs && Top(c).line in code.instrs && InstrAt(code, Top(c).line).CallAssignI?
    ensures LinesOk(code, c.(edges := c.edges[id := Top(c).envId], stack := c.stack + [Context(l, id)]))
  {
    var c' := c.(edges := c.edges[id := Top(c).envId], stack := c.stack + [Context(l, id)]);
    assert forall i :: 0 <= i < |c.stack| ==> c'.stack[i] == c.stack[i];
  }

  lemma CallShape(code: Code, c: Config, callee: Result<Value>, id: nat, args: seq<Expression>)
    requires Shape(code, c) && InstrAt(code, Top(c).line).CallAssignI?
    requires id !in c.envs && Top(c).envId < id
    requires CallWith(code, c, callee, Ok(id), args).outcome.Success?
    ensures Shape(code, CallWith(code, c, callee, Ok(id), args).cfg)
    ensures |CallWith(code, c, callee, Ok(id), args).cfg.stack| == |c.stack| + 1
  {
    EnterShape(code, c, id, callee.value, args);
  }

  lemma EnterShape(code: Code, c: Config, id: nat, clo: Value, args: seq<Expression>)
    requires Shape(code, c) && InstrAt(code, Top(c).line).CallAssignI?
    requires clo.ClosureV? && |args| == |clo.formals| && id !in c.envs && Top(c).envId < id
    requires EnterCall(code, c, id, clo, args).outcome.Success?
    ensures Shape(code, EnterCall(code, c, id, clo, args).cfg)
    ensures |EnterCall(code, c, id, clo, args).cfg.stack| == |c.stack| + 1
  {
    BindPrep(code, c, id, clo.formals, args);
    var b := BindArgs(code, c.(envs := c.envs[id := map[]]), id, clo.formals, args, 0);
    assert Top(b.cfg) == Top(c);
    LinkShape(code, b.cfg, id, clo);
  }

  /** Binding the arguments into a fresh environment keeps the shape and
      leaves the stack and the edges as they were. */
  lemma BindPrep(code: Code, c: Config, id: nat, formals: seq<string>, args: seq<Expression>)
    requires Shape(code, c) && id !in c.envs && |formals| == |args|
    ensures var b := BindArgs(code, c.(envs := c.envs[id := map[]]), id, formals, args, 0);
      Shape(code, b.cfg) && id in b.cfg.envs && id !in b.cfg.edges
      && b.cfg.stack == c.stack && b.cfg.edges == c.edges
  {
    PutEnvShape(code, c, id, map[]);
    BindArgsShape(code, c.(envs := c.envs[id := map[]]), id, formals, args, 0);
  }

  lemma LinkShape(code: Code, c: Config, id: nat, clo: Value)
    requires Shape(code, c) && id in c.envs && id !in c.edges && clo.ClosureV? && Top(c).envId < id
    requires InstrAt(code, Top(c).line).CallAssignI? && Link(code, c, id, clo, Top(c).envId).outcome.Success?
    ensures Shape(code, Link(code, c, id, clo, Top(c).envId).cfg)
    ensures |Link(code, c, id, clo, Top(c).envId).cfg.stack| == |c.stack| + 1
  {
    var c3 := c.(envs := c.envs[id := Frame(c.envs[id], clo.formals,
      BlockAt(code.root, code.instrs[clo.line].block).value.locals)]);
    PutEnvShape(code, c, id, c3.envs[id]);
    PushShape(code, c3, id, clo.line);
  }

  lemma RetShape(code: Code, c: Config, e: Expr)
    requires Shape(code, c) && StepRet(code, c, e).outcome.Success?
    ensures Shape(code, StepRet(code, c, e).cfg)
    ensures |StepRet(code, c, e).cfg.stack| == |c.stack| - 1
  {
    var c1 := c.(stack := c.stack[..|c.stack| - 1]);
    assert |c1.stack| >= 1;
    PopShape(code, c);
    ReturnToShape(code, c1, Eval(code, c, e).value);
  }

  /** Popping the top context of a nested call keeps the shape. */
  lemma PopShape(code: Code, c: Config)
    requires Shape(code, c) && |c.stack| >= 2
    ensures Shape(code, c.(stack := c.stack[..|c.stack| - 1]))
  {
    var c1 := c.(stack := c.stack[..|c.stack| - 1]);
    assert forall i :: 0 <= i < |c1.stack| ==> c1.stack[i] == c.stack[i];
  }

  lemma ReturnToShape(code: Code, c: Config, v: Value)
    requires Shape(code, c) && ReturnTo(code, c, v).outcome.Success?
    ensures Shape(code, ReturnTo(code, c, v).cfg)
    ensures |ReturnTo(code, c, v).cfg.stack| == |c.stack|
  {
    var ci := InstrAt(code, Top(c).line);
    var id := LookupEnv(code, c, ci.target).value;
    SetVarShape(code, c, id, ci.target, v);
    AdvanceShape(code, SetVar(c, id, ci.target, v), NextW);
  }

  lemma ExprAssignShape(code: Code, c: Config, x: string, e: Expr)
    requires Shape(code, c) && StepExprAssign(code, c, x, e).outcome.Success?
    ensures Shape(code, StepExprAssign(code, c, x, e).cfg)
    ensures |StepExprAssign(code, c, x, e).cfg.stack| == |c.stack|
  {
    var id := LookupEnv(code, c, x).value;
    var v := Eval(code, c, e).value;
    SetVarShape(code, c, id, x, v);
    AdvanceShape(code, SetVar(c, id, x, v), NextW);
  }

  lemma BranchShape(code: Code, c: Config, e: Expr)
    requires Shape(code, c) && StepBranch(code, c, e).outcome.Success?
    ensures Shape(code, StepBranch(code, c, e).cfg)
    ensures |StepBranch(code, c, e).cfg.stack| == |c.stack|
  {
    AdvanceShape(code, c, if Truthy(Eval(code, c, e).value) then TrueW else FalseW);
  }

  lemma DefShape(code: Code, c: Config, body: Block, f: string, formals: seq<string>)
    requires Shape(code, c) && StepDef(code, c, body, f, formals).outcome.Success?
    ensures Shape(code, StepDef(code, c, body, f, formals).cfg)
    ensures |StepDef(code, c, body, f, formals).cfg.stack| == |c.stack|
  {
    var id := LookupEnv(code, c, f).value;
    var v := ClosureV(BlockFirst(body).value, formals);
    SetVarShape(code, c, id, f, v);
    AdvanceShape(code, SetVar(c, id, f, v), NextW);
  }

  lemma StepShape(code: Code, c: Config)
    requires Shape(code, c)
    ensures StepSpec(code, c).outcome.Success? ==>
      Shape(code, StepSpec(code, c).cfg)
      && |StepSpec(code, c).cfg.stack| == |c.stack| + Depth(InstrAt(code, Top(c).line))
  {
    StepAtShape(code, c, InstrAt(code, Top(c).line));
  }

  lemma StepAtShape(code: Code, c: Config, i: Instr)
    requires Shape(code, c) && i == InstrAt(code, Top(c).line)
    ensures StepAt(code, c, i).outcome.Success? ==>
      Shape(code, StepAt(code, c, i).cfg) && |StepAt(code, c, i).cfg.stack| == |c.stack| + Depth(i)
  {
    if StepAt(code, c, i).outcome.Success? {
      match i
      case PassI(_) => AdvanceShape(code, c, NextW);
      case BreakI(_) => AdvanceShape(code, c, NextW);
      case ContinueI(_) => AdvanceShape(code, c, NextW);
      case GlobalI(_, _) => AdvanceShape(code, c, NextW);
      case NonlocalI(_, _) => AdvanceShape(code, c, NextW);
      case ExprAssignI(_, x, e) => ExprAssignShape(code, c, x, e.node);
      case IfI(_, e) => BranchShape(code, c, e.node);
      case WhileI(_, e) => BranchShape(code, c, e.node);
      case DefI(_, f, formals) =>
        var s := StmtAt(code.root, code.instrs[Top(c).line]).value;
        DefShape(code, c, s.body, f, formals);
      case CallAssignI(_, _, f, args) =>
        var id := NewEnvId(c.envs).value;
        assert Top(c).envId in c.envs;
        CallShape(code, c, LookupVal(code, c, f), id, args);
      case RetI(_, e) => RetShape(code, c, e.node);
      case ElseI(_) =>
    }
  }

  /** A successful step keeps the invariant; a call pushes one context,
      a return pops one, every other instruction keeps the depth. */
  lemma StepInv(code: Code, c: Config)
    requires Inv(code, c)
    ensures StepSpec(code, c).outcome.Success? ==>
      Inv(code, StepSpec(code, c).cfg)
      && |StepSpec(code, c).cfg.stack| == |c.stack| + Depth(InstrAt(code, Top(c).line))
  {
    StepShape(code, c);
  }

  /** With one statement per line, the machine is final exactly at the
      line of the last top-level statement when that statement falls
      through and is not an if or a while. */
  lemma FinalIff(code: Code, c: Config)
    requires Inv(code, c) && UniqueLines(code.root) && WellIndexedBlock(code.root)
    ensures IsFinal(code, c) == Ok(FinalAt(code.root, Top(c).line))
  {
    IntendedFixpointIff(code.root, code.tables, Top(c).line);
  }

  // ---------------------------------------------------------------------
  // Comparison chains

  /** With every comparator evaluated (to `vs`) and every comparison
      defined, a chain `a op1 b op2 c ...` is true exactly when each
      adjacent pair compares true. */
  lemma {:induction false} ChainAll(code: Code, c: Config, left: Value, ops: seq<CmpOperator>, cs: seq<Expr>, vs: seq<Value>)
    requires Mapped(code) && Descending(c.edges)
    requires |vs| == if |ops| < |cs| then |ops| else |cs|
    requires forall k :: 0 <= k < |vs| ==> Eval(code, c, cs[k]) == Ok(vs[k])
    requires forall k :: 0 <= k < |vs| ==> EvalCmp(ops[k], ([left] + vs)[k], vs[k]).Ok?
    ensures EvalChain(code, c, left, ops, cs) ==
      Ok(BoolV(forall k :: 0 <= k < |vs| ==> EvalCmp(ops[k], ([left] + vs)[k], vs[k]).value))
    decreases cs
  {
    if vs != [] {
      assert ([left] + vs)[0] == left;
      if EvalCmp(ops[0], left, vs[0]).value {
        var vs' := vs[1..];
        ChainShift(code, c, left, ops, cs, vs);
        ChainAll(code, c, vs[0], ops[1..], cs[1..], vs');
        assert (forall k :: 0 <= k < |vs| ==> EvalCmp(ops[k], ([left] + vs)[k], vs[k]).value) <==>
               (forall k :: 0 <= k < |vs'| ==> EvalCmp(ops[1..][k], ([vs[0]] + vs')[k], vs'[k]).value) by {
          if forall k :: 0 <= k < |vs'| ==> EvalCmp(ops[1..][k], ([vs[0]] + vs')[k], vs'[k]).value {
            forall k | 0 <= k < |vs| ensures EvalCmp(ops[k], ([left] + vs)[k], vs[k]).value {
              if k > 0 { assert EvalCmp(ops[1..][k - 1], ([vs[0]] + vs')[k - 1], vs'[k - 1]).value; }
            }
          }
        }
      }
    }
  }

  /** Evaluation stops at the first pair that compares false: the chain
      is False whatever the later comparators would do. */
  lemma {:induction false} ChainStops(code: Code, c: Config, left: Value, ops: seq<CmpOperator>, cs: seq<Expr>, vs: seq<Value>)
    requires Mapped(code) && Descending(c.edges)
    requires 0 < |vs| <= |ops| && |vs| <= |cs|
    requires forall k :: 0 <= k < |vs| ==> Eval(code, c, cs[k]) == Ok(vs[k])
    requires forall k :: 0 <= k < |vs| - 1 ==> EvalCmp(ops[k], ([left] + vs)[k], vs[k]) == Ok(true)
    requires EvalCmp(ops[|vs| - 1], ([left] + vs)[|vs| - 1], vs[|vs| - 1]) == Ok(false)
    ensures EvalChain(code, c, left, ops, cs) == Ok(BoolV(false))
    decreases cs
  {
    assert ([left] + vs)[0] == left;
    assert Eval(code, c, cs[0]) == Ok(vs[0]);
    if |vs| > 1 {
      assert EvalCmp(ops[0], left, vs[0]) == Ok(true);
      assert EvalChain(code, c, left, ops, cs) == EvalChain(code, c, vs[0], ops[1..], cs[1..]);
      ChainShift(code, c, left, ops, cs, vs);
      ChainStops(code, c, vs[0], ops[1..], cs[1..], vs[1..]);
    }
  }

  /** The hypotheses about a chain, one comparison further on. */
  lemma ChainShift(code: Code, c: Config, left: Value, ops: seq<CmpOperator>, cs: seq<Expr>, vs: seq<Value>)
    requires Mapped(code) && Descending(c.edges)
    requires 0 < |vs| <= |ops| && |vs| <= |cs|
    requires forall k :: 0 <= k < |vs| ==> Eval(code, c, cs[k]) == Ok(vs[k])
    ensures forall k :: 0 <= k < |vs| - 1 ==> Eval(code, c, cs[1..][k]) == Ok(vs[1..][k])
    ensures forall k :: 0 <= k < |vs| - 1 ==>
      EvalCmp(ops[1..][k], ([vs[0]] + vs[1..])[k], vs[1..][k]) == EvalCmp(ops[k + 1], ([left] + vs)[k + 1], vs[k + 1])
  {
    var vs' := vs[1..];
    forall k | 0 <= k < |vs'| ensures Eval(code, c, cs[1..][k]) == Ok(vs'[k]) {
      assert cs[1..][k] == cs[k + 1];
    }
    forall k | 0 <= k < |vs'|
      ensures EvalCmp(ops[1..][k], ([vs[0]] + vs')[k], vs'[k]) == EvalCmp(ops[k + 1], ([left] + vs)[k + 1], vs[k + 1])
    {
      assert ([vs[0]] + vs')[k] == vs[k] == ([left] + vs)[k + 1];
    }
  }

  // ---------------------------------------------------------------------
  // The call frame

  /** As written, a formal that the body also assigns is overwritten by
      Bottom right after it is bound: in `def f(x): x = x + 1`, the call
      `f(1)` reaches `x + 1` with `x` bound to Bottom, and `Bottom + 1`
      is a `TypeError`. The intended
      frame keeps the argument. */
  lemma FrameAsWrittenLosesArgument()
    ensures FrameAsWritten(map["x" := IntV(1)], {"x"})["x"] == BottomV
    ensures EvalBinary(Add, FrameAsWritten(map["x" := IntV(1)], {"x"})["x"], IntV(1)) == Err(TypeError)
    ensures Frame(map["x" := IntV(1)], ["x"], {"x"})["x"] == IntV(1)
    ensures EvalBinary(Add, Frame(map["x" := IntV(1)], ["x"], {"x"})["x"], IntV(1)) == Ok(IntV(2))
  {
    assert "x" in ["x"];
  }
}
