/** simplipy/semantics/state.py as classes: the three mutable parts of a
    state (`LexicalMap`, `ParentChain`, `Continuation`) and `State`, whose
    methods update them in place. Each method is proved to do what the
    functions of module Machine say, so that the properties proved there
    (module MachineProps) hold of the objects. */
module StateMachine {
  import opened Wrappers
  import opened PyAst
  import opened Expression
  import opened Instruction
  import opened Tree
  import opened Paths
  import opened Ctf
  import opened CtfProps
  import opened InstrMap
  import opened Values
  import opened Machine
  import opened MachineProps

  /** A largest element of a set of ids is the one `MaxOf` names. */
  lemma MaxUnique(s: set<nat>, m: nat)
    requires s != {} && m in s && forall k :: k in s ==> k <= m
    ensures m == MaxOf(s)
  {
    var n := MaxOf(s);
    assert m <= n && n <= m;
  }

  lemma ChainUnfold(edges: map<nat, nat>, id: nat)
    requires Descending(edges) && id in edges
    ensures ParentChainOf(edges, id)[1..] == [edges[id]] + ParentChainOf(edges, edges[id])[1..]
  {
    var rest := ParentChainOf(edges, edges[id]);
    assert ParentChainOf(edges, id) == [id] + rest;
    assert rest == [rest[0]] + rest[1..];
  }

  /** Marking one more local: nothing changes for a formal, otherwise
      that local becomes Bottom. */
  lemma FrameGrow(env: Env, formals: seq<string>, done: set<string>, y: string)
    ensures Frame(env, formals, done + {y}) ==
      if y in formals then Frame(env, formals, done) else Frame(env, formals, done)[y := BottomV]
  {
  }

  /** `LexicalMap`: the environments by id. */
  class LexicalMap {
    var envs: map<nat, Env>

    /** Only the global environment, empty. */
    constructor ()
      ensures envs == map[GlobalEnvId := map[]]
    {
      envs := map[GlobalEnvId := map[]];
    }

    /** `create_new_env`: one more than the largest id (`max` raises
        ValueError when there is none), under which an empty environment
        is added; the other environments are unchanged. */
    method CreateNewEnv() returns (r: Result<nat>)
      modifies this
      ensures r == NewEnvId(old(envs))
      ensures r.Ok? ==> envs == old(envs)[r.value := map[]]
      ensures r.Err? ==> envs == old(envs)
    {
      if envs.Keys == {} {
        assert envs == map[];
        return Err(ValueError);
      }
      ghost var mx := MaxOf(envs.Keys);
      assert IsMax(mx, envs.Keys);
      var m: nat :| m in envs.Keys && forall k :: k in envs.Keys ==> k <= m;
      MaxUnique(envs.Keys, m);
      r := Ok(m + 1);
      envs := envs[m + 1 := map[]];
    }

    /** `env[var] = val` on the environment with id `id`. */
    method Assign(id: nat, x: string, v: Value)
      requires id in envs
      modifies this
      ensures envs == old(envs)[id := old(envs)[id][x := v]]
    {
      envs := envs[id := envs[id][x := v]];
    }
  }

  /** `ParentChain`: for each environment of a call, the caller's. */
  class ParentChain {
    var edges: map<nat, nat>

    constructor ()
      ensures edges == map[]
    {
      edges := map[];
    }

    /** `add_edge`. */
    method AddEdge(child: nat, parent: nat)
      modifies this
      ensures edges == old(edges)[child := parent]
    {
      edges := edges[child := parent];
    }
  }

  /** `Continuation`: the stack of contexts, innermost call last. */
  class Continuation {
    var stack: seq<Context>

    /** One context at the first line, in the global environment. */
    constructor (first: int)
      ensures stack == [Context(first, GlobalEnvId)]
    {
      stack := [Context(first, GlobalEnvId)];
    }

    /** `pop`: the last context, removed; IndexError on an empty stack. */
    method Pop() returns (r: Result<Context>)
      modifies this
      ensures old(stack) == [] ==> r == Err(IndexError) && stack == old(stack)
      ensures old(stack) != [] ==> r == Ok(old(stack)[|old(stack)| - 1]) && stack + [r.value] == old(stack)
    {
      if stack == [] {
        return Err(IndexError);
      }
      r := Ok(stack[|stack| - 1]);
      stack := stack[..|stack| - 1];
    }

    /** `push`. */
    method Push(ctx: Context)
      modifies this
      ensures stack == old(stack) + [ctx]
    {
      stack := stack + [ctx];
    }

    /** `self.k.top().lineno = l`: the top context moves to line `l` in
        the same environment. */
    method MoveTop(l: int)
      requires stack != []
      modifies this
      ensures stack == old(stack)[|old(stack)| - 1 := Context(l, old(stack)[|old(stack)| - 1].envId)]
    {
      stack := stack[|stack| - 1 := Context(l, stack[|stack| - 1].envId)];
    }
  }

  /** `State`: the program, its tables and instruction map, fixed once
      built, and the three parts a step changes. */
  class State {
    const root: Block
    const tables: Tables
    var instrMap: map<int, StmtPath>
    const e: LexicalMap
    const p: ParentChain
    const k: Continuation

    ghost function TheCode(): Code
      reads this
    {
      Code(root, tables, instrMap)
    }

    ghost function Cfg(): Config
      reads this, e, p, k
    {
      Config(e.envs, p.edges, k.stack)
    }

    /** The tables and map are those of the program and the
        configuration has the shape every step keeps. */
    ghost predicate Valid()
      reads this, e, p, k
    {
      Inv(TheCode(), Cfg())
    }

    /** `State.__init__` once `get_ctfs` and `pgm.block.first()` have
        given `t` and `first`. */
    constructor (pgm: Program, t: Tables, first: int)
      ensures root == pgm.block && tables == t && instrMap == InstrMapOf(pgm.block)
      ensures Cfg() == Config(map[GlobalEnvId := map[]], map[], [Context(first, GlobalEnvId)])
      ensures fresh(e) && fresh(p) && fresh(k)
    {
      root := pgm.block;
      tables := t;
      e := new LexicalMap();
      p := new ParentChain();
      k := new Continuation(first);
      instrMap := map[];
      new;
      PopulateInstrMap(pgm.block, []);
    }

    /** `_populate_instr_map(blk)` for the block at `q`: each statement's
        first instruction under its line, then the statement's sub-blocks. */
    method PopulateInstrMap(b: Block, q: BlockPath)
      requires BlockAt(root, q) == Some(b)
      modifies this
      ensures instrMap == FoldInstrs(old(instrMap), root, PathsIn(b, q))
      decreases b
    {
      ghost var m0 := instrMap;
      var i := 0;
      while i < |b.stmts|
        invariant 0 <= i <= |b.stmts|
        invariant FoldInstrs(m0, root, PathsIn(b, q)) == FoldInstrs(instrMap, root, PathsFrom(b, q, i))
      {
        var s := b.stmts[i];
        var ps := StmtPath(q, i);
        assert StmtAt(root, ps) == Some(s);
        assert PathsFrom(b, q, i) == [ps] + SubPaths(s, q, i) + PathsFrom(b, q, i + 1);
        FoldInstrsAppend(instrMap, root, [ps] + SubPaths(s, q, i), PathsFrom(b, q, i + 1));
        FoldInstrsAppend(instrMap, root, [ps], SubPaths(s, q, i));
        instrMap := instrMap[First(s) := ps];
        if s.IfStmt? {
          ChildParent(root, ps, IfBranch);
          ChildParent(root, ps, ElseBranch);
          var q1, q2 := q + [Paths.Step(i, IfBranch)], q + [Paths.Step(i, ElseBranch)];
          FoldInstrsAppend(instrMap, root, PathsIn(s.ifBlock, q1), PathsIn(s.elseBlock, q2));
          PopulateInstrMap(s.ifBlock, q1);
          PopulateInstrMap(s.elseBlock, q2);
        } else if s.WhileStmt? || s.DefStmt? {
          ChildParent(root, ps, BodyBranch);
          PopulateInstrMap(s.body, q + [Paths.Step(i, BodyBranch)]);
        }
        i := i + 1;
      }
    }

    /** `is_final`. */
    method IsFinal() returns (r: Result<bool>)
      ensures r == Machine.IsFinal(TheCode(), Cfg())
    {
      if k.stack == [] {
        return Err(IndexError);
      }
      var l := k.stack[|k.stack| - 1].line;
      r := Ok(l in tables.next && tables.next[l] == l);
    }

    /** `get_parent_chain`: from the top context's environment along the
        edges; it ends because every edge leads to a smaller id. */
    method GetParentChain() returns (r: Result<seq<nat>>)
      requires Descending(p.edges)
      ensures k.stack == [] ==> r == Err(IndexError)
      ensures k.stack != [] ==> r == Ok(ParentChainOf(p.edges, Top(Cfg()).envId))
    {
      if k.stack == [] {
        return Err(IndexError);
      }
      var edges := p.edges;
      var current := k.stack[|k.stack| - 1].envId;
      ghost var start := current;
      var result := [current];
      while current in edges
        invariant ParentChainOf(edges, start) == result + ParentChainOf(edges, current)[1..]
        decreases current
      {
        var parent := edges[current];
        ChainUnfold(edges, current);
        result := result + [parent];
        current := parent;
      }
      assert ParentChainOf(edges, current)[1..] == [];
      assert result + [] == result;
      r := Ok(result);
    }

    /** The `for env in envs` loops of `lookup_env`: the first of `ids`
        whose environment binds `x`. */
    method FirstEnvHolding(ids: seq<nat>, x: string) returns (r: Result<nat>)
      requires forall j :: 0 <= j < |ids| ==> ids[j] in e.envs
      ensures r == FirstHolding(e.envs, ids, x)
    {
      var j := 0;
      while j < |ids|
        invariant 0 <= j <= |ids|
        invariant FirstHolding(e.envs, ids, x) == FirstHolding(e.envs, ids[j..], x)
      {
        assert ids[j..][1..] == ids[j + 1..];
        if x in e.envs[ids[j]] {
          return Ok(ids[j]);
        }
        j := j + 1;
      }
      r := Err(LookupError);
    }

    /** The first loop of `lookup_env`: from the block of the top
        context's statement up to the nearest lexical block. */
    method EnclosingScope() returns (r: Result<BlockPath>)
      requires Mapped(TheCode()) && k.stack != [] && Top(Cfg()).line in instrMap
      ensures r == ScopeOf(TheCode(), Cfg())
    {
      var q := instrMap[k.stack[|k.stack| - 1].line].block;
      ghost var q0 := q;
      while !BlockAt(root, q).value.lexical
        invariant BlockAt(root, q).Some?
        invariant LexicalBlockOf(root, q) == LexicalBlockOf(root, q0)
        decreases |q|
      {
        if q == [] {
          return Err(AttributeError);
        }
        PrefixValid(root, q, |q| - 1);
        q := q[..|q| - 1];
      }
      r := Ok(q);
    }

    /** `[self.e.envs[env_id] for env_id in chain]`: KeyError unless
        every id of the chain has an environment. */
    method AllPresent(ids: seq<nat>) returns (ok: bool)
      ensures ok <==> forall j :: 0 <= j < |ids| ==> ids[j] in e.envs
    {
      var j := 0;
      while j < |ids|
        invariant 0 <= j <= |ids|
        invariant forall i :: 0 <= i < j ==> ids[i] in e.envs
      {
        if ids[j] !in e.envs {
          return false;
        }
        j := j + 1;
      }
      ok := true;
    }

    /** `lookup_env(var)`: the id of the environment an assignment to or
        a read of `x` uses at the top context. */
    method LookupEnv(x: string) returns (r: Result<nat>)
      requires Mapped(TheCode()) && Descending(p.edges)
      ensures r == Machine.LookupEnv(TheCode(), Cfg(), x)
    {
      if k.stack == [] {
        return Err(IndexError);
      }
      if k.stack[|k.stack| - 1].line !in instrMap {
        return Err(KeyError);
      }
      var scope := EnclosingScope();
      if scope.Err? {
        return Err(scope.error);
      }
      var q := scope.value;
      var chain := GetParentChain();
      var ids := chain.value;
      var present := AllPresent(ids);
      if !present {
        return Err(KeyError);
      }
      var blk := BlockAt(root, q).value;
      if x in blk.globals && x in blk.nonlocals {
        r := Err(ValueError);
      } else if q == [] || x in blk.globals {
        r := if GlobalEnvId in e.envs then Ok(GlobalEnvId) else Err(KeyError);
      } else if x in blk.nonlocals {
        r := FirstEnvHolding(if |ids| < 2 then [] else ids[1..|ids| - 1], x);
      } else {
        r := FirstEnvHolding(ids, x);
      }
    }

    /** `lookup_val(var)`. */
    method LookupVal(x: string) returns (r: Result<Value>)
      requires Mapped(TheCode()) && Descending(p.edges)
      ensures r == Machine.LookupVal(TheCode(), Cfg(), x)
    {
      var id := LookupEnv(x);
      if id.Err? {
        return Err(id.error);
      }
      if x !in e.envs[id.value] {
        return Err(KeyError);
      }
      r := Ok(e.envs[id.value][x]);
    }

    /** `eval_expr(expr)`, with its loop over a comparison chain. */
    method EvalExpr(expr: Expr) returns (r: Result<Value>)
      requires Mapped(TheCode()) && Descending(p.edges)
      ensures r == Eval(TheCode(), Cfg(), expr)
      decreases expr
    {
      match expr
      case Constant(c) =>
        r := Ok(ConstValue(c));
      case Name(x) =>
        r := LookupVal(x);
      case UnaryOp(op, x) =>
        var v := EvalExpr(x);
        if v.Err? {
          return v;
        }
        r := EvalUnary(op, v.value);
      case BinOp(l, op, rt) =>
        var a := EvalExpr(l);
        if a.Err? {
          return a;
        }
        var b := EvalExpr(rt);
        if b.Err? {
          return b;
        }
        r := EvalBinary(op, a.value, b.value);
      case Compare(l, ops, cs) =>
        var left := EvalExpr(l);
        if left.Err? {
          return left;
        }
        var cur := left.value;
        var j := 0;
        while j < |ops| && j < |cs|
          invariant 0 <= j <= |cs| && j <= |ops|
          invariant Eval(TheCode(), Cfg(), expr) == EvalChain(TheCode(), Cfg(), cur, ops[j..], cs[j..])
        {
          assert ops[j..][1..] == ops[j + 1..] && cs[j..][1..] == cs[j + 1..];
          var right := EvalExpr(cs[j]);
          if right.Err? {
            return right;
          }
          var holds := EvalCmp(ops[j], cur, right.value);
          if holds.Err? {
            return Err(holds.error);
          }
          if !holds.value {
            return Ok(BoolV(false));
          }
          cur := right.value;
          j := j + 1;
        }
        r := Ok(BoolV(true));
      case Call(_, _, _) =>
        r := Err(TypeError);
      case OtherExpr(_) =>
        r := Err(TypeError);
    }

    /** `self.k.top().lineno = self.ctfs[w][self.k.top().lineno]`;
        KeyError when the table has no row for the line. */
    method Advance(w: Which) returns (o: Outcome)
      requires k.stack != []
      modifies k
      ensures StepResult(Cfg(), o) == Machine.Advance(TheCode(), old(Cfg()), w)
    {
      var l := k.stack[|k.stack| - 1].line;
      var t := Tab(tables, w);
      if l !in t {
        return Fail(KeyError);
      }
      k.MoveTop(t[l]);
      o := Success;
    }

    /** The `ExprAssignInstr` branch of `step`. */
    method ExecExprAssign(x: string, ex: Expr) returns (o: Outcome)
      requires Mapped(TheCode()) && Descending(p.edges) && k.stack != []
      modifies e, k
      ensures StepResult(Cfg(), o) == StepExprAssign(TheCode(), old(Cfg()), x, ex)
    {
      var id := LookupEnv(x);
      if id.Err? {
        return Fail(id.error);
      }
      var v := EvalExpr(ex);
      if v.Err? {
        return Fail(v.error);
      }
      e.Assign(id.value, x, v.value);
      o := Advance(NextW);
    }

    /** The `IfInstr` / `WhileInstr` branch of `step`. */
    method ExecBranch(ex: Expr) returns (o: Outcome)
      requires Mapped(TheCode()) && Descending(p.edges) && k.stack != []
      modifies k
      ensures StepResult(Cfg(), o) == StepBranch(TheCode(), old(Cfg()), ex)
    {
      var v := EvalExpr(ex);
      if v.Err? {
        return Fail(v.error);
      }
      o := Advance(if Truthy(v.value) then TrueW else FalseW);
    }

    /** The `DefInstr` branch of `step`, `body` being the def's block. */
    method ExecDef(body: Block, f: string, formals: seq<string>) returns (o: Outcome)
      requires Mapped(TheCode()) && Descending(p.edges) && k.stack != []
      modifies e, k
      ensures StepResult(Cfg(), o) == StepDef(TheCode(), old(Cfg()), body, f, formals)
    {
      var l := BlockFirst(body);
      if l.Err? {
        return Fail(l.error);
      }
      var id := LookupEnv(f);
      if id.Err? {
        return Fail(id.error);
      }
      e.Assign(id.value, f, ClosureV(l.value, formals));
      o := Advance(NextW);
    }

    /** The `CallAssignInstr` branch of `step`: look the callee up. */
    method ExecCall(f: string, args: seq<Expression>) returns (o: Outcome)
      requires Mapped(TheCode()) && Descending(p.edges) && k.stack != []
      modifies e, p, k
      ensures StepResult(Cfg(), o) == StepCall(TheCode(), old(Cfg()), f, args)
    {
      var callee := LookupVal(f);
      o := CallClosure(callee, args);
    }

    /** The call once the callee is known: check it, create its
        environment, bind the arguments and enter it. */
    method CallClosure(callee: Result<Value>, args: seq<Expression>) returns (o: Outcome)
      requires Mapped(TheCode()) && Descending(p.edges) && k.stack != []
      modifies e, p, k
      ensures StepResult(Cfg(), o) == CallWith(TheCode(), old(Cfg()), callee, NewEnvId(old(e.envs)), args)
    {
      if callee.Err? {
        return Fail(callee.error);
      }
      var clo := callee.value;
      if !clo.ClosureV? {
        return Fail(ValueError);
      }
      if |args| != |clo.formals| {
        return Fail(TypeError);
      }
      o := EnterNewEnv(clo, args);
    }

    /** `create_new_env`, then the arguments and the entry into the callee. */
    method EnterNewEnv(clo: Value, args: seq<Expression>) returns (o: Outcome)
      requires Mapped(TheCode()) && Descending(p.edges) && k.stack != []
      requires clo.ClosureV? && |args| == |clo.formals|
      modifies e, p, k
      ensures var n := NewEnvId(old(e.envs));
        StepResult(Cfg(), o) ==
          if n.Err? then StepResult(old(Cfg()), Fail(n.error)) else EnterCall(TheCode(), old(Cfg()), n.value, clo, args)
    {
      ghost var c0 := Cfg();
      var id := e.CreateNewEnv();
      if id.Err? {
        return Fail(id.error);
      }
      o := EnterClosure(id.value, clo, args, c0);
    }

    /** The new environment `id` exists (empty) in what was `c`: bind
        the arguments, then enter the callee. */
    method EnterClosure(id: nat, clo: Value, args: seq<Expression>, ghost c: Config) returns (o: Outcome)
      requires Mapped(TheCode()) && Descending(c.edges) && |c.stack| > 0
      requires clo.ClosureV? && |args| == |clo.formals| && Cfg() == c.(envs := c.envs[id := map[]])
      modifies e, p, k
      ensures StepResult(Cfg(), o) == EnterCall(TheCode(), c, id, clo, args)
    {
      o := BindArguments(id, clo, args);
      o := LinkCall(o, id, clo);
    }

    /** The `zip(closure.formals, ...)` loop: each argument evaluated and
        bound in the new environment `id`, in order. */
    method BindArguments(id: nat, clo: Value, args: seq<Expression>) returns (o: Outcome)
      requires Mapped(TheCode()) && Descending(p.edges) && k.stack != []
      requires id in e.envs && clo.ClosureV? && |args| == |clo.formals|
      modifies e
      ensures id in e.envs
      ensures StepResult(Cfg(), o) == BindArgs(TheCode(), old(Cfg()), id, clo.formals, args, 0)
    {
      ghost var c0 := Cfg();
      var j := 0;
      while j < |args|
        invariant 0 <= j <= |args| && id in e.envs
        invariant BindArgs(TheCode(), c0, id, clo.formals, args, 0) == BindArgs(TheCode(), Cfg(), id, clo.formals, args, j)
      {
        var v := EvalExpr(args[j].node);
        if v.Err? {
          return Fail(v.error);
        }
        e.Assign(id, clo.formals[j], v.value);
        j := j + 1;
      }
      o := Success;
    }

    /** The rest of the call once the arguments are bound (`o` says
        whether they were): the callee's other locals become Bottom, the
        new environment is linked to the caller's and a context for the
        callee is pushed. */
    method LinkCall(o0: Outcome, id: nat, clo: Value) returns (o: Outcome)
      requires Mapped(TheCode()) && k.stack != [] && id in e.envs && clo.ClosureV?
      modifies e, p, k
      ensures o0.Fail? ==> o == o0 && Cfg() == old(Cfg())
      ensures o0.Success? ==> StepResult(Cfg(), o) == Link(TheCode(), old(Cfg()), id, clo, Top(old(Cfg())).envId)
    {
      if o0.Fail? {
        return o0;
      }
      if clo.line !in instrMap {
        return Fail(KeyError);
      }
      var locals := BlockAt(root, instrMap[clo.line].block).value.locals;
      ghost var env0 := e.envs[id];
      ghost var envs0 := e.envs;
      var rest := locals;
      assert Frame(env0, clo.formals, locals - rest) == env0;
      assert e.envs == envs0[id := env0];
      while rest != {}
        invariant rest <= locals && id in e.envs
        invariant e.envs == envs0[id := Frame(env0, clo.formals, locals - rest)]
        modifies e
        decreases rest
      {
        var y :| y in rest;
        FrameGrow(env0, clo.formals, locals - rest, y);
        assert locals - (rest - {y}) == (locals - rest) + {y};
        if y !in clo.formals {
          e.Assign(id, y, BottomV);
        }
        rest := rest - {y};
      }
      assert locals - rest == locals;
      p.AddEdge(id, k.stack[|k.stack| - 1].envId);
      k.Push(Context(clo.line, id));
      o := Success;
    }

    /** The `RetInstr` branch of `step`: evaluate in the callee, pop. */
    method ExecRet(ex: Expr) returns (o: Outcome)
      requires Mapped(TheCode()) && Descending(p.edges) && k.stack != []
      modifies e, k
      ensures StepResult(Cfg(), o) == StepRet(TheCode(), old(Cfg()), ex)
    {
      var v := EvalExpr(ex);
      if v.Err? {
        return Fail(v.error);
      }
      var _ := k.Pop();
      o := ReturnToCaller(v.value);
    }

    /** The rest of the `RetInstr` branch: assign `v` in the caller's
        scope to the target of its instruction and advance it. */
    method ReturnToCaller(v: Value) returns (o: Outcome)
      requires Mapped(TheCode()) && Descending(p.edges)
      modifies e, k
      ensures StepResult(Cfg(), o) == ReturnTo(TheCode(), old(Cfg()), v)
    {
      if k.stack == [] {
        return Fail(IndexError);
      }
      var l := k.stack[|k.stack| - 1].line;
      if l !in instrMap {
        return Fail(KeyError);
      }
      var ci := FirstInstr(StmtAt(root, instrMap[l]).value);
      if !ci.ExprAssignI? && !ci.CallAssignI? {
        return Fail(AttributeError);
      }
      var id := LookupEnv(ci.target);
      if id.Err? {
        return Fail(id.error);
      }
      e.Assign(id.value, ci.target, v);
      o := Advance(NextW);
    }

    /** `step`: run the instruction at the top context's line. From a
        state satisfying the invariant, a successful step keeps it, a
        call pushes one context and a return pops one. */
    method Step() returns (o: Outcome)
      requires Mapped(TheCode()) && Descending(p.edges)
      modifies e, p, k
      ensures StepResult(Cfg(), o) == StepSpec(TheCode(), old(Cfg()))
      ensures old(Valid()) && o.Success? ==> Valid()
      ensures old(Valid()) && o.Success? ==>
        |k.stack| == |old(k.stack)| + Depth(InstrAt(TheCode(), Top(old(Cfg())).line))
    {
      ghost var c0 := Cfg();
      if Valid() {
        StepInv(TheCode(), c0);
      }
      if k.stack == [] {
        return Fail(IndexError);
      }
      var line := k.stack[|k.stack| - 1].line;
      if line !in instrMap {
        return Fail(KeyError);
      }
      o := Execute(StmtAt(root, instrMap[line]).value);
    }

    /** The dispatch of `step` on the first instruction of `s`, the
        statement at the top line. */
    method Execute(s: Tree.Stmt) returns (o: Outcome)
      requires Mapped(TheCode()) && Descending(p.edges) && k.stack != [] && Top(Cfg()).line in instrMap
      requires s == StmtAt(root, instrMap[Top(Cfg()).line]).value
      modifies e, p, k
      ensures StepResult(Cfg(), o) == StepAt(TheCode(), old(Cfg()), FirstInstr(s))
    {
      match FirstInstr(s)
      case PassI(_) => o := Advance(NextW);
      case BreakI(_) => o := Advance(NextW);
      case ContinueI(_) => o := Advance(NextW);
      case GlobalI(_, _) => o := Advance(NextW);
      case NonlocalI(_, _) => o := Advance(NextW);
      case ExprAssignI(_, x, ex) => o := ExecExprAssign(x, ex.node);
      case IfI(_, ex) => o := ExecBranch(ex.node);
      case WhileI(_, ex) => o := ExecBranch(ex.node);
      case DefI(_, f, formals) =>
        if s.DefStmt? {
          o := ExecDef(s.body, f, formals);
        } else {
          o := Fail(AttributeError);
        }
      case CallAssignI(_, _, f, args) => o := ExecCall(f, args);
      case RetI(_, ex) => o := ExecRet(ex.node);
      case ElseI(_) => o := Success;
    }
  }

  /** `State(pgm)`: the tables (with the `next` rows the machine needs),
      the first line (IndexError for an empty program), then the objects
      and the instruction map. The new state satisfies the invariant. */
  method Create(pgm: Program) returns (r: Result<State>)
    ensures r.Ok? <==> Init(pgm).Ok?
    ensures r.Ok? ==> fresh(r.value) && fresh(r.value.e) && fresh(r.value.p) && fresh(r.value.k)
    ensures r.Ok? ==> (r.value.TheCode(), r.value.Cfg()) == Init(pgm).value && r.value.Valid()
  {
    var t := GetCtfs(Intended, pgm);
    if t.Err? {
      return Err(t.error);
    }
    var first := BlockFirst(pgm.block);
    if first.Err? {
      return Err(first.error);
    }
    var s := new State(pgm, t.value, first.value);
    InitInv(pgm);
    r := Ok(s);
  }
}
