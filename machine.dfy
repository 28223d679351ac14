/** simplipy/semantics/state.py as pure functions: the configuration of
    the abstract machine (environments, parent chain, continuation), the
    name resolution of `lookup_env`, `eval_expr`, and one `step`. The
    class `State` (module StateMachine) is proved to follow these
    functions. */
module Machine {
  import opened Wrappers
  import opened PyAst
  import opened Expression
  import opened Instruction
  import opened Tree
  import opened Paths
  import opened Ctf
  import opened CtfProps
  import opened InstrMap
  import opened Values

  /** `GLOBAL_ENV_ID`. */
  const GlobalEnvId: nat := 0

  type Env = map<string, Value>

  /** `Context`: the line of the instruction to run next and the
      environment it runs in. */
  datatype Context = Context(line: int, envId: nat)

  /** What `State` changes: `e.envs`, `p.edges` and `k.stack`. */
  datatype Config = Config(envs: map<nat, Env>, edges: map<nat, nat>, stack: seq<Context>)

  /** What `State` fixes at construction: the program, its tables and its
      instruction map. */
  datatype Code = Code(root: Block, tables: Tables, instrs: map<int, StmtPath>)

  datatype StepResult = StepResult(cfg: Config, outcome: Outcome)

  /** The code `State.__init__` builds from a program. The machine uses the
      tables with a `next` row for every def and for the last top-level
      statement (see `CtfProps.IntendedFixpointIff`). */
  predicate CodeOk(code: Code)
  {
    CtfTables(Intended, code.root) == Ok(code.tables)
    && code.instrs == InstrMapOf(code.root)
    && EntriesOk(code.instrs, code.root)
  }

  /** Every entry of the instruction map is a statement on its line. */
  predicate Mapped(code: Code)
  {
    EntriesOk(code.instrs, code.root)
  }

  /** Every edge leads to a smaller id, so following edges ends. */
  predicate Descending(edges: map<nat, nat>)
  {
    forall k :: k in edges ==> edges[k] < k
  }

  // ---------------------------------------------------------------------
  // Environments

  ghost predicate IsMax(m: nat, s: set<nat>)
  {
    m in s && forall k :: k in s ==> k <= m
  }

  /** `max(self.envs.keys())`. */
  ghost function MaxOf(s: set<nat>): (m: nat)
    requires s != {}
    ensures IsMax(m, s)
  {
    var x :| x in s;
    if s - {x} == {} then
      assert forall k :: k in s ==> k == x by {
        forall k | k in s ensures k == x { assert k !in s - {x}; }
      }
      x
    else
      var r := MaxOf(s - {x});
      assert forall k :: k in s ==> k == x || k in s - {x};
      if x > r then x else r
  }

  /** `get_parent_chain`: the environment ids from `id` up the edges. */
  function ParentChainOf(edges: map<nat, nat>, id: nat): (r: seq<nat>)
    requires Descending(edges)
    ensures |r| >= 1 && r[0] == id && r[|r| - 1] !in edges
    ensures forall k :: 0 <= k < |r| - 1 ==> r[k] in edges && edges[r[k]] == r[k + 1]
    decreases id
  {
    if id in edges then [id] + ParentChainOf(edges, edges[id]) else [id]
  }

  /** The `while not blk.lexical: blk = blk.parent.parent` walk: the
      nearest enclosing lexical block of the block at `q`, the block
      itself included; the non-lexical root has no parent
      (`AttributeError`). */
  function LexicalBlockOf(root: Block, q: BlockPath): (r: Result<BlockPath>)
    ensures r.Ok? ==> |r.value| <= |q| && r.value == q[..|r.value|]
    ensures r.Ok? ==> BlockAt(root, r.value).Some? && BlockAt(root, r.value).value.lexical
    ensures r.Ok? ==> forall k :: |r.value| < k <= |q| ==>
      BlockAt(root, q[..k]).Some? && !BlockAt(root, q[..k]).value.lexical
    ensures BlockAt(root, q).Some? && root.lexical ==> r.Ok?
    decreases |q|
  {
    match BlockAt(root, q)
    case None => Err(AttributeError)
    case Some(b) =>
      if b.lexical then
        assert q[..|q|] == q;
        Ok(q)
      else if q == [] then Err(AttributeError)
      else
        var q' := q[..|q| - 1];
        var r := LexicalBlockOf(root, q');
        if r.Ok? then
          assert forall k :: 0 <= k <= |q'| ==> q'[..k] == q[..k];
          assert q[..|q|] == q;
          r
        else r
  }

  /** The first of the environments `ids` that binds `x`. */
  function FirstHolding(envs: map<nat, Env>, ids: seq<nat>, x: string): (r: Result<nat>)
    requires forall k :: 0 <= k < |ids| ==> ids[k] in envs
    ensures r.Ok? ==> exists k :: (0 <= k < |ids| && ids[k] == r.value && x in envs[r.value]
                                   && forall j :: 0 <= j < k ==> x !in envs[ids[j]])
    ensures r.Err? ==> r.error == LookupError && forall k :: 0 <= k < |ids| ==> x !in envs[ids[k]]
  {
    if ids == [] then Err(LookupError)
    else if x in envs[ids[0]] then
      Ok(ids[0])
    else
      var r := FirstHolding(envs, ids[1..], x);
      if r.Ok? then
        var k :| 0 <= k < |ids[1..]| && ids[1..][k] == r.value && x in envs[r.value]
          && forall j :: 0 <= j < k ==> x !in envs[ids[1..][j]];
        assert ids[k + 1] == r.value;
        assert forall j :: 0 <= j < k + 1 ==> x !in envs[ids[j]] by {
          forall j | 0 <= j < k + 1 ensures x !in envs[ids[j]] {
            if j > 0 { assert ids[j] == ids[1..][j - 1]; }
          }
        }
        r
      else
        assert forall k :: 1 <= k < |ids| ==> ids[k] == ids[1..][k - 1];
        r
  }

  /** The top context, if any. */
  function Top(c: Config): Context
    requires |c.stack| > 0
  {
    c.stack[|c.stack| - 1]
  }

  /** The lexical block whose declarations govern names at the top
      context: the nearest lexical block around its instruction. */
  function ScopeOf(code: Code, c: Config): (r: Result<BlockPath>)
    requires Mapped(code) && |c.stack| > 0 && Top(c).line in code.instrs
    ensures r.Ok? ==> BlockAt(code.root, r.value).Some?
  {
    LexicalBlockOf(code.root, code.instrs[Top(c).line].block)
  }

  /** `lookup_env(var)`: the id of the environment a name resolves to from
      the top context. The block of the current instruction decides:
      global and nonlocal together are a `ValueError`; at top level or for
      a global the global environment; for a nonlocal the first binding
      environment strictly between the current one and the outermost;
      otherwise the first binding environment on the parent chain. */
  function LookupEnv(code: Code, c: Config, x: string): (r: Result<nat>)
    requires Mapped(code) && Descending(c.edges)
    ensures r.Ok? ==> r.value in c.envs
  {
    if |c.stack| == 0 then Err(IndexError)
    else if Top(c).line !in code.instrs then Err(KeyError)
    else
      var q :- ScopeOf(code, c);
      var blk := BlockAt(code.root, q).value;
      var chain := ParentChainOf(c.edges, Top(c).envId);
      if !(forall k :: 0 <= k < |chain| ==> chain[k] in c.envs) then Err(KeyError)
      else if x in blk.globals && x in blk.nonlocals then Err(ValueError)
      else if q == [] || x in blk.globals then
        if GlobalEnvId in c.envs then Ok(GlobalEnvId) else Err(KeyError)
      else if x in blk.nonlocals then FirstHolding(c.envs, if |chain| < 2 then [] else chain[1..|chain| - 1], x)
      else FirstHolding(c.envs, chain, x)
  }

  /** `lookup_val(var)`: the value bound in that environment; a global
      that was never assigned is a `KeyError`. */
  function LookupVal(code: Code, c: Config, x: string): (r: Result<Value>)
    requires Mapped(code) && Descending(c.edges)
    ensures r.Ok? <==> LookupEnv(code, c, x).Ok? && x in c.envs[LookupEnv(code, c, x).value]
    ensures r.Ok? ==> r.value == c.envs[LookupEnv(code, c, x).value][x]
  {
    var id :- LookupEnv(code, c, x);
    if x in c.envs[id] then Ok(c.envs[id][x]) else Err(KeyError)
  }

  function ConstValue(k: Const): Value
  {
    match k
    case IntC(i) => IntV(i)
    case BoolC(b) => BoolV(b)
    case NoneC => NoneV
  }

  /** `eval_expr`: constants, names, unary and binary operators and
      comparison chains; any other expression is a `TypeError`. */
  function Eval(code: Code, c: Config, e: Expr): (r: Result<Value>)
    requires Mapped(code) && Descending(c.edges)
    ensures r.Ok? && !e.Name? ==> r.value.IntV? || r.value.BoolV? || r.value.NoneV?
    ensures e.Compare? && r.Ok? ==> r.value.BoolV?
    decreases e
  {
    match e
    case Constant(k) => Ok(ConstValue(k))
    case Name(x) => LookupVal(code, c, x)
    case UnaryOp(op, x) =>
      var v :- Eval(code, c, x);
      EvalUnary(op, v)
    case BinOp(l, op, r) =>
      var a :- Eval(code, c, l);
      var b :- Eval(code, c, r);
      EvalBinary(op, a, b)
    case Compare(l, ops, cs) =>
      var a :- Eval(code, c, l);
      EvalChain(code, c, a, ops, cs)
    case Call(_, _, _) => Err(TypeError)
    case OtherExpr(_) => Err(TypeError)
  }

  /** The loop over `zip(ops, comparators)`: evaluate the next comparator,
      compare, stop with False at the first failed comparison. */
  function EvalChain(code: Code, c: Config, left: Value, ops: seq<CmpOperator>, cs: seq<Expr>): (r: Result<Value>)
    requires Mapped(code) && Descending(c.edges)
    ensures r.Ok? ==> r.value.BoolV?
    decreases cs
  {
    if ops == [] || cs == [] then Ok(BoolV(true))
    else
      var right :- Eval(code, c, cs[0]);
      var holds :- EvalCmp(ops[0], left, right);
      if !holds then Ok(BoolV(false)) else EvalChain(code, c, right, ops[1..], cs[1..])
  }

  // ---------------------------------------------------------------------
  // One step

  /** The statement the instruction map holds for a line, and its
      instruction. */
  function InstrAt(code: Code, l: int): Instr
    requires Mapped(code) && l in code.instrs
  {
    FirstInstr(StmtAt(code.root, code.instrs[l]).value)
  }

  /** `env[var] = val` on environment `id`. */
  function SetVar(c: Config, id: nat, x: string, v: Value): (r: Config)
    requires id in c.envs
    ensures r.envs.Keys == c.envs.Keys && r.edges == c.edges && r.stack == c.stack
    ensures r.envs[id] == c.envs[id][x := v]
    ensures forall k :: k in c.envs && k != id ==> r.envs[k] == c.envs[k]
  {
    c.(envs := c.envs[id := c.envs[id][x := v]])
  }

  /** `self.k.top().lineno = self.ctfs[w][self.k.top().lineno]`. */
  function Advance(code: Code, c: Config, w: Which): (r: StepResult)
    requires |c.stack| > 0
    ensures r.outcome.Success? <==> Top(c).line in Tab(code.tables, w)
    ensures r.cfg.envs == c.envs && r.cfg.edges == c.edges
    ensures r.outcome.Success? ==>
      r.cfg.stack == c.stack[|c.stack| - 1 := Context(Tab(code.tables, w)[Top(c).line], Top(c).envId)]
    ensures r.outcome.Fail? ==> r.cfg == c && r.outcome.error == KeyError
  {
    var l := Top(c).line;
    if l in Tab(code.tables, w) then
      StepResult(c.(stack := c.stack[|c.stack| - 1 := Context(Tab(code.tables, w)[l], Top(c).envId)]), Success)
    else StepResult(c, Fail(KeyError))
  }

  /** The frame of a new call, as written (state.py:124-125): every local
      of the callee's block becomes Bottom, formals included. */
  function FrameAsWritten(env: Env, locals: set<string>): (r: Env)
    ensures r.Keys == env.Keys + locals
    ensures forall y :: y in locals ==> r[y] == BottomV
    ensures forall y :: y in env && y !in locals ==> r[y] == env[y]
  {
    env + map y | y in locals :: BottomV
  }

  /** The frame of a new call as evidently intended: locals that are not
      formals become Bottom, the arguments bound to formals stay. */
  function Frame(env: Env, formals: seq<string>, locals: set<string>): (r: Env)
    ensures forall y :: y in r <==> y in env || (y in locals && y !in formals)
    ensures forall y :: y in locals && y !in formals ==> r[y] == BottomV
    ensures forall y :: y in env && (y in formals || y !in locals) ==> r[y] == env[y]
  {
    env + map y | y in locals && y !in formals :: BottomV
  }

  /** The `zip(closure.formals, map(self.eval_expr, ...))` loop from
      argument `k` on: each argument is evaluated in the current state and
      bound in environment `id`; the first error stops the loop with the
      bindings made so far. */
  function BindArgs(code: Code, c: Config, id: nat, formals: seq<string>, args: seq<Expression>, k: nat): (r: StepResult)
    requires Mapped(code) && Descending(c.edges) && id in c.envs
    requires |formals| == |args| && k <= |args|
    ensures r.cfg.envs.Keys == c.envs.Keys && r.cfg.edges == c.edges && r.cfg.stack == c.stack
    decreases |args| - k
  {
    if k == |args| then StepResult(c, Success)
    else
      match Eval(code, c, args[k].node)
      case Err(er) => StepResult(c, Fail(er))
      case Ok(v) => BindArgs(code, SetVar(c, id, formals[k], v), id, formals, args, k + 1)
  }

  /** An assignment binds the name, in the environment it resolves to,
      to the value of the expression, then moves to the `next` row. */
  function StepExprAssign(code: Code, c: Config, x: string, e: Expr): (r: StepResult)
    requires Mapped(code) && Descending(c.edges) && |c.stack| > 0
    ensures r.cfg.edges == c.edges && r.cfg.envs.Keys == c.envs.Keys && |r.cfg.stack| == |c.stack|
    ensures r.outcome.Success? ==>
      LookupEnv(code, c, x).Ok? && Eval(code, c, e).Ok?
      && x in r.cfg.envs[LookupEnv(code, c, x).value]
      && r.cfg.envs[LookupEnv(code, c, x).value][x] == Eval(code, c, e).value
      && Top(c).line in code.tables.next && Top(r.cfg) == Context(code.tables.next[Top(c).line], Top(c).envId)
  {
    match LookupEnv(code, c, x)
    case Err(er) => StepResult(c, Fail(er))
    case Ok(id) =>
      match Eval(code, c, e)
      case Err(er) => StepResult(c, Fail(er))
      case Ok(v) => Advance(code, SetVar(c, id, x, v), NextW)
  }

  /** An if or while header moves to its `true` row when the test's
      value is truthy and to its `false` row otherwise. */
  function StepBranch(code: Code, c: Config, e: Expr): (r: StepResult)
    requires Mapped(code) && Descending(c.edges) && |c.stack| > 0
    ensures r.cfg.envs == c.envs && r.cfg.edges == c.edges && |r.cfg.stack| == |c.stack|
    ensures r.outcome.Success? ==> (Eval(code, c, e).Ok? &&
      var w := if Truthy(Eval(code, c, e).value) then TrueW else FalseW;
      Top(c).line in Tab(code.tables, w) && Top(r.cfg) == Context(Tab(code.tables, w)[Top(c).line], Top(c).envId))
  {
    match Eval(code, c, e)
    case Err(er) => StepResult(c, Fail(er))
    case Ok(v) => Advance(code, c, if Truthy(v) then TrueW else FalseW)
  }

  /** A def binds its name to a closure of the body's first line and the
      formals. */
  function StepDef(code: Code, c: Config, body: Block, f: string, formals: seq<string>): (r: StepResult)
    requires Mapped(code) && Descending(c.edges) && |c.stack| > 0
    ensures r.cfg.edges == c.edges && r.cfg.envs.Keys == c.envs.Keys && |r.cfg.stack| == |c.stack|
    ensures r.outcome.Success? ==>
      body.stmts != [] && LookupEnv(code, c, f).Ok?
      && f in r.cfg.envs[LookupEnv(code, c, f).value]
      && r.cfg.envs[LookupEnv(code, c, f).value][f] == ClosureV(First(body.stmts[0]), formals)
  {
    match BlockFirst(body)
    case Err(er) => StepResult(c, Fail(er))
    case Ok(l) =>
      match LookupEnv(code, c, f)
      case Err(er) => StepResult(c, Fail(er))
      case Ok(id) => Advance(code, SetVar(c, id, f, ClosureV(l, formals)), NextW)
  }

  /** A call: look the callee up and check that it is a closure taking
      as many arguments as given. */
  ghost function StepCall(code: Code, c: Config, f: string, args: seq<Expression>): (r: StepResult)
    requires Mapped(code) && Descending(c.edges) && |c.stack| > 0
    ensures LookupVal(code, c, f).Ok? && !LookupVal(code, c, f).value.ClosureV? ==> r.outcome == Fail(ValueError)
    ensures (LookupVal(code, c, f).Ok? && LookupVal(code, c, f).value.ClosureV?
      && |args| != |LookupVal(code, c, f).value.formals|) ==> r.outcome == Fail(TypeError)
    ensures r.outcome.Success? ==> |r.cfg.stack| == |c.stack| + 1 && c.envs.Keys < r.cfg.envs.Keys
  {
    CallWith(code, c, LookupVal(code, c, f), NewEnvId(c.envs), args)
  }

  /** `LexicalMap.create_new_env`'s choice of id: one more than the
      largest id in use; `max` of no ids raises ValueError. */
  ghost function NewEnvId(envs: map<nat, Env>): (r: Result<nat>)
    ensures r.Ok? <==> envs != map[]
    ensures r.Err? ==> r.error == ValueError
    ensures r.Ok? ==> r.value !in envs && forall k :: k in envs ==> k < r.value
    ensures r.Ok? ==> r.value >= 1 && r.value - 1 in envs
  {
    if envs.Keys == {} then
      assert envs == map[];
      Err(ValueError)
    else
      assert envs != map[];
      Ok(MaxOf(envs.Keys) + 1)
  }

  /** The call once the callee's name has been looked up (to `callee`)
      and a fresh environment id drawn (`newId`). */
  function CallWith(code: Code, c: Config, callee: Result<Value>, newId: Result<nat>, args: seq<Expression>): (r: StepResult)
    requires Mapped(code) && Descending(c.edges) && |c.stack| > 0
    ensures r.outcome.Success? ==>
      callee.Ok? && callee.value.ClosureV? && |args| == |callee.value.formals| && newId.Ok?
      && r == EnterCall(code, c, newId.value, callee.value, args)
  {
    match callee
    case Err(er) => StepResult(c, Fail(er))
    case Ok(clo) =>
      if !clo.ClosureV? then StepResult(c, Fail(ValueError))
      else if |args| != |clo.formals| then StepResult(c, Fail(TypeError))
      else if newId.Err? then StepResult(c, Fail(newId.error))
      else EnterCall(code, c, newId.value, clo, args)
  }

  /** Create the fresh environment `id` (one more than the largest id)
      and bind the arguments in it. */
  function EnterCall(code: Code, c: Config, id: nat, clo: Value, args: seq<Expression>): (r: StepResult)
    requires Mapped(code) && Descending(c.edges) && |c.stack| > 0
    requires clo.ClosureV? && |args| == |clo.formals|
    ensures var b := BindArgs(code, c.(envs := c.envs[id := map[]]), id, clo.formals, args, 0);
      r.outcome.Success? ==> b.outcome.Success? && r == Link(code, b.cfg, id, clo, Top(c).envId)
  {
    var b := BindArgs(code, c.(envs := c.envs[id := map[]]), id, clo.formals, args, 0);
    if b.outcome.Fail? then b else Link(code, b.cfg, id, clo, Top(c).envId)
  }

  /** Bind the callee's locals to Bottom, link the new environment to
      the caller's and push a context at the callee's first line. */
  function Link(code: Code, c: Config, id: nat, clo: Value, caller: nat): (r: StepResult)
    requires Mapped(code) && id in c.envs && clo.ClosureV?
    ensures r.outcome.Success? <==> clo.line in code.instrs
    ensures r.outcome.Fail? ==> r.cfg == c && r.outcome.error == KeyError
    ensures r.outcome.Success? ==>
      r.cfg.envs.Keys == c.envs.Keys && r.cfg.edges == c.edges[id := caller]
      && r.cfg.stack == c.stack + [Context(clo.line, id)]
      && (forall k :: k in c.envs && k != id ==> r.cfg.envs[k] == c.envs[k])
  {
    if clo.line !in code.instrs then StepResult(c, Fail(KeyError))
    else
      var locals := BlockAt(code.root, code.instrs[clo.line].block).value.locals;
      var c' := c.(envs := c.envs[id := Frame(c.envs[id], clo.formals, locals)]);
      StepResult(c'.(edges := c'.edges[id := caller], stack := c'.stack + [Context(clo.line, id)]), Success)
  }

  /** A return: evaluate in the callee, pop, and assign the value to the
      target of the caller's instruction, which must have one. */
  function StepRet(code: Code, c: Config, e: Expr): (r: StepResult)
    requires Mapped(code) && Descending(c.edges) && |c.stack| > 0
    ensures r.outcome.Success? ==>
      Eval(code, c, e).Ok? && |r.cfg.stack| == |c.stack| - 1
      && r.cfg.edges == c.edges && r.cfg.envs.Keys == c.envs.Keys
  {
    match Eval(code, c, e)
    case Err(er) => StepResult(c, Fail(er))
    case Ok(v) => ReturnTo(code, c.(stack := c.stack[..|c.stack| - 1]), v)
  }

  /** After the pop: assign `v` to the target of the caller's
      instruction, which must have one, and advance the caller. */
  function ReturnTo(code: Code, c: Config, v: Value): (r: StepResult)
    requires Mapped(code) && Descending(c.edges)
    ensures r.cfg.edges == c.edges && r.cfg.envs.Keys == c.envs.Keys && |r.cfg.stack| == |c.stack|
    ensures r.outcome.Success? ==>
      |c.stack| > 0 && Top(c).line in code.instrs
      && var ci := InstrAt(code, Top(c).line);
      (ci.ExprAssignI? || ci.CallAssignI?) && LookupEnv(code, c, ci.target).Ok?
      && ci.target in r.cfg.envs[LookupEnv(code, c, ci.target).value]
      && r.cfg.envs[LookupEnv(code, c, ci.target).value][ci.target] == v
  {
    if |c.stack| == 0 then StepResult(c, Fail(IndexError))
    else if Top(c).line !in code.instrs then StepResult(c, Fail(KeyError))
    else
      var ci := InstrAt(code, Top(c).line);
      if !ci.ExprAssignI? && !ci.CallAssignI? then StepResult(c, Fail(AttributeError))
      else
        match LookupEnv(code, c, ci.target)
        case Err(er) => StepResult(c, Fail(er))
        case Ok(id) => Advance(code, SetVar(c, id, ci.target, v), NextW)
  }

  /** `State.step`: run the instruction at the top context's line. The
      configuration returned with a failure is the one the source leaves
      behind when it raises. */
  ghost function StepSpec(code: Code, c: Config): (r: StepResult)
    requires Mapped(code) && Descending(c.edges)
    ensures r.outcome.Success? ==>
      |c.stack| > 0 && Top(c).line in code.instrs
      && |r.cfg.stack| == |c.stack| + Depth(InstrAt(code, Top(c).line))
  {
    if |c.stack| == 0 then StepResult(c, Fail(IndexError))
    else if Top(c).line !in code.instrs then StepResult(c, Fail(KeyError))
    else StepAt(code, c, InstrAt(code, Top(c).line))
  }

  /** How a successful step changes the depth of the call stack. */
  function Depth(i: Instr): int
  {
    if i.CallAssignI? then 1 else if i.RetI? then -1 else 0
  }

  /** The step once the instruction `i` at the top line has been fetched:
      a call pushes one context, a return pops one, every other
      instruction keeps the depth; an `ElseI`, which no branch of `step`
      handles, changes nothing. */
  ghost function StepAt(code: Code, c: Config, i: Instr): (r: StepResult)
    requires Mapped(code) && Descending(c.edges) && |c.stack| > 0 && Top(c).line in code.instrs
    ensures r.outcome.Success? ==> |r.cfg.stack| == |c.stack| + Depth(i)
    ensures i.ElseI? ==> r == StepResult(c, Success)
  {
    var p := code.instrs[Top(c).line];
    match i
    case PassI(_) => Advance(code, c, NextW)
    case BreakI(_) => Advance(code, c, NextW)
    case ContinueI(_) => Advance(code, c, NextW)
    case GlobalI(_, _) => Advance(code, c, NextW)
    case NonlocalI(_, _) => Advance(code, c, NextW)
    case ExprAssignI(_, x, e) => StepExprAssign(code, c, x, e.node)
    case IfI(_, e) => StepBranch(code, c, e.node)
    case WhileI(_, e) => StepBranch(code, c, e.node)
    case DefI(_, f, formals) =>
      var s := StmtAt(code.root, p).value;
      if s.DefStmt? then StepDef(code, c, s.body, f, formals)
      else StepResult(c, Fail(AttributeError))
    case CallAssignI(_, _, f, args) => StepCall(code, c, f, args)
    case RetI(_, e) => StepRet(code, c, e.node)
    case ElseI(_) => StepResult(c, Success)
  }

  /** `is_final`: the top line is a fixed point of the `next` table. */
  function IsFinal(code: Code, c: Config): (r: Result<bool>)
    ensures r.Err? <==> |c.stack| == 0
    ensures r.Err? ==> r.error == IndexError
    ensures r == Ok(true) ==> Advance(code, c, NextW) == StepResult(c, Success)
  {
    if |c.stack| == 0 then Err(IndexError)
    else Ok(Top(c).line in code.tables.next && code.tables.next[Top(c).line] == Top(c).line)
  }

  /** `State.__init__`: the tables (which may raise), the global
      environment alone, no edges, one context at the program's first line
      (`IndexError` for an empty program), and the instruction map. */
  function Init(pgm: Program): (r: Result<(Code, Config)>)
    ensures r.Ok? <==> CtfTables(Intended, pgm.block).Ok? && pgm.block.stmts != []
    ensures r.Ok? ==> (r.value.1.stack == [Context(First(pgm.block.stmts[0]), GlobalEnvId)]
      && r.value.1.envs == map[GlobalEnvId := map[]] && r.value.1.edges == map[]
      && r.value.0.root == pgm.block && r.value.0.instrs == InstrMapOf(pgm.block))
  {
    var t :- CtfTables(Intended, pgm.block);
    var l :- BlockFirst(pgm.block);
    Ok((Code(pgm.block, t, InstrMapOf(pgm.block)), Config(map[GlobalEnvId := map[]], map[], [Context(l, GlobalEnvId)])))
  }
}
