# SimpliPy in Dafny

SimpliPy runs a small subset of Python on an abstract machine. This
project models its core and proves properties of the model.

- **Parser.** The parser (`simplipy/parse`) turns a Python module into a
  program tree.
  - A block is a list of statements. A statement wraps one instruction,
    or an `if`/`while`/`def` header and its sub-blocks.
  - Blocks record the names assigned in them (`locals`), and the names
    declared `global` and `nonlocal`.
  - Function bodies and the root are *lexical* blocks. `if`, `else` and
    `while` bodies are not.
- **Control transfer functions.** These (`simplipy/ctf`) say which
  statement follows a statement (`next`), and where a test that holds
  (`true`) or fails (`false`) jumps. `get_ctfs` tabulates them by line
  number.
- **Machine.** The machine (`simplipy/semantics/state.py`) runs the
  program line by line. Its state has three parts:
  - a map from environment ids to environments;
  - a parent chain linking each call's environment to its caller's;
  - a stack of contexts (line, environment).

  Name resolution follows `global` and `nonlocal` declarations. Otherwise
  it is dynamic, through the environments of the active calls.
- **Simplifier.** The simplifier (`simplipy/simplify/simplify.py`)
  rewrites ordinary Python into the subset the parser accepts:
  - calls nested in expressions are hoisted into assignments to
    temporaries `_simplipy_temp_N`;
  - an `if` gets `else: pass`;
  - loop bodies end in `continue`;
  - function bodies end in `return`;
  - everything else outside the subset is refused.

## How the model is organised

- **Shared datatypes.**
  - `PyAst` is the part of Python's `ast` the parser and the simplifier
    read.
  - `Instruction`, `Tree` and `Expression` are the program tree.
  - `Paths` replaces the tree's parent references with paths from the
    root.
- **Pure code becomes functions and lemmas.**
  - `Stf` and `Helper` are the statement transfer functions and `encl`.
  - `Ctf` holds `construct_ctf` and `get_ctfs`. `CtfProps` proves what
    the `get_ctfs` tables contain.
  - `HoistProps` proves what the call hoisting of the simplifier
    produces, against an independent count of the calls and a
    substitution that puts the hoisted calls back.
- **Code that updates objects becomes classes** whose methods are proved
  equal to functions on values:
  - `Parse.Visitor`, with the stack of blocks it builds;
  - `StateMachine.LexicalMap`, `ParentChain`, `Continuation` and `State`;
  - `Simplify.ExpressionTransformer` and `Simplify.SimplipyConverter`,
    with their counters and lists of hoisted assignments.
- **The machine.** `Machine` is the machine as functions on
  configurations. `MachineProps` proves its invariant and its name
  resolution. `Values` holds Python's integer and boolean operators.
- **The two halves together.** `Pipeline` proves that the simplifier's
  output is a module the parser accepts, for every input module whose
  calls all name their callee (`f(x)`, not `g()(x)` or `o.m(x)`) and
  that the simplifier does not refuse.

Every operation that can fail returns a `Result` or an `Outcome`. Its
error names the Python exception the source raises.

## Model

| member | source | states |
|---|---|---|
| Expression.Validate | simplipy/parse/expression.py:8-12 | fails, with AssertionError, exactly when some node below the expression is a call |
| Expression.NewExpression | simplipy/parse/expression.py:4-6 | an `Expression` is built exactly when the node holds no call, and it keeps the node |
| Expression.NewExpressions | simplipy/parse/parse.py:81 | a list of arguments is wrapped exactly when none of them holds a call; each wrapper keeps its node, in order |
| Expression.WalkFindsCallIff | simplipy/parse/expression.py:9-11 | walking the nodes of an expression finds a call exactly when the expression contains one |
| Expression.WalkAllFindsCallIff | simplipy/parse/expression.py:9-11 | the same for a list of expressions: a call is found exactly when one of them contains a call |
| Expression.HasCallNodeAppend | simplipy/parse/expression.py:9-11 | a concatenation of walks has a call node exactly when one of its parts has |
| Tree.FirstInstr | simplipy/parse/statement.py:29-235 | `first_instr`: the instruction a statement starts with carries the statement's first line; it is an if, while or def header exactly for those statement kinds |
| Tree.Last | simplipy/parse/statement.py:26-232 | `last`: a single-instruction statement ends on its own line, any last line is the line of one of the statement's instructions, and the only error is IndexError |
| Tree.BlockLast | simplipy/parse/types.py:41-42 | `Block.last`: IndexError on an empty block, otherwise the last of its final statement, a line of one of the block's instructions |
| Tree.LastIsFinalLeaf | simplipy/parse/statement.py:26-232 | on success, `last` is the line of the statement's final instruction in source order (`LeafSeq`) |
| Tree.BlockLastIsFinalLeaf | simplipy/parse/types.py:41-42 | on success, `Block.last` is the line of the block's final instruction in source order |
| Tree.LeafSeqSet | simplipy/parse/statement.py:126-208 | the instructions listed in source order are exactly the statement's instructions |
| Tree.BlockFirst | simplipy/parse/types.py:38-39 | `Block.first`: IndexError on an empty block, otherwise the line of its first statement's first instruction |
| Tree.AddStmt | simplipy/parse/types.py:44-45 | `_add_stmt`: the block gains exactly the new statement at its end; its earlier statements, flag and name sets are unchanged |
| Tree.SetIdx | simplipy/parse/types.py:27-28 | `set_idx`: the statement takes the index and keeps its kind, first instruction and sub-blocks |
| Paths.ChildParent | simplipy/parse/statement.py:119-121 | the parent of a statement's sub-block is that statement, and the sub-block found there is the statement's own |
| Paths.ParentValid | simplipy/parse/types.py:47-48 | a statement in a nested block has a valid parent statement whose sub-block is that nested block |
| Paths.BlockAtAppend | simplipy/parse/types.py:47-48 | following a path in two pieces reaches the same block as following it at once |
| Paths.PreorderComplete | simplipy/ctf/ctf.py:25-43 | the pre-order traversal of the tree visits exactly the statements that exist, nested if, else, while and def blocks included |
| Paths.WellIndexedAt | simplipy/parse/parse.py:39-42 | in a well-indexed tree every statement's stored index is its position in its block |
| Stf.Next | simplipy/ctf/stf.py:12-28 | `next`: the statement control falls to is a valid statement no deeper than the start |
| Stf.NextJumps | simplipy/ctf/stf.py:13-18 | `continue` goes to the nearest enclosing while, `break` to that while's `next`, both a SyntaxError outside a loop; `return` raises ValueError |
| Stf.True | simplipy/ctf/stf.py:31-38 | `true` succeeds exactly for a while or an if with a non-empty body and gives that body's first statement; other statements raise ValueError |
| Stf.False | simplipy/ctf/stf.py:41-48 | `false` of a while is its `next`; for an if it succeeds exactly when the else block is non-empty; other statements raise ValueError |
| Stf.NextFollowing | simplipy/ctf/stf.py:22-28 | a statement that falls through and is not last in its block is followed by the next statement of its block |
| Stf.NextNestedFinal | simplipy/ctf/stf.py:22-26 | the last statement of a nested block that falls through continues as its parent statement does |
| Stf.NextFixpointIff | simplipy/ctf/stf.py:22-25 | `next` is a fixed point exactly at the last top-level statement when that statement falls through |
| Helper.Encl | simplipy/ctf/helper.py:7-16 | `encl`: a strict ancestor of the statement of the requested kind; SyntaxError at top level |
| Helper.EnclWhile | simplipy/ctf/helper.py:19 | `encl_while`: a strict ancestor that is a while; SyntaxError when there is none |
| Helper.EnclOkIff | simplipy/ctf/helper.py:7-16 | `encl` succeeds exactly when some ancestor has the kind |
| Helper.EnclNearest | simplipy/ctf/helper.py:7-16 | the ancestor `encl` returns is the nearest one of that kind |
| Helper.EnclWhileOfBody | simplipy/ctf/helper.py:7-16 | a statement in a while body, or in an if or else directly inside that body, has that while as enclosing while |
| Helper.AncestorValid | simplipy/ctf/helper.py:7-16 | every ancestor of a statement exists and holds the block on the path |
| Ctf.ConstructCtf | simplipy/ctf/ctf.py:7-14 | `construct_ctf(stf)`: defined exactly when `stf` is, and gives the first instruction of the statement `stf` returns |
| Ctf.ApplyStf | simplipy/ctf/ctf.py:17-19 | the three transfer functions lead to statements of the tree |
| Ctf.GetCtfs | simplipy/ctf/ctf.py:22-47 | `get_ctfs` builds the tables `CtfTables` describes; the proofs about them follow |
| Ctf.Row | simplipy/ctf/ctf.py:27-43 | one statement's rows are entered exactly when every transfer function it needs succeeds; a failure carries the error of one of them; the tables it has no row for are unchanged |
| Ctf.CtfTables | simplipy/ctf/ctf.py:22-47 | `get_ctfs` as a function: an empty program has empty tables; `CtfProps` states the rest |
| Ctf.VisitAllInstrs | simplipy/ctf/ctf.py:25-43 | the loop over a block enters the rows of its statements and their sub-blocks, in pre-order |
| Ctf.VisitSubBlocks | simplipy/ctf/ctf.py:27-37 | the recursive calls for an if's two blocks, a while's body or a def's body |
| Ctf.FoldAppend | simplipy/ctf/ctf.py:25-43 | entering the rows of two runs of statements is entering the first run, then the second |
| CtfProps.RowOkIff | simplipy/ctf/ctf.py:27-43 | one statement's rows are computed exactly when each transfer function it needs succeeds |
| CtfProps.CtfOk | simplipy/ctf/ctf.py:22-47 | `get_ctfs` succeeds exactly when every statement's rows can be computed |
| CtfProps.CtfKeys | simplipy/ctf/ctf.py:27-43 | a line has a row exactly when some statement that contributes that row starts on it |
| CtfProps.CtfValues | simplipy/ctf/ctf.py:27-43 | with one statement per line, each row holds the first line of the statement its transfer function gives |
| CtfProps.FoldOk | simplipy/ctf/ctf.py:25-43 | folding the rows succeeds exactly when every statement's rows can be computed |
| CtfProps.FoldKeys | simplipy/ctf/ctf.py:27-43 | after folding, the lines with a row are the old ones and the first lines of the statements that contribute one |
| CtfProps.ReturnHasNoNextRow | simplipy/ctf/ctf.py:38-39 | with one statement per line, a return never gets a `next` row |
| CtfProps.AsWrittenDefHasNoNextRow | simplipy/ctf/ctf.py:36-37 | with one statement per line, as written, a def has no `next` row, so the machine cannot step past one |
| CtfProps.SelfRow | simplipy/ctf/ctf.py:43 | a statement's `next` row maps its line to itself exactly when `next` is a fixed point there |
| CtfProps.AsWrittenNoFixpoint | simplipy/ctf/ctf.py:40-41 | as written, no `next` row is a fixed point, so `is_final` can never hold |
| CtfProps.IntendedFixpointIff | simplipy/ctf/ctf.py:40-43 | with the rows the tests expect, the `next` table has a fixed point exactly at the last top-level statement when that statement falls through and is not an if or a while |
| CtfProps.UniqueAt | simplipy/semantics/state.py:264-266 | with one statement per line, a line names one statement |
| InstrMap.InstrMapProps | simplipy/semantics/state.py:264-273 | `_populate_instr_map`: a line is mapped exactly when some statement starts on it, and each entry is such a statement |
| InstrMap.InstrMapUnique | simplipy/semantics/state.py:264-266 | with one statement per line, the map sends each statement's line to that statement |
| InstrMap.FoldInstrsProps | simplipy/semantics/state.py:265-273 | filling the map from a run of statements keeps every entry a statement on its line, and adds exactly the lines of those statements |
| InstrMap.FoldInstrsAppend | simplipy/semantics/state.py:265-273 | filling the map from two runs is filling it from the first, then the second |
| Values.EvalUnary | simplipy/semantics/state.py:182-195 | `not` gives the negated truth value of any value; `-`, `+` and `~` succeed exactly on ints and bools; errors are TypeError |
| Values.EvalBinary | simplipy/semantics/state.py:196-228 | an operand outside int and bool is a TypeError; `@` is a TypeError; `/`, `//` and `%` by zero and `0 **` a negative number are ZeroDivisionError; a negative shift count is a ValueError; only `/` and `**` can give the unmodelled float; results are ints or bools |
| Values.EvalCmp | simplipy/semantics/state.py:233-256 | orderings are defined exactly on numbers; `!=` is the negation of `==` wherever that is defined; `in` and `not in` are TypeError (no value is a container); `is` and `is not` are not modelled |
| Values.EvalFloorDivMod | simplipy/semantics/state.py:207-210 | `//` and `%` of two ints by a non-zero divisor succeed, and quotient times divisor plus remainder is the dividend, with the remainder of the divisor's sign and smaller magnitude |
| Values.EvalShiftRoundTrip | simplipy/semantics/state.py:213-216 | `(a << n) >> n` gives `a` back for every int and every shift count `n >= 0` |
| Values.EvalPowStep | simplipy/semantics/state.py:211-212 | `a ** 0` is 1 and `a ** (n + 1)` is `a` times `a ** n` |
| Values.EvalBitwise | simplipy/semantics/state.py:217-222 | on ints, `(a & b) + (a \| b)` is `a + b` and `a ^ b` is `(a \| b) - (a & b)` |
| Values.CmpOrderings | simplipy/semantics/state.py:237-244 | on numbers, `<` is the integer order, exactly one of `<`, `==`, `>` holds, `<=` is `<` or `==`, `>=` is not `<`, and `l > r` is `r < l` |
| Values.Equal | simplipy/semantics/state.py:233-234 | `==` is not modelled exactly between two Bottom objects; equal values are both numbers, both None or both closures; every value other than Bottom equals itself |
| Values.Truthy | simplipy/semantics/state.py:98 | a number is truthy exactly when it is non-zero, and only numbers and None can be falsy |
| Values.FloorDivMod | simplipy/semantics/state.py:207-210 | Python's `//` and `%`: quotient times divisor plus remainder is the dividend, and the remainder has the divisor's sign and a smaller magnitude |
| Values.ShiftRoundTrip | simplipy/semantics/state.py:213-216 | shifting left and then right by the same amount gives the number back |
| Values.AndOrSum | simplipy/semantics/state.py:217-222 | `a & b` plus `a \| b` is `a + b` on Python's unbounded integers |
| Values.XorIsOrMinusAnd | simplipy/semantics/state.py:217-222 | `a ^ b` is `a \| b` minus `a & b` |
| Values.AndBounds | simplipy/semantics/state.py:221-222 | the `&` of two naturals lies between zero and either operand |
| Values.BoolBitwiseAgrees | simplipy/semantics/state.py:217-222 | `&`, `\|` and `^` on two bools agree with the integer operators on 0 and 1 |
| Values.EqualSymmetric | simplipy/semantics/types.py:14-17 | `==`, closures included, is symmetric wherever it is defined |
| Machine.ParentChainOf | simplipy/semantics/state.py:141-150 | `get_parent_chain`: starts at the given id, follows an edge at every step, and ends at an id without a parent |
| Machine.LexicalBlockOf | simplipy/semantics/state.py:153-155 | the walk to the nearest lexical block: the block found is lexical and every block skipped is not; under a lexical root the walk never fails |
| Machine.FirstHolding | simplipy/semantics/state.py:164-170 | the first environment of the list that binds the name; LookupError exactly when none does |
| Machine.LookupEnv | simplipy/semantics/state.py:152-172 | `lookup_env` resolves to an environment that exists; `MachineProps.LookupGlobal`, `LookupDynamic` and `LookupNonlocal` state its cases |
| Machine.LookupVal | simplipy/semantics/state.py:174-175 | `lookup_val` succeeds exactly when the name resolves to an environment that binds it, and gives the bound value |
| Machine.SetVar | simplipy/semantics/state.py:95 | an assignment updates one name of one environment and nothing else |
| Machine.Advance | simplipy/semantics/state.py:91 | moving the top context succeeds exactly when the table has a row for its line, changes only the top line, and is a KeyError otherwise |
| Machine.NewEnvId | simplipy/semantics/state.py:27-30 | a new environment id is one more than the largest id in use, so it is larger than every id in use; ValueError exactly when there is none |
| Machine.FrameAsWritten | simplipy/semantics/state.py:124-125 | as written, every local of the callee becomes Bottom, arguments included |
| Machine.Frame | simplipy/semantics/state.py:119-125 | as intended, locals that are not formals become Bottom and the arguments stay bound |
| Machine.BindArgs | simplipy/semantics/state.py:119-123 | binding arguments changes only environment contents, never the set of environments, the chain or the stack |
| Machine.CallWith | simplipy/semantics/state.py:108-117 | a call succeeds only for a closure taking as many formals as arguments, once a fresh id was found |
| Machine.EnterCall | simplipy/semantics/state.py:117-128 | a call that succeeds has bound all its arguments before it links and enters the callee |
| Machine.Link | simplipy/semantics/state.py:124-128 | entering the callee succeeds exactly when its first line is mapped, and adds the one edge from the new environment to the caller's |
| Machine.ScopeOf | simplipy/semantics/state.py:153-155 | the walk from the top context's block to the nearest lexical block ends at a block of the tree |
| Machine.Eval | simplipy/semantics/state.py:177-262 | `eval_expr`: a successful evaluation of anything but a name is an int, a bool or None, and a comparison chain gives a bool |
| Machine.EvalChain | simplipy/semantics/state.py:231-260 | the comparison loop gives a bool whenever it succeeds |
| Machine.StepExprAssign | simplipy/semantics/state.py:92-96 | the ExprAssign branch: on success the target's environment binds it to the value of the expression and the top context moves to the `next` row; the chain, the set of environments and the depth never change |
| Machine.StepBranch | simplipy/semantics/state.py:97-101 | the If/While branch: on success the top context moves to the `true` row when the test is truthy and to the `false` row otherwise; nothing else changes |
| Machine.StepDef | simplipy/semantics/state.py:102-107 | the Def branch: on success the function name is bound to a closure of the body's first line and the formals; the chain, the set of environments and the depth never change |
| Machine.StepCall | simplipy/semantics/state.py:108-128 | the CallAssign branch: a callee that is not a closure is a ValueError, a wrong number of arguments a TypeError; a successful call pushes one context and adds an environment |
| Machine.StepRet | simplipy/semantics/state.py:130-136 | the Ret branch: on success the value was evaluated and one context is popped; the chain and the set of environments are unchanged |
| Machine.ReturnTo | simplipy/semantics/state.py:133-136 | back in the caller, whose instruction is an assignment, its target is bound to the returned value; the chain, the set of environments and the depth are unchanged |
| Machine.StepAt | simplipy/semantics/state.py:88-139 | the dispatch on the instruction: a call pushes one context, a return pops one, other instructions keep the depth, and an `ElseI` changes nothing |
| Machine.StepSpec | simplipy/semantics/state.py:85-139 | `step`: a successful step fetches a mapped instruction at the top line and changes the depth as `StepAt` says |
| Machine.IsFinal | simplipy/semantics/state.py:73-75 | `is_final`: IndexError exactly on an empty stack; when it holds, advancing by the `next` row changes nothing |
| Machine.Init | simplipy/semantics/state.py:62-71 | `State(pgm)` succeeds exactly when the tables can be built and the program is not empty, and starts with one context at the first line in the empty global environment, no edges, and the program's instruction map |
| MachineProps.InitInv | simplipy/semantics/state.py:62-71 | `State(pgm)` succeeds exactly when the tables can be built and the program is not empty; it starts in the invariant with one context at the first line |
| MachineProps.StepInv | simplipy/semantics/state.py:85-139 | a successful step keeps the invariant |
| MachineProps.FinalIff | simplipy/semantics/state.py:73-75 | with one statement per line, `is_final` holds exactly at the last top-level statement when it falls through and is not an if or a while |
| MachineProps.ChainIsStack | simplipy/semantics/state.py:141-150 | the parent chain from the top context lists the environments of the call stack, innermost first |
| MachineProps.LookupGlobal | simplipy/semantics/state.py:159-162 | a name declared both global and nonlocal in the scope is a ValueError; otherwise at top level, or for a name declared global, it resolves to the global environment |
| MachineProps.LookupEnvSearch | simplipy/semantics/state.py:157-170 | in a function, a plain name is searched through the stack's environments and a nonlocal through those strictly between the current frame and the global one |
| MachineProps.FirstHoldingStack | simplipy/semantics/state.py:168-170 | searching the stack's environments finds the innermost frame binding the name, and fails exactly when none does |
| MachineProps.LookupDynamic | simplipy/semantics/state.py:167-172 | a name declared neither global nor nonlocal resolves to the innermost active frame binding it; LookupError exactly when none does |
| MachineProps.LookupNonlocal | simplipy/semantics/state.py:163-166 | a nonlocal resolves to the innermost binding frame strictly between the current one and the global one |
| MachineProps.ChainAll | simplipy/semantics/state.py:229-260 | a defined comparison chain is true exactly when each adjacent pair compares true |
| MachineProps.ChainStops | simplipy/semantics/state.py:257-258 | the chain is False at the first pair that compares false, whatever the later comparators are |
| MachineProps.FrameAsWrittenLosesArgument | simplipy/semantics/state.py:119-125 | in `def f(x): x = x + 1`, as written `f(1)` computes `x + 1` with `x` bound to Bottom, and `Bottom + 1` is a TypeError; the intended frame gives 2 |
| StateMachine.LexicalMap.constructor | simplipy/semantics/state.py:24-25 | only the empty global environment |
| StateMachine.LexicalMap.CreateNewEnv | simplipy/semantics/state.py:27-30 | `create_new_env` adds an empty environment under `NewEnvId` and changes nothing else |
| StateMachine.LexicalMap.Assign | simplipy/semantics/state.py:95 | `env[var] = val` on one environment, the others unchanged |
| StateMachine.ParentChain.constructor | simplipy/semantics/state.py:37-38 | no edges |
| StateMachine.ParentChain.AddEdge | simplipy/semantics/state.py:40-41 | `add_edge` sets the one edge |
| StateMachine.Continuation.constructor | simplipy/semantics/state.py:45-46 | one context at the first line in the global environment |
| StateMachine.Continuation.Pop | simplipy/semantics/state.py:51-52 | `pop` removes and returns the last context; IndexError on an empty stack |
| StateMachine.Continuation.Push | simplipy/semantics/state.py:54-55 | `push` appends the context |
| StateMachine.Continuation.MoveTop | simplipy/semantics/state.py:91 | the top context moves to a new line in the same environment |
| StateMachine.State.constructor | simplipy/semantics/state.py:62-71 | the program and tables it is given, the instruction map of the program, and the initial configuration |
| StateMachine.State.PopulateInstrMap | simplipy/semantics/state.py:264-273 | `_populate_instr_map` fills the map as `FoldInstrs` does over the block's statements in pre-order |
| StateMachine.State.IsFinal | simplipy/semantics/state.py:73-75 | `is_final` is `Machine.IsFinal` of the current state |
| StateMachine.State.GetParentChain | simplipy/semantics/state.py:141-150 | the loop computes `ParentChainOf` from the top context's environment; IndexError on an empty stack |
| StateMachine.State.FirstEnvHolding | simplipy/semantics/state.py:164-170 | the `for env in envs` loops find `FirstHolding` |
| StateMachine.State.EnclosingScope | simplipy/semantics/state.py:153-155 | the `while not blk.lexical` loop finds `ScopeOf` |
| StateMachine.State.AllPresent | simplipy/semantics/state.py:157 | true exactly when every id of the chain has an environment |
| StateMachine.State.LookupEnv | simplipy/semantics/state.py:152-172 | `lookup_env` is `Machine.LookupEnv` |
| StateMachine.State.LookupVal | simplipy/semantics/state.py:174-175 | `lookup_val` is `Machine.LookupVal` |
| StateMachine.State.EvalExpr | simplipy/semantics/state.py:177-262 | `eval_expr` is `Machine.Eval`, its comparison loop included |
| StateMachine.State.Advance | simplipy/semantics/state.py:91 | the table lookup and move of the top context is `Machine.Advance` |
| StateMachine.State.ExecExprAssign | simplipy/semantics/state.py:92-96 | the ExprAssign branch is `StepExprAssign` |
| StateMachine.State.ExecBranch | simplipy/semantics/state.py:97-101 | the If/While branch is `StepBranch` |
| StateMachine.State.ExecDef | simplipy/semantics/state.py:102-107 | the Def branch is `StepDef` |
| StateMachine.State.ExecCall | simplipy/semantics/state.py:108-128 | the CallAssign branch is `StepCall` |
| StateMachine.State.CallClosure | simplipy/semantics/state.py:110-128 | the call once the callee is looked up is `CallWith` |
| StateMachine.State.EnterNewEnv | simplipy/semantics/state.py:117-128 | creating the environment and entering is `CallWith` after the checks |
| StateMachine.State.EnterClosure | simplipy/semantics/state.py:118-128 | binding and entering is `EnterCall` |
| StateMachine.State.BindArguments | simplipy/semantics/state.py:119-123 | the argument loop is `BindArgs` |
| StateMachine.State.LinkCall | simplipy/semantics/state.py:124-128 | Bottom locals, edge and push are `Link`; nothing changes after a failed binding |
| StateMachine.State.ExecRet | simplipy/semantics/state.py:130-136 | the Ret branch is `StepRet` |
| StateMachine.State.ReturnToCaller | simplipy/semantics/state.py:133-136 | the assignment in the caller and its advance are `ReturnTo` |
| StateMachine.State.Step | simplipy/semantics/state.py:85-139 | `step` is `StepSpec`; from a valid state a successful step stays valid, a call pushes exactly one context and a return pops one |
| StateMachine.State.Execute | simplipy/semantics/state.py:88-139 | the dispatch on the instruction is `StepAt` |
| StateMachine.Create | simplipy/semantics/state.py:62-71 | `State(pgm)` succeeds exactly when `Init` does, gives `Init`'s configuration, and satisfies the invariant |
| Parse.EnclosingLexical | simplipy/parse/parse.py:44-48 | `_encl_lexical_block`: the innermost lexical block of the stack; LookupError exactly when no block is lexical |
| Parse.AddLocal | simplipy/parse/parse.py:50-53 | `_update_locals`: the name is added to the innermost lexical block's locals unless that is the root, and nothing else changes |
| Parse.AddGlobals | simplipy/parse/parse.py:153 | the names are added to the innermost lexical block's globals, the root included |
| Parse.AddNonlocals | simplipy/parse/parse.py:147 | the names are added to the innermost lexical block's nonlocals |
| Parse.Append | simplipy/parse/parse.py:39-42 | `_add_stmt`: the top block gains the statement with its position as index, and the other blocks are unchanged |
| Parse.VisitFrom | simplipy/parse/parse.py:59-61 | visiting statements in order keeps the depth of the stack |
| Parse.VisitInto | simplipy/parse/parse.py:93-96 | push a block, visit the body, pop it: the stack keeps its depth, and an empty body gives an empty block with the requested flag |
| Parse.AssignStep | simplipy/parse/parse.py:68-88 | `visit_Assign`: keeps the stack depth; anything but one name target is NotImplementedError, and an accepted call has a named callee |
| Parse.IfStep | simplipy/parse/parse.py:90-105 | `visit_If`: keeps the stack depth, and succeeds only with an else block and a call-free test |
| Parse.WhileStep | simplipy/parse/parse.py:107-115 | `visit_While`: keeps the stack depth, and succeeds only with a call-free test |
| Parse.DefStep | simplipy/parse/parse.py:127-136 | `visit_FunctionDef`: keeps the stack depth, and succeeds only when some block of the stack is lexical |
| Parse.ReturnStep | simplipy/parse/parse.py:138-144 | `visit_Return`: a bare `return` is NotImplementedError and a value holding a call fails |
| Parse.NonlocalStep | simplipy/parse/parse.py:146-150 | `visit_Nonlocal` succeeds exactly when some block of the stack is lexical, and keeps the stack depth |
| Parse.GlobalStep | simplipy/parse/parse.py:152-156 | `visit_Global` succeeds exactly when some block of the stack is lexical, and keeps the stack depth |
| Parse.VisitStmt | simplipy/parse/parse.py:63-159 | the dispatch keeps the stack depth; `VisitStmtGrows` and `StmtAccepted` state what it appends and accepts |
| Parse.ParseProgram | simplipy/parse/parse.py:55-57 | `parse_pgm` of a fresh visitor: an empty module gives an empty lexical root; `ParsedTree` and `ParsesIff` state the rest |
| Parse.ExtendsTrans | simplipy/parse/parse.py:39-42 | extending a stack twice is extending it |
| Parse.AppendGrows | simplipy/parse/parse.py:39-42 | appending the translation of a statement grows the stack by that one statement |
| Parse.LocalKeeps | simplipy/parse/parse.py:50-53 | recording a local keeps the stack well formed and every block's statements |
| Parse.VisitIntoKeeps | simplipy/parse/parse.py:93-96 | visiting a body into a pushed block leaves the stack below it extended, and gives a well-indexed block with the requested lexical flag |
| Parse.AssignGrows | simplipy/parse/parse.py:68-88 | an accepted assignment appends one statement translating it: a CallAssign with the target, the callee name and the wrapped arguments, or an ExpAssign with the target and the wrapped value, on its line |
| Parse.IfGrows | simplipy/parse/parse.py:90-105 | an accepted if appends one if statement whose header wraps the test on its line and whose two blocks translate the body and the else block |
| Parse.WhileGrows | simplipy/parse/parse.py:107-115 | an accepted while appends one while statement whose header wraps the test on its line and whose block translates the body |
| Parse.DefGrows | simplipy/parse/parse.py:127-136 | an accepted def appends one def statement with the name and formals on its line and a block translating the body; the name joins the locals of the enclosing lexical block unless that is the root, and no other block's locals change |
| Parse.ScopeGrows | simplipy/parse/parse.py:146-156 | an accepted global or nonlocal appends one statement of that kind |
| Parse.VisitStmtGrows | simplipy/parse/parse.py:63-159 | visiting any accepted statement appends exactly its translation (instruction contents and, at every depth, translated sub-blocks) to the top block |
| Parse.VisitFromKeeps | simplipy/parse/parse.py:59-61 | visiting a run of statements extends the stack and keeps it well formed |
| Parse.VisitFromTranslates | simplipy/parse/parse.py:59-61 | visiting a run of statements keeps the top block's earlier statements and appends the statements' full translations, one each, in order |
| Parse.ParsedTree | simplipy/parse/parse.py:55-57 | a parsed program's root is lexical and has no locals; the tree is well indexed; only function bodies are lexical; the root translates the module statement by statement, instruction contents and nested blocks included |
| Parse.Rejections | simplipy/parse/parse.py:97-159 | an if without else, a return without value, expression statements and every other kind are refused, and a while's else is ignored |
| Parse.AssignAccepted | simplipy/parse/parse.py:68-88 | an assignment is accepted exactly when it has one name target and is a call of a named function on call-free arguments, or is call-free; the name joins the locals unless the block is the root |
| Parse.GlobalsRecorded | simplipy/parse/parse.py:152-156 | `global` is accepted exactly when there is a lexical block, records its names there and nowhere else |
| Parse.NonlocalsRecorded | simplipy/parse/parse.py:146-150 | the same for `nonlocal` |
| Parse.IfAccepted | simplipy/parse/parse.py:90-105 | an if is accepted exactly when its test is call-free, it has an else block, and both bodies are accepted |
| Parse.WhileAccepted | simplipy/parse/parse.py:107-115 | a while is accepted exactly when its test is call-free and its body is accepted |
| Parse.DefAccepted | simplipy/parse/parse.py:127-136 | a def is accepted exactly when its body is accepted |
| Parse.StmtAccepted | simplipy/parse/parse.py:63-159 | a statement is visited without error exactly when it is `Accepted` |
| Parse.VisitIntoAccepted | simplipy/parse/parse.py:93-96 | a body is visited without error exactly when all its statements are accepted |
| Parse.FromAccepted | simplipy/parse/parse.py:59-61 | a run of statements is visited without error exactly when each is accepted |
| Parse.ParsesIff | simplipy/parse/parse.py:55-61 | a module parses exactly when every statement of it is accepted |
| Parse.Visitor.constructor | simplipy/parse/parse.py:35-37 | the stack holds one empty lexical root block |
| Parse.Visitor.AddStatement | simplipy/parse/parse.py:39-42 | `_add_stmt` updates the stack as `Append` |
| Parse.Visitor.EnclLexicalBlock | simplipy/parse/parse.py:44-48 | the reversed scan finds `EnclosingLexical` |
| Parse.Visitor.UpdateLocals | simplipy/parse/parse.py:50-53 | `_update_locals` does `AddLocal` |
| Parse.Visitor.VisitAssign | simplipy/parse/parse.py:68-88 | `visit_Assign` does `AssignStep` |
| Parse.Visitor.VisitNested | simplipy/parse/parse.py:93-96 | push a block, visit the body, pop it: `VisitInto` |
| Parse.Visitor.VisitIf | simplipy/parse/parse.py:90-105 | `visit_If` does `IfStep` |
| Parse.Visitor.VisitWhile | simplipy/parse/parse.py:107-115 | `visit_While` does `WhileStep` |
| Parse.Visitor.VisitFunctionDef | simplipy/parse/parse.py:127-136 | `visit_FunctionDef` does `DefStep` |
| Parse.Visitor.VisitReturn | simplipy/parse/parse.py:138-144 | `visit_Return` does `ReturnStep` |
| Parse.Visitor.VisitNonlocal | simplipy/parse/parse.py:146-150 | `visit_Nonlocal` does `NonlocalStep` |
| Parse.Visitor.VisitGlobal | simplipy/parse/parse.py:152-156 | `visit_Global` does `GlobalStep` |
| Parse.Visitor.Visit | simplipy/parse/parse.py:63-159 | the dispatch does `VisitStmt` |
| Parse.Visitor.VisitBody | simplipy/parse/parse.py:59-61 | the loop over a body does `VisitFrom` |
| Parse.Visitor.ParsePgm | simplipy/parse/parse.py:55-57 | `parse_pgm` gives `ParseWith` of the current stack |
| Parse.Parse | simplipy/parse/parse.py:35-57 | a fresh visitor's `parse_pgm` gives `ParseProgram` |
| Simplify.NatToString | simplipy/simplify/simplify.py:30 | the decimal numeral of a counter is a non-empty string of digits |
| Simplify.DecimalRoundTrip | simplipy/simplify/simplify.py:30 | reading back the numeral gives the counter |
| Simplify.TempNameInjective | simplipy/simplify/simplify.py:29-32 | two temporaries have the same name exactly when their numbers agree |
| Simplify.Hoist | simplipy/simplify/simplify.py:34-59 | the rewritten expression holds no call, the hoisted assignments are numbered consecutively from the counter, their callees are names when the input's are, and every error is UnsupportedConstructError |
| Simplify.HoistBinOp | simplipy/simplify/simplify.py:34-59 | the same for a binary operation |
| Simplify.HoistCompare | simplipy/simplify/simplify.py:34-59 | the same for a comparison chain |
| Simplify.HoistCall | simplipy/simplify/simplify.py:34-59 | the same for a call |
| Simplify.HoistFrom | simplipy/simplify/simplify.py:36 | a list of expressions keeps its length and becomes call-free, with the hoisted assignments numbered consecutively from the counter |
| Simplify.HoistArgs | simplipy/simplify/simplify.py:105-110 | the rewritten arguments keep their number and are call-free, and every hoisted statement is a temporary assignment of a call |
| Simplify.PerArgumentFrom | simplipy/simplify/simplify.py:105-110 | the same, each argument rewritten by a fresh transformer |
| HoistProps.HoistCount | simplipy/simplify/simplify.py:34-59 | `visit` hoists exactly one assignment per call outside a callee position, and refuses exactly when one of those calls has keyword arguments |
| HoistProps.HoistBinOpCount | simplipy/simplify/simplify.py:34-59 | the same for a binary operation |
| HoistProps.HoistCompareCount | simplipy/simplify/simplify.py:34-59 | the same for a comparison chain |
| HoistProps.HoistCallCount | simplipy/simplify/simplify.py:34-43 | the same for a call: its arguments' calls plus itself; keyword arguments refuse it |
| HoistProps.HoistFromCount | simplipy/simplify/simplify.py:36 | a list is refused exactly when one element has a keyword call; otherwise one assignment per call of all its elements |
| HoistProps.HoistCallFree | simplipy/simplify/simplify.py:34-59 | an expression without calls is returned as it is, with nothing hoisted |
| HoistProps.HoistFromCallFree | simplipy/simplify/simplify.py:36 | a list without calls is returned as it is, with nothing hoisted |
| HoistProps.HoistNames | simplipy/simplify/simplify.py:44-59 | the rewritten expression reads no temporary the input does not read except those hoisted for it, and each hoisted call reads only temporaries assigned before it |
| HoistProps.HoistBinOpNames | simplipy/simplify/simplify.py:44-59 | the same for a binary operation |
| HoistProps.HoistCompareNames | simplipy/simplify/simplify.py:44-59 | the same for a comparison chain |
| HoistProps.HoistCallNames | simplipy/simplify/simplify.py:44-59 | the same for a call: it is replaced by its own temporary, and its assignment reads only temporaries of its arguments |
| HoistProps.HoistFromNames | simplipy/simplify/simplify.py:36 | the same for a list of expressions |
| HoistProps.HoistRoundTrip | simplipy/simplify/simplify.py:44-59 | for an input reading no temporary the rewrite could assign, substituting each hoisted call back for its temporary, last first, gives the input again |
| HoistProps.HoistBinOpRoundTrip | simplipy/simplify/simplify.py:44-59 | the same for a binary operation |
| HoistProps.HoistCompareRoundTrip | simplipy/simplify/simplify.py:44-59 | the same for a comparison chain |
| HoistProps.HoistCallRoundTrip | simplipy/simplify/simplify.py:34-59 | the same for a call, whose assignment keeps its callee and has no keywords |
| HoistProps.HoistFromRoundTrip | simplipy/simplify/simplify.py:36 | the same for a list, element by element |
| HoistProps.HoistBinOpOrder | simplipy/simplify/simplify.py:34-59 | the left operand's calls are hoisted first, numbered from the counter, then the right operand's; the operator is kept |
| HoistProps.HoistCompareOrder | simplipy/simplify/simplify.py:34-59 | the first operand's calls are hoisted first, then the comparators'; the operators are kept |
| HoistProps.HoistCallOrder | simplipy/simplify/simplify.py:34-59 | a call with keyword arguments is refused; otherwise its arguments' calls are hoisted first, and the call itself, with its callee and rewritten arguments, is assigned last to the temporary numbered after them, which replaces it |
| HoistProps.HoistFromPieces | simplipy/simplify/simplify.py:36 | element `i` of the result and its slice of the hoisted assignments are the rewrite of element `i` of the input, with the counter after the calls of the elements before it |
| HoistProps.PerArgumentPieces | simplipy/simplify/simplify.py:105-110 | each argument is rewritten by a fresh transformer, numbered from 0 again, with its own slice of the hoisted assignments, in argument order; a keyword call in any argument is refused |
| HoistProps.HoistArgsPieces | simplipy/simplify/simplify.py:105-110 | in either mode, refused exactly when an argument has a keyword call; otherwise one assignment per call, argument by argument; with the threaded counter, substituting the calls back gives the arguments |
| Simplify.ConvStmt | simplipy/simplify/simplify.py:321-355 | a converted statement becomes at least one statement |
| Simplify.ConvFrom | simplipy/simplify/simplify.py:309-319 | a non-empty run of statements converts to a non-empty run |
| Simplify.ConvAssign | simplipy/simplify/simplify.py:90-152 | `visit_Assign`: anything but one name target is refused; on success the counter is unchanged and the last statement is an assignment to the same target |
| Simplify.ConvExpr | simplipy/simplify/simplify.py:154-204 | `visit_Expr`: an expression that is not a call becomes `pass`; a call ends in an assignment to the next temporary and advances the counter by one |
| Simplify.ConvReturn | simplipy/simplify/simplify.py:296-307 | `visit_Return`: a bare `return` becomes `return None`; on success the last statement returns a value and the counter is unchanged |
| Simplify.ConvIf | simplipy/simplify/simplify.py:206-226 | `visit_If`: on success the last statement is an if with a non-empty else block |
| Simplify.ConvWhile | simplipy/simplify/simplify.py:228-253 | `visit_While`: a loop with an else block is refused; on success the last statement is a while whose body ends in `continue` |
| Simplify.ConvDef | simplipy/simplify/simplify.py:255-294 | `visit_FunctionDef`: signature extras and decorators are refused; on success one def of the same name whose body ends in `return` |
| Simplify.TransformFrom | simplipy/simplify/simplify.py:399-419 | `transform` on the module body: a non-empty module stays non-empty; `Pipeline.SimplifiedParses` states that the result parses |
| Simplify.AssignShape | simplipy/simplify/simplify.py:90-152 | an assignment needs one name target and no keyword arguments; it becomes hoisted assignments followed by the assignment, and leaves the counter untouched |
| Simplify.ExprShape | simplipy/simplify/simplify.py:154-204 | a call statement becomes hoisted assignments and one new temporary assignment, using one counter value; any other expression statement becomes `pass` |
| Simplify.ReturnShape | simplipy/simplify/simplify.py:296-307 | `return` becomes `return None`; a return with a value becomes hoisted assignments followed by the return |
| Simplify.IfShape | simplipy/simplify/simplify.py:206-226 | an if becomes the test's hoisted assignments followed by the if, with converted bodies, and `else: pass` when it had no else |
| Simplify.WhileShape | simplipy/simplify/simplify.py:228-253 | a while with else is refused; otherwise the test is hoisted once before the loop and the body ends in `continue` |
| Simplify.DefShape | simplipy/simplify/simplify.py:255-294 | defaults, keyword-only, positional-only, `*args`, `**kwargs` and decorators are refused; the body ends in `return` |
| Simplify.PassThrough | simplipy/simplify/simplify.py:350-397 | the refused statement kinds raise; pass, break, continue, global and nonlocal are kept as they are |
| Simplify.ConvFromConcat | simplipy/simplify/simplify.py:309-319 | converting two runs is converting the first, then the second from the counter it left |
| Simplify.ConvFromShift | simplipy/simplify/simplify.py:309-319 | converting the second part of a concatenation is converting that part alone |
| Simplify.ThreadedTempsDistinct | simplipy/simplify/simplify.py:105-110 | with one counter across the arguments, the hoisted temporaries have pairwise distinct names |
| Simplify.PerArgumentReusesTemp | simplipy/simplify/simplify.py:105-110 | as written, `x = f(g(1), h(2))` assigns `_simplipy_temp_0` twice and calls `f(_simplipy_temp_0, _simplipy_temp_0)` |
| Simplify.ThreadedSeparatesTemps | simplipy/simplify/simplify.py:105-110 | with the counter threaded, the same statement uses `_simplipy_temp_0` and `_simplipy_temp_1` |
| Simplify.ExpressionTransformer.constructor | simplipy/simplify/simplify.py:24-27 | counter 0 and no hoisted assignments |
| Simplify.ExpressionTransformer.GenerateTempVar | simplipy/simplify/simplify.py:29-32 | the next temporary's name, the counter advanced by one |
| Simplify.ExpressionTransformer.Visit | simplipy/simplify/simplify.py:34-59 | `visit` returns `Hoist`'s expression and appends its assignments, the counter advanced by their number |
| Simplify.ExpressionTransformer.VisitBinOp | simplipy/simplify/simplify.py:34-59 | the same as `HoistBinOp` |
| Simplify.ExpressionTransformer.VisitCompare | simplipy/simplify/simplify.py:34-59 | the same as `HoistCompare` |
| Simplify.ExpressionTransformer.VisitCall | simplipy/simplify/simplify.py:34-59 | `visit_Call` is `HoistCall` |
| Simplify.ExpressionTransformer.VisitList | simplipy/simplify/simplify.py:36 | the list comprehension over the arguments is `HoistFrom` |
| Simplify.SimplipyConverter.constructor | simplipy/simplify/simplify.py:67-72 | counter 0 |
| Simplify.SimplipyConverter.GenerateTempVar | simplipy/simplify/simplify.py:74-77 | the next temporary's name, the counter advanced by one |
| Simplify.SimplipyConverter.TransformExpression | simplipy/simplify/simplify.py:79-88 | a fresh transformer, counter 0: `Hoist` from 0 |
| Simplify.SimplipyConverter.TransformArgs | simplipy/simplify/simplify.py:105-110 | the argument loop is `HoistArgs` |
| Simplify.SimplipyConverter.VisitAssign | simplipy/simplify/simplify.py:90-152 | `visit_Assign` is `ConvAssign` and leaves the counter |
| Simplify.SimplipyConverter.VisitExpr | simplipy/simplify/simplify.py:154-204 | `visit_Expr` is `ConvExpr` |
| Simplify.SimplipyConverter.VisitReturn | simplipy/simplify/simplify.py:296-307 | `visit_Return` is `ConvReturn` |
| Simplify.SimplipyConverter.VisitIf | simplipy/simplify/simplify.py:206-226 | `visit_If` is `ConvIf` |
| Simplify.SimplipyConverter.VisitWhile | simplipy/simplify/simplify.py:228-253 | `visit_While` is `ConvWhile` |
| Simplify.SimplipyConverter.VisitFunctionDef | simplipy/simplify/simplify.py:255-294 | `visit_FunctionDef` is `ConvDef` |
| Simplify.SimplipyConverter.Visit | simplipy/simplify/simplify.py:321-355 | the dispatch is `ConvStmt` |
| Simplify.SimplipyConverter.VisitStatements | simplipy/simplify/simplify.py:309-319 | `visit_statements` is `ConvFrom` |
| Simplify.SimplipyConverter.Transform | simplipy/simplify/simplify.py:399-419 | `transform` converts the module body as `TransformFrom` |
| Simplify.SimplifyModule | simplipy/simplify/simplify.py:422-445 | `simplify_python_code` is `TransformFrom` with per-argument numbering from a fresh converter |
| Pipeline.ConvStmtOut | simplipy/simplify/simplify.py:321-355 | every statement a converted statement becomes is accepted by the parser |
| Pipeline.ConvFromOut | simplipy/simplify/simplify.py:309-319 | every statement a converted run becomes is accepted |
| Pipeline.SimplifiedParses | simplipy/simplify/simplify.py:422-445 | a module whose callees are names and that the simplifier does not refuse becomes, with either numbering, a module the parser accepts |

## Left out

- I/O is not modelled. Source text, `ast.parse`, `ast.unparse`, `black`
  formatting and `print` are outside the model. The parser and the
  simplifier take a `PyAst.Module` and give one back.
- Source locations are not modelled. Column offsets and
  `fix_missing_locations` are dropped. Every statement the simplifier
  creates carries the line of the statement it comes from.
- Expressions are modelled only in part. They are constants (int, bool,
  None), names, unary and binary operators, comparisons, calls, and one
  `OtherExpr` for every other kind, which keeps its children. Python
  strings, floats, tuples and lists are not modelled.
- Float and identity results are not modelled. A float result (`/`, a
  negative power) is the `Unmodelled` error. So is every `is` and
  `is not` comparison, whatever its operands, and `==` between two
  Bottom objects.
- Keyword names are not kept. Only keyword values are, since no code
  reads the names.
- `generic_visit` of `SimplipyConverter` is modelled only in part. The
  statement kinds it refuses are `PyAst.Unsupported`. Its descent into
  other statement kinds (`NodeTransformer.generic_visit`) is not
  modelled, because the parser refuses those kinds anyway.
- `to_dict`, `as_dict` and `__str__`/`__repr__` are not modelled. They
  only print.
- `DoneStatement` is not modelled. It wraps a `DoneInstr` that no file
  defines.
- Parent references are paths from the root, so object identity and
  aliasing of statements are not modelled.
- Machine.Eval, Machine.StepSpec: their own contracts state only the
  kind of value and the change of stack depth. The state methods are
  proved equal to them, and `MachineProps` (StepInv, ChainAll,
  ChainStops, LookupDynamic) states the rest of their properties.
- Values.Equal: identity between two Bottom objects is the
  `Unmodelled` error, not a truth value.
- Parse.AssignStep, Parse.IfStep, Parse.WhileStep, Parse.DefStep,
  Parse.ReturnStep, Parse.NonlocalStep, Parse.GlobalStep,
  Parse.VisitStmt, Parse.VisitInto, Parse.ParseProgram: their own
  contracts state only the stack depth and some error cases. What they
  append and record is stated by the `*Grows`, `*Accepted` and
  `*Recorded` lemmas and `ParsedTree`.
- Simplify.ConvAssign, Simplify.ConvExpr, Simplify.ConvReturn,
  Simplify.ConvIf, Simplify.ConvWhile, Simplify.ConvDef,
  Simplify.TransformFrom: their own contracts state the refusals and
  the last statement produced. The full shapes are stated by the
  `*Shape` lemmas, `PassThrough` and `Pipeline`.
- Simplify.Hoist, Simplify.HoistBinOp, Simplify.HoistCompare,
  Simplify.HoistCall, Simplify.HoistFrom, Simplify.HoistArgs,
  Simplify.PerArgumentFrom: their own contracts state the shape of the
  result. Which input each piece stands for, the count, the refusals,
  definition before use and the round trip are stated by `HoistProps`.
- Tree.Last: which empty block makes it raise IndexError is stated only
  by its definition. Its contract and `LastIsFinalLeaf` state the line
  on success and the kind of error.
- Ctf.CtfTables: its own contract states only the empty program. The
  tables' contents are stated by `CtfProps` (CtfOk, CtfKeys, CtfValues).
- MachineProps.FinalIff, CtfProps.CtfValues, CtfProps.ReturnHasNoNextRow,
  CtfProps.AsWrittenDefHasNoNextRow: they assume one statement per line
  (`UniqueLines`). With two statements on one line the
  instruction map and the tables keep the later one (see below).

## Discrepancies between the code and its apparent design

- Python rejects the code as written, and the model repairs it.
  `Block.__init__` (simplipy/parse/types.py:35) takes no `lexical`
  argument, yet the parser passes one (simplipy/parse/parse.py:36 and
  131), and the blocks carry no `locals`, `globals` or `nonlocals` sets
  either. The model gives blocks these fields, as the parser and the
  machine use them.
- The parser ignores a `while` loop's `else` block without an error
  (`Parse.Rejections`).
- The parser also ignores the keyword arguments of an assigned call.
- The simplifier hoists a `while` test's calls once, before the loop,
  so later iterations test a stale temporary (`Simplify.WhileShape`).
- The simplifier turns an expression statement that is not a call into
  `pass`. Calls nested inside it are dropped.
- The simplifier's `ExpressionTransformer` does not visit a callee.
  Unsupported expression kinds inside expressions are not refused there.
- The `AsyncFunctionDef` check in `visit_FunctionDef` cannot fire, since
  `visit` sends only `FunctionDef` nodes there.
- `_populate_instr_map` keys instructions by line. A def and a return on
  the same line keep only the later one, as the map fold in `InstrMap`
  does.
- `step` builds a `NotImplementedError` for an unknown instruction but
  does not raise it, so the step is a no-op. The only such instruction
  is `ElseInstr`.

## Findings

| source | as written | input that shows it | evidently intended | confidence | as-written member | corrected member |
|---|---|---|---|---|---|---|
| simplipy/ctf/ctf.py:36-41 | a def and the last top-level statement get no `next` row | any program ending in a simple statement: `is_final` never holds, and stepping past `def f(): ...` raises KeyError | a `next` row for every def and a fixed-point row for the last top-level statement, as tests/test_ctf.py expects (`23: 23`) | high, not executed | CtfProps.AsWrittenNoFixpoint | CtfProps.IntendedFixpointIff |
| simplipy/semantics/state.py:124-125 | every local of the callee, the formals included, is set to Bottom after the arguments are bound | `def f(x): x = x + 1` then `y = f(1)`: `x + 1` is evaluated with `x` bound to Bottom, and `Bottom + 1` is a TypeError | locals that are not formals become Bottom; the arguments stay bound | medium, not executed | MachineProps.FrameAsWrittenLosesArgument | Machine.Frame |
| simplipy/simplify/simplify.py:105-110 | each argument of a direct call gets a fresh `ExpressionTransformer`, whose numbering restarts at 0 | `x = f(g(1), h(2))` becomes `_simplipy_temp_0 = g(1)`, `_simplipy_temp_0 = h(2)`, `x = f(_simplipy_temp_0, _simplipy_temp_0)` | one counter across the arguments, giving distinct temporaries | high, not executed | Simplify.PerArgumentReusesTemp | Simplify.ThreadedTempsDistinct |

The machine runs on the corrected tables (`Ctf.Intended`) and uses the
corrected frame (`Machine.Frame`). The simplifier is modelled with both
numberings (`Simplify.ArgCounter`). `Simplify.SimplifyModule` uses the
source's per-argument numbering, and `Pipeline.SimplifiedParses` holds
for both.
