/** simplipy/ctf/stf.py: the statement transfer functions `next`, `true`
    and `false`. Each maps a statement (by path) to the statement control
    moves to. */
module Stf {
  import opened Wrappers
  import opened Tree
  import opened Paths
  import opened Helper

  /** `next`: `continue` goes to the enclosing while, `break` to what
      follows it, `return` has no successor; any other statement goes to
      the following statement of its block, or, when it is the last one
      (judged by its stored index), to the successor of the statement
      owning the block -- or to itself in the root block. Terminates
      because every recursive call is on a strict ancestor. */
  function Next(root: Block, p: StmtPath): (r: Result<StmtPath>)
    requires ValidPath(root, p)
    ensures r.Ok? ==> ValidPath(root, r.value) && |r.value.block| <= |p.block|
    decreases |p.block|
  {
    var s := StmtAt(root, p).value;
    match KindOf(s)
    case ContinueK => EnclWhile(root, p)
    case BreakK =>
      var w :- EnclWhile(root, p);
      Next(root, w)
    case RetK => Err(ValueError)
    case _ =>
      var b := BlockAt(root, p.block).value;
      if s.idx == |b.stmts| - 1 then
        if p.block == [] then Ok(p)
        else
          ParentValid(root, p);
          Next(root, ParentStmt(p.block))
      else if s.idx + 1 < |b.stmts| then Ok(StmtPath(p.block, s.idx + 1))
      else Err(IndexError)
  }

  /** The sub-block `true` enters. */
  function TrueBranch(s: Stmt): Branch
  {
    if s.IfStmt? then IfBranch else BodyBranch
  }

  /** `true`: the first statement of a while body or of an if-block;
      `ValueError` for any other statement, `IndexError` for an empty
      block. */
  function True(root: Block, p: StmtPath): (r: Result<StmtPath>)
    requires ValidPath(root, p)
    ensures r.Ok? <==> (StmtAt(root, p).value.WhileStmt? || StmtAt(root, p).value.IfStmt?)
                       && |SubBlock(StmtAt(root, p).value, TrueBranch(StmtAt(root, p).value)).value.stmts| > 0
    ensures r.Ok? ==> ValidPath(root, r.value) && r.value.index == 0
                      && r.value.block == ChildBlock(p, TrueBranch(StmtAt(root, p).value))
    ensures r.Err? && !(StmtAt(root, p).value.WhileStmt? || StmtAt(root, p).value.IfStmt?) ==> r.error == ValueError
  {
    var s := StmtAt(root, p).value;
    if s.WhileStmt? || s.IfStmt? then
      var blk := if s.WhileStmt? then s.body else s.ifBlock;
      if |blk.stmts| > 0 then
        ChildParent(root, p, TrueBranch(s));
        Ok(StmtPath(ChildBlock(p, TrueBranch(s)), 0))
      else Err(IndexError)
    else Err(ValueError)
  }

  /** `false`: the first statement of an else-block, and for a while what
      follows the loop (its `next`); `ValueError` for any other statement. */
  function False(root: Block, p: StmtPath): (r: Result<StmtPath>)
    requires ValidPath(root, p)
    ensures StmtAt(root, p).value.WhileStmt? ==> r == Next(root, p)
    ensures StmtAt(root, p).value.IfStmt? ==>
      (r.Ok? <==> |StmtAt(root, p).value.elseBlock.stmts| > 0)
      && (r.Ok? ==> ValidPath(root, r.value) && r.value == StmtPath(ChildBlock(p, ElseBranch), 0))
    ensures !(StmtAt(root, p).value.WhileStmt? || StmtAt(root, p).value.IfStmt?) ==> r == Err(ValueError)
  {
    var s := StmtAt(root, p).value;
    if s.WhileStmt? then Next(root, p)
    else if s.IfStmt? then
      if |s.elseBlock.stmts| > 0 then
        ChildParent(root, p, ElseBranch);
        Ok(StmtPath(ChildBlock(p, ElseBranch), 0))
      else Err(IndexError)
    else Err(ValueError)
  }

  /** A statement that only falls through. */
  predicate FallsThrough(s: Stmt)
  {
    KindOf(s) != ContinueK && KindOf(s) != BreakK && KindOf(s) != RetK
  }

  /** In a well-indexed tree, `next` of a fall-through statement that is
      not last in its block is the statement after it. */
  lemma NextFollowing(root: Block, p: StmtPath)
    requires WellIndexedBlock(root) && ValidPath(root, p)
    requires FallsThrough(StmtAt(root, p).value)
    requires p.index + 1 < |BlockAt(root, p.block).value.stmts|
    ensures Next(root, p) == Ok(StmtPath(p.block, p.index + 1))
  {
    WellIndexedAt(root, p);
  }

  /** ... and of the last statement of a nested block it is `next` of the
      statement owning that block. */
  lemma NextNestedFinal(root: Block, p: StmtPath)
    requires WellIndexedBlock(root) && ValidPath(root, p)
    requires FallsThrough(StmtAt(root, p).value)
    requires p.block != [] && p.index == |BlockAt(root, p.block).value.stmts| - 1
    ensures ValidPath(root, ParentStmt(p.block))
    ensures Next(root, p) == Next(root, ParentStmt(p.block))
  {
    WellIndexedAt(root, p);
    ParentValid(root, p);
  }

  /** `next` has exactly one fixed point in a well-indexed tree: the last
      top-level statement, unless that is a `continue`, `break` or
      `return`. */
  lemma NextFixpointIff(root: Block, p: StmtPath)
    requires WellIndexedBlock(root) && ValidPath(root, p)
    ensures Next(root, p) == Ok(p) <==>
      p.block == [] && p.index == |root.stmts| - 1 && FallsThrough(StmtAt(root, p).value)
  {
    WellIndexedAt(root, p);
    var s := StmtAt(root, p).value;
    if KindOf(s) == BreakK {
      var w := EnclWhile(root, p);
      if w.Ok? {
        assert Next(root, p) == Next(root, w.value);
      }
    } else if FallsThrough(s) && p.block != [] && p.index == |BlockAt(root, p.block).value.stmts| - 1 {
      ParentValid(root, p);
      assert Next(root, p) == Next(root, ParentStmt(p.block));
    }
  }

  /** The jumps of `next`: a `continue` goes to its nearest enclosing
      while, a `break` to what follows that while, and a `return` has no
      successor (ValueError). With no enclosing while, both jumps are a
      SyntaxError. */
  lemma NextJumps(root: Block, p: StmtPath)
    requires ValidPath(root, p)
    ensures KindOf(StmtAt(root, p).value) == ContinueK ==> Next(root, p) == EnclWhile(root, p)
    ensures KindOf(StmtAt(root, p).value) == BreakK ==>
      Next(root, p) == (if EnclWhile(root, p).Ok? then Next(root, EnclWhile(root, p).value)
                        else Err(EnclWhile(root, p).error))
    ensures KindOf(StmtAt(root, p).value) == RetK ==> Next(root, p) == Err(ValueError)
    ensures EnclWhile(root, p).Ok? <==>
      exists k :: 0 <= k < |p.block| && AncestorHasKind(root, p, k, WhileK)
    ensures EnclWhile(root, p).Ok? ==>
      forall k :: |EnclWhile(root, p).value.block| < k < |p.block| ==> !AncestorHasKind(root, p, k, WhileK)
  {
    EnclOkIff(WhileK, root, p);
    if EnclWhile(root, p).Ok? {
      EnclNearest(WhileK, root, p);
    }
  }
}
