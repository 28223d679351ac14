/** simplipy/ctf/ctf.py: control transfer functions on instructions and
    their tables by line number. */
module Ctf {
  import opened Wrappers
  import opened Instruction
  import opened Tree
  import opened Paths
  import opened Stf

  datatype Transfer = NextT | TrueT | FalseT

  function ApplyStf(f: Transfer, root: Block, p: StmtPath): (r: Result<StmtPath>)
    requires ValidPath(root, p)
    ensures r.Ok? ==> ValidPath(root, r.value)
  {
    match f
    case NextT => Next(root, p)
    case TrueT => True(root, p)
    case FalseT => False(root, p)
  }

  /** `construct_ctf(stf)`: the instruction control moves to from the
      instruction of the statement at `p` is the first instruction of
      `stf` of that statement. */
  function ConstructCtf(f: Transfer, root: Block, p: StmtPath): (r: Result<Instr>)
    requires ValidPath(root, p)
    ensures r.Ok? <==> ApplyStf(f, root, p).Ok?
    ensures r.Ok? ==> r.value.line == First(StmtAt(root, ApplyStf(f, root, p).value).value)
  {
    var target :- ApplyStf(f, root, p);
    Ok(FirstInstr(StmtAt(root, target).value))
  }

  /** The three tables of `get_ctfs`, keyed by the line of a statement. */
  datatype Tables = Tables(next: map<int, int>, trueT: map<int, int>, falseT: map<int, int>)

  datatype Which = NextW | TrueW | FalseW

  function Tab(t: Tables, w: Which): map<int, int>
  {
    match w
    case NextW => t.next
    case TrueW => t.trueT
    case FalseW => t.falseT
  }

  function TransferOf(w: Which): Transfer
  {
    match w
    case NextW => NextT
    case TrueW => TrueT
    case FalseW => FalseT
  }

  /** `AsWritten` is ctf.py as it stands: no `next` row for a def or for
      the last top-level statement. `Intended` (tests/test_ctf.py) emits
      both. */
  datatype NextRows = AsWritten | Intended

  /** Which rows the statement at `p` contributes. */
  predicate HasRow(mode: NextRows, root: Block, p: StmtPath, w: Which)
  {
    ValidPath(root, p) &&
    var s := StmtAt(root, p).value;
    match w
    case TrueW => s.IfStmt? || s.WhileStmt?
    case FalseW => s.IfStmt? || s.WhileStmt?
    case NextW =>
      !s.IfStmt? && !s.WhileStmt? && KindOf(s) != RetK &&
      (mode == AsWritten ==>
        !s.DefStmt? && !(p.block == [] && s.idx == |root.stmts| - 1))
  }

  /** The value of row `w` for the statement at `p`. */
  function RowLine(root: Block, p: StmtPath, w: Which): Result<int>
  {
    if !ValidPath(root, p) then Err(KeyError)
    else
      var i :- ConstructCtf(TransferOf(w), root, p);
      Ok(i.line)
  }

  predicate RowOk(mode: NextRows, root: Block, p: StmtPath)
  {
    forall w :: HasRow(mode, root, p, w) ==> RowLine(root, p, w).Ok?
  }

  function Put(mode: NextRows, root: Block, t: Tables, p: StmtPath, w: Which): map<int, int>
    requires RowOk(mode, root, p)
  {
    if HasRow(mode, root, p, w) then Tab(t, w)[First(StmtAt(root, p).value) := RowLine(root, p, w).value]
    else Tab(t, w)
  }

  /** One iteration of `visit_all_instrs`: compute the rows of one
      statement (`true` before `false`) and enter them; the first
      transfer function that raises aborts the whole construction. */
  function Row(mode: NextRows, root: Block, t: Tables, p: StmtPath): (r: Result<Tables>)
    ensures r.Ok? <==> RowOk(mode, root, p)
    ensures r.Err? ==> exists w :: HasRow(mode, root, p, w) && RowLine(root, p, w) == Err(r.error)
    ensures r.Ok? ==> forall w :: !HasRow(mode, root, p, w) ==> Tab(r.value, w) == Tab(t, w)
  {
    if HasRow(mode, root, p, TrueW) && RowLine(root, p, TrueW).Err? then Err(RowLine(root, p, TrueW).error)
    else if HasRow(mode, root, p, FalseW) && RowLine(root, p, FalseW).Err? then Err(RowLine(root, p, FalseW).error)
    else if HasRow(mode, root, p, NextW) && RowLine(root, p, NextW).Err? then Err(RowLine(root, p, NextW).error)
    else
      assert RowOk(mode, root, p) by {
        forall w | HasRow(mode, root, p, w) ensures RowLine(root, p, w).Ok? {
          if w.NextW? {} else if w.TrueW? {} else {}
        }
      }
      Ok(Tables(Put(mode, root, t, p, NextW), Put(mode, root, t, p, TrueW), Put(mode, root, t, p, FalseW)))
  }

  /** The rows of a sequence of statements, entered in order. */
  function FoldRows(mode: NextRows, root: Block, t: Result<Tables>, ps: seq<StmtPath>): Result<Tables>
    decreases ps
  {
    if ps == [] || t.Err? then t
    else FoldRows(mode, root, Row(mode, root, t.value, ps[0]), ps[1..])
  }

  function EmptyTables(): Tables
  {
    Tables(map[], map[], map[])
  }

  /** `get_ctfs` as a pure function: every statement, in pre-order. */
  function CtfTables(mode: NextRows, root: Block): (r: Result<Tables>)
    ensures root.stmts == [] ==> r == Ok(EmptyTables())
  {
    assert root.stmts == [] ==> PathsFrom(root, [], 0) == [];
    FoldRows(mode, root, Ok(EmptyTables()), PathsIn(root, []))
  }

  lemma {:induction false} FoldErr(mode: NextRows, root: Block, e: Error, ps: seq<StmtPath>)
    ensures FoldRows(mode, root, Err(e), ps) == Err(e)
  {
  }

  lemma {:induction false} FoldAppend(mode: NextRows, root: Block, t: Result<Tables>, a: seq<StmtPath>, b: seq<StmtPath>)
    ensures FoldRows(mode, root, t, a + b) == FoldRows(mode, root, FoldRows(mode, root, t, a), b)
    decreases a
  {
    if a == [] {
      assert a + b == b;
    } else if t.Ok? {
      assert (a + b)[1..] == a[1..] + b;
      FoldAppend(mode, root, Row(mode, root, t.value, a[0]), a[1..], b);
    }
  }

  /** `get_ctfs`, with the table filled in place by a recursive walk. */
  method GetCtfs(mode: NextRows, pgm: Program) returns (r: Result<Tables>)
    ensures r == CtfTables(mode, pgm.block)
  {
    r := VisitAllInstrs(mode, pgm.block, pgm.block, [], EmptyTables());
  }

  /** The work left at statement `i`: its own rows, then its sub-blocks,
      then the statements after it. */
  lemma FoldFrom(mode: NextRows, root: Block, b: Block, q: BlockPath, i: nat, cur: Tables)
    requires i < |b.stmts|
    ensures FoldRows(mode, root, Ok(cur), PathsFrom(b, q, i)) ==
      FoldRows(mode, root, FoldRows(mode, root, Row(mode, root, cur, StmtPath(q, i)), SubPaths(b.stmts[i], q, i)),
               PathsFrom(b, q, i + 1))
  {
    var p := StmtPath(q, i);
    var sub := SubPaths(b.stmts[i], q, i);
    assert PathsFrom(b, q, i) == [p] + sub + PathsFrom(b, q, i + 1);
    FoldAppend(mode, root, Ok(cur), [p] + sub, PathsFrom(b, q, i + 1));
    FoldAppend(mode, root, Ok(cur), [p], sub);
  }

  /** `visit_all_instrs(blk)` for the block at `q`. */
  method VisitAllInstrs(mode: NextRows, root: Block, b: Block, q: BlockPath, t: Tables) returns (r: Result<Tables>)
    requires BlockAt(root, q) == Some(b)
    ensures r == FoldRows(mode, root, Ok(t), PathsIn(b, q))
    decreases b
  {
    var cur := t;
    var i := 0;
    while i < |b.stmts|
      invariant 0 <= i <= |b.stmts|
      invariant FoldRows(mode, root, Ok(t), PathsIn(b, q)) == FoldRows(mode, root, Ok(cur), PathsFrom(b, q, i))
    {
      var p := StmtPath(q, i);
      FoldFrom(mode, root, b, q, i, cur);
      var row := Row(mode, root, cur, p);
      if row.Err? {
        FoldErr(mode, root, row.error, SubPaths(b.stmts[i], q, i));
        FoldErr(mode, root, row.error, PathsFrom(b, q, i + 1));
        return row;
      }
      var sub := VisitSubBlocks(mode, root, b.stmts[i], p, row.value);
      if sub.Err? {
        FoldErr(mode, root, sub.error, PathsFrom(b, q, i + 1));
        return sub;
      }
      cur := sub.value;
      i := i + 1;
    }
    r := Ok(cur);
  }

  /** The recursive calls of `visit_all_instrs` on the sub-blocks of the
      statement at `p`: if-block then else-block, or the body. */
  method VisitSubBlocks(mode: NextRows, root: Block, s: Stmt, p: StmtPath, t: Tables) returns (r: Result<Tables>)
    requires StmtAt(root, p) == Some(s)
    ensures r == FoldRows(mode, root, Ok(t), SubPaths(s, p.block, p.index))
    decreases s
  {
    var q, i := p.block, p.index;
    if s.IfStmt? {
      ChildParent(root, p, IfBranch);
      ChildParent(root, p, ElseBranch);
      var q1, q2 := q + [Step(i, IfBranch)], q + [Step(i, ElseBranch)];
      FoldAppend(mode, root, Ok(t), PathsIn(s.ifBlock, q1), PathsIn(s.elseBlock, q2));
      r := VisitAllInstrs(mode, root, s.ifBlock, q1, t);
      if r.Ok? {
        r := VisitAllInstrs(mode, root, s.elseBlock, q2, r.value);
      } else {
        FoldErr(mode, root, r.error, PathsIn(s.elseBlock, q2));
      }
    } else if s.WhileStmt? || s.DefStmt? {
      ChildParent(root, p, BodyBranch);
      r := VisitAllInstrs(mode, root, s.body, q + [Step(i, BodyBranch)], t);
    } else {
      r := Ok(t);
    }
  }
}
