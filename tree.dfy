/** simplipy/parse/types.py and simplipy/parse/statement.py: the program
    tree. A block is a list of statements; a statement wraps one
    instruction, or a header instruction and its sub-blocks. Statements
    keep the index they were given when added to their block (`idx`).
    Parent references are replaced by paths (module Paths). */
module Tree {
  import opened Wrappers
  import opened PyAst
  import opened Expression
  import opened Instruction

  /** The instruction of a single-instruction statement (Global, Nonlocal,
      Pass, ExpAssign, CallAssign, Break, Continue, Ret); the headers of
      compound statements are excluded. */
  type SimpleInstr = i: Instr | !i.IfI? && !i.WhileI? && !i.DefI? witness PassI(0)
  type IfHeader = i: Instr | i.IfI? witness IfI(0, Expression(Constant(NoneC)))
  type WhileHeader = i: Instr | i.WhileI? witness WhileI(0, Expression(Constant(NoneC)))
  type DefHeader = i: Instr | i.DefI? witness DefI(0, [], [])

  datatype Stmt =
    | Simple(instr: SimpleInstr, idx: nat)
    | IfStmt(ifInstr: IfHeader, ifBlock: Block, elseBlock: Block, idx: nat)
    | WhileStmt(whileInstr: WhileHeader, body: Block, idx: nat)
    | DefStmt(defInstr: DefHeader, body: Block, idx: nat)

  /** `lexical` and the three name sets are what the parser and the
      machine read from a block (lexical blocks are the root and function
      bodies). */
  datatype Block = Block(
    stmts: seq<Stmt>,
    lexical: bool,
    locals: set<string>,
    globals: set<string>,
    nonlocals: set<string>)

  datatype Program = Program(block: Block)

  /** The statement classes of statement.py; `ElseK` is a statement
      holding the one instruction no statement class wraps. */
  datatype Kind =
    | GlobalK | NonlocalK | PassK | ExpAssignK | CallAssignK
    | BreakK | ContinueK | RetK | ElseK | IfK | WhileK | DefK

  function KindOf(s: Stmt): Kind
  {
    match s
    case IfStmt(_, _, _, _) => IfK
    case WhileStmt(_, _, _) => WhileK
    case DefStmt(_, _, _) => DefK
    case Simple(i, _) =>
      match i
      case GlobalI(_, _) => GlobalK
      case NonlocalI(_, _) => NonlocalK
      case PassI(_) => PassK
      case ExprAssignI(_, _, _) => ExpAssignK
      case CallAssignI(_, _, _, _) => CallAssignK
      case BreakI(_) => BreakK
      case ContinueI(_) => ContinueK
      case RetI(_, _) => RetK
      case ElseI(_) => ElseK
  }

  function EmptyBlock(lexical: bool): Block
  {
    Block([], lexical, {}, {}, {})
  }

  /** `first()`: the line of the statement's own (header) instruction. */
  function First(s: Stmt): int
  {
    match s
    case Simple(i, _) => i.line
    case IfStmt(h, _, _, _) => h.line
    case WhileStmt(h, _, _) => h.line
    case DefStmt(h, _, _) => h.line
  }

  /** `first_instr()`: the instruction a control transfer lands on. */
  function FirstInstr(s: Stmt): (i: Instr)
    ensures i.line == First(s)
    ensures s.Simple? <==> !(i.IfI? || i.WhileI? || i.DefI?)
    ensures KindOf(s) == IfK <==> i.IfI?
    ensures KindOf(s) == WhileK <==> i.WhileI?
    ensures KindOf(s) == DefK <==> i.DefI?
  {
    match s
    case Simple(i, _) => i
    case IfStmt(h, _, _, _) => h
    case WhileStmt(h, _, _) => h
    case DefStmt(h, _, _) => h
  }

  /** `last()`: the line of the last single-instruction statement reached
      by descending into the else-block of an if and the body of a while
      or def; `IndexError` when one of those blocks is empty. */
  function Last(s: Stmt): (r: Result<int>)
    ensures s.Simple? ==> r == Ok(First(s))
    ensures r.Ok? ==> exists d :: d in Leaves(s) && d.line == r.value
    ensures r.Err? ==> r.error == IndexError
  {
    match s
    case Simple(i, _) =>
      assert i in Leaves(s);
      Ok(i.line)
    case IfStmt(_, _, eb, _) => BlockLast(eb)
    case WhileStmt(_, b, _) => BlockLast(b)
    case DefStmt(_, b, _) => BlockLast(b)
  }

  /** `Block.last()`: `last()` of the final statement. */
  function BlockLast(b: Block): (r: Result<int>)
    ensures |b.stmts| == 0 ==> r == Err(IndexError)
    ensures |b.stmts| > 0 ==> r == Last(b.stmts[|b.stmts| - 1])
    ensures r.Ok? ==> exists d :: d in BlockLeaves(b) && d.line == r.value
    ensures r.Err? ==> r.error == IndexError
  {
    if |b.stmts| == 0 then Err(IndexError)
    else
      var r := Last(b.stmts[|b.stmts| - 1]);
      if r.Ok? then
        var d :| d in Leaves(b.stmts[|b.stmts| - 1]) && d.line == r.value;
        assert d in BlockLeaves(b);
        r
      else r
  }

  /** `Block.first()`: `first()` of the first statement. */
  function BlockFirst(b: Block): (r: Result<int>)
    ensures |b.stmts| == 0 ==> r == Err(IndexError)
    ensures |b.stmts| > 0 ==> r == Ok(FirstInstr(b.stmts[0]).line)
  {
    if |b.stmts| == 0 then Err(IndexError) else Ok(First(b.stmts[0]))
  }

  /** The single instructions of a statement, at any depth. */
  function Leaves(s: Stmt): set<Instr>
  {
    match s
    case Simple(i, _) => {i}
    case IfStmt(_, ib, eb, _) => BlockLeaves(ib) + BlockLeaves(eb)
    case WhileStmt(_, b, _) => BlockLeaves(b)
    case DefStmt(_, b, _) => BlockLeaves(b)
  }

  function BlockLeaves(b: Block): set<Instr>
  {
    set j, i | 0 <= j < |b.stmts| && i in Leaves(b.stmts[j]) :: i
  }

  /** The single instructions of a statement in source order: an
      if-block before its else-block, each block statement by statement. */
  function LeafSeq(s: Stmt): seq<Instr>
  {
    match s
    case Simple(i, _) => [i]
    case IfStmt(_, ib, eb, _) => BlockLeafSeq(ib) + BlockLeafSeq(eb)
    case WhileStmt(_, b, _) => BlockLeafSeq(b)
    case DefStmt(_, b, _) => BlockLeafSeq(b)
  }

  function BlockLeafSeq(b: Block): seq<Instr>
  {
    LeafSeqOf(b.stmts)
  }

  function LeafSeqOf(ss: seq<Stmt>): seq<Instr>
  {
    if ss == [] then [] else LeafSeqOf(ss[..|ss| - 1]) + LeafSeq(ss[|ss| - 1])
  }

  /** `last()` is the line of the statement's final instruction in
      source order. */
  lemma {:induction false} LastIsFinalLeaf(s: Stmt)
    ensures Last(s).Ok? ==> LeafSeq(s) != [] && Last(s).value == LeafSeq(s)[|LeafSeq(s)| - 1].line
  {
    if s.IfStmt? {
      BlockLastIsFinalLeaf(s.elseBlock);
      assert Last(s) == BlockLast(s.elseBlock);
      assert LeafSeq(s) == BlockLeafSeq(s.ifBlock) + BlockLeafSeq(s.elseBlock);
      LastOfAppend(BlockLeafSeq(s.ifBlock), BlockLeafSeq(s.elseBlock));
    } else if s.WhileStmt? || s.DefStmt? {
      BlockLastIsFinalLeaf(s.body);
      assert Last(s) == BlockLast(s.body) && LeafSeq(s) == BlockLeafSeq(s.body);
    }
  }

  lemma {:induction false} BlockLastIsFinalLeaf(b: Block)
    ensures BlockLast(b).Ok? ==>
      BlockLeafSeq(b) != [] && BlockLast(b).value == BlockLeafSeq(b)[|BlockLeafSeq(b)| - 1].line
  {
    if |b.stmts| > 0 {
      var n := |b.stmts| - 1;
      LastIsFinalLeaf(b.stmts[n]);
      assert BlockLeafSeq(b) == LeafSeqOf(b.stmts[..n]) + LeafSeq(b.stmts[n]);
    }
  }

  lemma LastOfAppend(a: seq<Instr>, b: seq<Instr>)
    ensures b != [] ==> (a + b)[|a + b| - 1] == b[|b| - 1]
  {
  }

  /** The ordered leaves are exactly the leaves. */
  lemma {:induction false} LeafSeqSet(s: Stmt)
    ensures forall i :: i in LeafSeq(s) <==> i in Leaves(s)
  {
    match s
    case Simple(_, _) =>
    case IfStmt(_, ib, eb, _) =>
      BlockLeafSeqSet(ib);
      BlockLeafSeqSet(eb);
    case WhileStmt(_, b, _) => BlockLeafSeqSet(b);
    case DefStmt(_, b, _) => BlockLeafSeqSet(b);
  }

  lemma {:induction false} BlockLeafSeqSet(b: Block)
    ensures forall i :: i in BlockLeafSeq(b) <==> i in BlockLeaves(b)
  {
    LeafSeqOfSet(b.stmts);
  }

  lemma {:induction false} LeafSeqOfSet(ss: seq<Stmt>)
    ensures forall i :: i in LeafSeqOf(ss) <==> exists j :: 0 <= j < |ss| && i in Leaves(ss[j])
  {
    if ss != [] {
      var n := |ss| - 1;
      LeafSeqOfSet(ss[..n]);
      LeafSeqSet(ss[n]);
      forall i | i in LeafSeqOf(ss)
        ensures exists j :: 0 <= j < |ss| && i in Leaves(ss[j])
      {
        if i in LeafSeqOf(ss[..n]) {
          var j :| 0 <= j < n && i in Leaves(ss[..n][j]);
          assert i in Leaves(ss[j]);
        } else {
          assert i in Leaves(ss[n]);
        }
      }
      forall i, j | 0 <= j < |ss| && i in Leaves(ss[j])
        ensures i in LeafSeqOf(ss)
      {
        if j < n {
          assert i in Leaves(ss[..n][j]);
        }
      }
    }
  }

  /** `Block._add_stmt`: append at the end. */
  function AddStmt(b: Block, s: Stmt): (r: Block)
    ensures |r.stmts| == |b.stmts| + 1
    ensures r.stmts[..|b.stmts|] == b.stmts && r.stmts[|b.stmts|] == s
    ensures r.lexical == b.lexical && r.locals == b.locals
    ensures r.globals == b.globals && r.nonlocals == b.nonlocals
  {
    b.(stmts := b.stmts + [s])
  }

  /** `Statement.set_idx`: only the index changes. */
  function SetIdx(s: Stmt, idx: nat): (r: Stmt)
    ensures r.idx == idx
    ensures KindOf(r) == KindOf(s) && FirstInstr(r) == FirstInstr(s)
    ensures r.IfStmt? ==> r.ifBlock == s.ifBlock && r.elseBlock == s.elseBlock
    ensures r.WhileStmt? || r.DefStmt? ==> r.body == s.body
  {
    s.(idx := idx)
  }

  /** Every statement's stored index is its position in its block, at
      every depth. */
  predicate WellIndexedBlock(b: Block)
  {
    forall j :: 0 <= j < |b.stmts| ==> b.stmts[j].idx == j && WellIndexedStmt(b.stmts[j])
  }

  predicate WellIndexedStmt(s: Stmt)
  {
    match s
    case Simple(_, _) => true
    case IfStmt(_, ib, eb, _) => WellIndexedBlock(ib) && WellIndexedBlock(eb)
    case WhileStmt(_, b, _) => WellIndexedBlock(b)
    case DefStmt(_, b, _) => WellIndexedBlock(b)
  }
}
