/** Parent references of the program tree, as paths from the root block.
    A block is reached by a sequence of steps (statement index, which
    sub-block); its parent statement is the statement named by the last
    step, and that statement's parent block is the path without it. The
    root block is the one block without a parent. */
module Paths {
  import opened Wrappers
  import opened Tree

  datatype Branch = IfBranch | ElseBranch | BodyBranch
  datatype Step = Step(index: nat, branch: Branch)
  type BlockPath = seq<Step>
  datatype StmtPath = StmtPath(block: BlockPath, index: nat)

  /** The sub-block of `s` that a branch names: `if_block`, `else_block`,
      or `block` of a while or def. */
  function SubBlock(s: Stmt, br: Branch): Option<Block>
  {
    match s
    case IfStmt(_, ib, eb, _) =>
      if br == IfBranch then Some(ib) else if br == ElseBranch then Some(eb) else None
    case WhileStmt(_, b, _) => if br == BodyBranch then Some(b) else None
    case DefStmt(_, b, _) => if br == BodyBranch then Some(b) else None
    case Simple(_, _) => None
  }

  function BlockAt(root: Block, q: BlockPath): Option<Block>
    decreases |q|
  {
    if q == [] then Some(root)
    else
      match BlockAt(root, q[..|q| - 1])
      case None => None
      case Some(b) =>
        var st := q[|q| - 1];
        if st.index < |b.stmts| then SubBlock(b.stmts[st.index], st.branch) else None
  }

  function StmtAt(root: Block, p: StmtPath): Option<Stmt>
  {
    match BlockAt(root, p.block)
    case None => None
    case Some(b) => if p.index < |b.stmts| then Some(b.stmts[p.index]) else None
  }

  predicate ValidPath(root: Block, p: StmtPath)
  {
    StmtAt(root, p).Some?
  }

  /** The statement a nested block belongs to (`block.parent`). */
  function ParentStmt(q: BlockPath): StmtPath
    requires q != []
  {
    StmtPath(q[..|q| - 1], q[|q| - 1].index)
  }

  /** The block path of sub-block `br` of the statement at `p`. */
  function ChildBlock(p: StmtPath, br: Branch): BlockPath
  {
    p.block + [Step(p.index, br)]
  }

  /** The statement constructors link parent references: the parent of every
      sub-block of a statement is that statement, and the sub-block found
      there is the statement's own. */
  lemma ChildParent(root: Block, p: StmtPath, br: Branch)
    requires ValidPath(root, p)
    ensures ParentStmt(ChildBlock(p, br)) == p
    ensures BlockAt(root, ChildBlock(p, br)) == SubBlock(StmtAt(root, p).value, br)
  {
    var q := ChildBlock(p, br);
    assert q[..|q| - 1] == p.block;
  }

  /** A statement in a nested block has a valid parent statement, whose
      sub-block is that nested block. */
  lemma ParentValid(root: Block, p: StmtPath)
    requires ValidPath(root, p) && p.block != []
    ensures ValidPath(root, ParentStmt(p.block))
    ensures SubBlock(StmtAt(root, ParentStmt(p.block)).value, p.block[|p.block| - 1].branch)
              == BlockAt(root, p.block)
  {
  }

  /** Walking a path in two pieces is walking it at once. */
  lemma {:induction false} BlockAtAppend(root: Block, q: BlockPath, r: BlockPath)
    ensures BlockAt(root, q + r) ==
      match BlockAt(root, q) case None => None case Some(b) => BlockAt(b, r)
    decreases |r|
  {
    if r == [] {
      assert q + r == q;
    } else {
      var qr := q + r;
      assert qr[..|qr| - 1] == q + r[..|r| - 1];
      assert qr[|qr| - 1] == r[|r| - 1];
      BlockAtAppend(root, q, r[..|r| - 1]);
    }
  }

  /** The first step of a path enters a sub-block of the root. */
  lemma BlockAtFront(b: Block, st: Step, r: BlockPath)
    ensures BlockAt(b, [st] + r) ==
      if st.index < |b.stmts| then
        match SubBlock(b.stmts[st.index], st.branch) case None => None case Some(c) => BlockAt(c, r)
      else None
  {
    BlockAtAppend(b, [st], r);
  }

  /** A prefix of a valid block path is valid. */
  lemma {:induction false} PrefixValid(root: Block, q: BlockPath, k: nat)
    requires BlockAt(root, q).Some? && k <= |q|
    ensures BlockAt(root, q[..k]).Some?
    decreases |q|
  {
    if k < |q| {
      assert q[..|q| - 1][..k] == q[..k];
      PrefixValid(root, q[..|q| - 1], k);
    } else {
      assert q[..k] == q;
    }
  }

  // ---------------------------------------------------------------------
  // Pre-order enumeration of all statements: a statement, then the
  // statements of its sub-blocks (if-block before else-block), then the
  // following statement. This is the order of `get_ctfs` and
  // `_populate_instr_map`.

  function PathsIn(b: Block, q: BlockPath): seq<StmtPath>
    decreases b, 2
  {
    PathsFrom(b, q, 0)
  }

  function PathsFrom(b: Block, q: BlockPath, i: nat): seq<StmtPath>
    decreases b, 1, |b.stmts| - i
  {
    if i >= |b.stmts| then []
    else [StmtPath(q, i)] + SubPaths(b.stmts[i], q, i) + PathsFrom(b, q, i + 1)
  }

  function SubPaths(s: Stmt, q: BlockPath, i: nat): seq<StmtPath>
    decreases s
  {
    match s
    case Simple(_, _) => []
    case IfStmt(_, ib, eb, _) =>
      PathsIn(ib, q + [Step(i, IfBranch)]) + PathsIn(eb, q + [Step(i, ElseBranch)])
    case WhileStmt(_, b, _) => PathsIn(b, q + [Step(i, BodyBranch)])
    case DefStmt(_, b, _) => PathsIn(b, q + [Step(i, BodyBranch)])
  }

  /** `p` lies under `q`, and relative to `q` it names a statement of `b`. */
  predicate Under(b: Block, q: BlockPath, p: StmtPath)
  {
    |q| <= |p.block| && p.block[..|q|] == q && StmtAt(b, StmtPath(p.block[|q|..], p.index)).Some?
  }

  lemma {:induction false} SoundFrom(b: Block, q: BlockPath, i: nat, p: StmtPath)
    requires p in PathsFrom(b, q, i)
    ensures Under(b, q, p)
    decreases b, 1, |b.stmts| - i
  {
    if p == StmtPath(q, i) {
      assert p.block[|q|..] == [];
    } else if p in SubPaths(b.stmts[i], q, i) {
      var s := b.stmts[i];
      var br: Branch;
      var c: Block;
      if s.IfStmt? && p in PathsIn(s.ifBlock, q + [Step(i, IfBranch)]) {
        br, c := IfBranch, s.ifBlock;
      } else if s.IfStmt? {
        br, c := ElseBranch, s.elseBlock;
      } else {
        br, c := BodyBranch, s.body;
      }
      assert p in PathsIn(c, q + [Step(i, br)]);
      SoundFrom(c, q + [Step(i, br)], 0, p);
      SoundStep(b, q, Step(i, br), c, p);
    } else {
      SoundFrom(b, q, i + 1, p);
    }
  }

  /** One step of `SoundFrom`: a path under a sub-block is under the block. */
  lemma SoundStep(b: Block, q: BlockPath, st: Step, c: Block, p: StmtPath)
    requires st.index < |b.stmts| && SubBlock(b.stmts[st.index], st.branch) == Some(c)
    requires Under(c, q + [st], p)
    ensures Under(b, q, p)
  {
    var q' := q + [st];
    var r := p.block[|q'|..];
    assert p.block[|q|..] == [st] + r;
    BlockAtFront(b, st, r);
    assert p.block[..|q|] == p.block[..|q'|][..|q|];
  }

  lemma {:induction false} FromMonotone(b: Block, q: BlockPath, i: nat, k: nat, p: StmtPath)
    requires i <= k && p in PathsFrom(b, q, k)
    ensures p in PathsFrom(b, q, i)
    decreases k - i
  {
    if i < k {
      FromMonotone(b, q, i + 1, k, p);
    }
  }

  lemma {:induction false} CompleteIn(b: Block, q: BlockPath, r: BlockPath, j: nat)
    requires StmtAt(b, StmtPath(r, j)).Some?
    ensures StmtPath(q + r, j) in PathsIn(b, q)
    decreases |r|
  {
    if r == [] {
      assert q + r == q;
      FromMonotone(b, q, 0, j, StmtPath(q, j));
    } else {
      var st := r[0];
      BlockAtFront(b, st, r[1..]);
      assert [st] + r[1..] == r;
      var s := b.stmts[st.index];
      var c := SubBlock(s, st.branch).value;
      var q' := q + [st];
      CompleteIn(c, q', r[1..], j);
      assert q' + r[1..] == q + r;
      assert StmtPath(q + r, j) in SubPaths(s, q, st.index);
      FromMonotone(b, q, 0, st.index, StmtPath(q + r, j));
    }
  }

  /** The traversal reaches every statement of every nested if, else,
      while and def block, and nothing else. */
  lemma PreorderComplete(root: Block, p: StmtPath)
    ensures p in PathsIn(root, []) <==> ValidPath(root, p)
  {
    if p in PathsIn(root, []) {
      SoundFrom(root, [], 0, p);
      assert p.block[0..] == p.block;
    }
    if ValidPath(root, p) {
      CompleteIn(root, [], p.block, p.index);
      assert [] + p.block == p.block;
    }
  }

  /** Stored indices agree with positions on every valid path of a
      well-indexed tree. */
  lemma {:induction false} WellIndexedAt(b: Block, p: StmtPath)
    requires WellIndexedBlock(b) && ValidPath(b, p)
    ensures StmtAt(b, p).value.idx == p.index
    decreases |p.block|
  {
    if p.block != [] {
      var st := p.block[0];
      var r := p.block[1..];
      assert [st] + r == p.block;
      BlockAtFront(b, st, r);
      var s := b.stmts[st.index];
      var c := SubBlock(s, st.branch).value;
      assert WellIndexedStmt(s);
      assert WellIndexedBlock(c);
      WellIndexedAt(c, StmtPath(r, p.index));
    }
  }
}
