/** simplipy/ctf/helper.py: the nearest enclosing statement of a kind. */
module Helper {
  import opened Wrappers
  import opened Tree
  import opened Paths

  /** The ancestor statement whose sub-block is at depth `k + 1` on the
      way from the root to `p`. */
  function Ancestor(p: StmtPath, k: nat): StmtPath
    requires k < |p.block|
  {
    StmtPath(p.block[..k], p.block[k].index)
  }

  lemma AncestorValid(root: Block, p: StmtPath, k: nat)
    requires ValidPath(root, p) && k < |p.block|
    ensures ValidPath(root, Ancestor(p, k))
    ensures SubBlock(StmtAt(root, Ancestor(p, k)).value, p.block[k].branch) == BlockAt(root, p.block[..k + 1])
  {
    PrefixValid(root, p.block, k + 1);
    var q := p.block[..k + 1];
    assert q[..|q| - 1] == p.block[..k];
  }

  /** `encl(T, s)`: look at the statement owning `s`'s block, then at the
      one owning that statement's block, and so on; `SyntaxError` once the
      root block is reached. */
  function Encl(kind: Kind, root: Block, p: StmtPath): (r: Result<StmtPath>)
    requires ValidPath(root, p)
    ensures r.Ok? ==> |r.value.block| < |p.block| && ValidPath(root, r.value)
    ensures r.Ok? ==> KindOf(StmtAt(root, r.value).value) == kind
    ensures r.Ok? ==> r.value == Ancestor(p, |r.value.block|)
    ensures r.Err? ==> r.error == SyntaxError
    decreases |p.block|
  {
    if p.block == [] then Err(SyntaxError)
    else
      var ps := ParentStmt(p.block);
      ParentValid(root, p);
      if KindOf(StmtAt(root, ps).value) == kind then Ok(ps)
      else
        var r := Encl(kind, root, ps);
        if r.Ok? then
          assert p.block[..|p.block| - 1][..|r.value.block|] == p.block[..|r.value.block|];
          r
        else r
  }

  /** `encl_while`. */
  function EnclWhile(root: Block, p: StmtPath): (r: Result<StmtPath>)
    requires ValidPath(root, p)
    ensures r.Ok? ==> |r.value.block| < |p.block| && ValidPath(root, r.value)
    ensures r.Ok? ==> KindOf(StmtAt(root, r.value).value) == WhileK
    ensures r.Err? ==> r.error == SyntaxError
  {
    Encl(WhileK, root, p)
  }

  predicate AncestorHasKind(root: Block, p: StmtPath, k: nat, kind: Kind)
    requires k < |p.block|
  {
    var a := StmtAt(root, Ancestor(p, k));
    a.Some? && KindOf(a.value) == kind
  }

  /** The ancestors of a statement's parent are its own ancestors, minus
      that parent. */
  lemma AncestorOfParent(root: Block, p: StmtPath, k: nat, kind: Kind)
    requires k + 1 < |p.block|
    ensures Ancestor(ParentStmt(p.block), k) == Ancestor(p, k)
    ensures AncestorHasKind(root, ParentStmt(p.block), k, kind) <==> AncestorHasKind(root, p, k, kind)
  {
    assert p.block[..|p.block| - 1][..k] == p.block[..k];
  }

  /** `encl` succeeds exactly when some strict ancestor has the kind. */
  lemma {:induction false} EnclOkIff(kind: Kind, root: Block, p: StmtPath)
    requires ValidPath(root, p)
    ensures Encl(kind, root, p).Ok? <==>
      exists k :: 0 <= k < |p.block| && AncestorHasKind(root, p, k, kind)
    decreases |p.block|
  {
    if p.block != [] {
      var n := |p.block|;
      var ps := ParentStmt(p.block);
      ParentValid(root, p);
      assert ps == Ancestor(p, n - 1);
      if KindOf(StmtAt(root, ps).value) != kind {
        EnclOkIff(kind, root, ps);
        forall k | 0 <= k < n - 1
          ensures AncestorHasKind(root, ps, k, kind) <==> AncestorHasKind(root, p, k, kind)
        {
          AncestorOfParent(root, p, k, kind);
        }
        assert !AncestorHasKind(root, p, n - 1, kind);
      } else {
        assert AncestorHasKind(root, p, n - 1, kind);
      }
    }
  }

  /** What `encl` returns is the NEAREST such ancestor: none of the
      statements between it and `p` has the kind. */
  lemma {:induction false} EnclNearest(kind: Kind, root: Block, p: StmtPath)
    requires ValidPath(root, p) && Encl(kind, root, p).Ok?
    ensures forall k :: |Encl(kind, root, p).value.block| < k < |p.block| ==>
      !AncestorHasKind(root, p, k, kind)
    decreases |p.block|
  {
    var n := |p.block|;
    var ps := ParentStmt(p.block);
    ParentValid(root, p);
    assert ps == Ancestor(p, n - 1);
    if KindOf(StmtAt(root, ps).value) != kind {
      EnclNearest(kind, root, ps);
      var d := |Encl(kind, root, p).value.block|;
      assert d == |Encl(kind, root, ps).value.block|;
      forall k | d < k < n
        ensures !AncestorHasKind(root, p, k, kind)
      {
        if k < n - 1 {
          AncestorOfParent(root, p, k, kind);
        }
      }
    }
  }

  /** A statement directly in a while body, or directly in an if/else
      block that itself sits directly in that body, has that while as its
      `encl_while`. */
  lemma EnclWhileOfBody(root: Block, w: StmtPath, p: StmtPath)
    requires ValidPath(root, p) && ValidPath(root, w)
    requires StmtAt(root, w).value.WhileStmt?
    requires p.block == ChildBlock(w, BodyBranch)
      || (|p.block| == |w.block| + 2 && p.block[..|w.block| + 1] == ChildBlock(w, BodyBranch)
          && p.block[|w.block| + 1].branch != BodyBranch)
    ensures EnclWhile(root, p) == Ok(w)
  {
    var q := p.block;
    if q == ChildBlock(w, BodyBranch) {
      assert ParentStmt(q) == w;
    } else {
      var ps := ParentStmt(q);
      ParentValid(root, p);
      assert ps.block == ChildBlock(w, BodyBranch);
      assert ParentStmt(ps.block) == w;
      var s := StmtAt(root, ps).value;
      assert SubBlock(s, q[|q| - 1].branch).Some?;
      assert s.IfStmt?;
      ParentValid(root, ps);
      assert Encl(WhileK, root, ps) == Ok(w);
    }
  }
}
