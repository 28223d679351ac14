/** Properties of the call hoisting of `ExpressionTransformer`
    (simplipy/simplify/simplify.py:16-59) and of the argument loop of
    `SimplipyConverter` (simplify.py:105-110): how many assignments are
    hoisted and which piece of the input each stands for, when the
    rewrite is refused, which temporaries each piece may read, and that
    substituting the hoisted calls back for their temporaries gives the
    input again. */
module HoistProps {
  import opened Wrappers
  import opened PyAst
  import opened Simplify

  // ---------------------------------------------------------------------
  // Reference definitions

  /** The call nodes of `e` outside a callee position: the nodes
      `visit_Call` is reached for. */
  function CallCount(e: Expr): nat
  {
    match e
    case Constant(_) => 0
    case Name(_) => 0
    case UnaryOp(_, x) => CallCount(x)
    case BinOp(l, _, r) => CallCount(l) + CallCount(r)
    case Compare(l, _, cs) => CallCount(l) + CallCountSeq(cs)
    case Call(_, xs, _) => 1 + CallCountSeq(xs)
    case OtherExpr(cs) => CallCountSeq(cs)
  }

  function CallCountSeq(es: seq<Expr>): nat
  {
    if es == [] then 0 else CallCount(es[0]) + CallCountSeq(es[1..])
  }

  /** Some call of `e` outside a callee position passes keyword
      arguments. */
  predicate KeywordCall(e: Expr)
  {
    match e
    case Constant(_) => false
    case Name(_) => false
    case UnaryOp(_, x) => KeywordCall(x)
    case BinOp(l, _, r) => KeywordCall(l) || KeywordCall(r)
    case Compare(l, _, cs) => KeywordCall(l) || KeywordCallIn(cs)
    case Call(_, xs, ks) => ks != [] || KeywordCallIn(xs)
    case OtherExpr(cs) => KeywordCallIn(cs)
  }

  predicate KeywordCallIn(es: seq<Expr>)
  {
    exists j :: 0 <= j < |es| && KeywordCall(es[j])
  }

  /** `e` with every read of the variable `id` replaced by `v`; keyword
      arguments are kept as they are. */
  function Subst(e: Expr, id: string, v: Expr): Expr
  {
    match e
    case Constant(_) => e
    case Name(x) => if x == id then v else e
    case UnaryOp(op, x) => UnaryOp(op, Subst(x, id, v))
    case BinOp(l, op, r) => BinOp(Subst(l, id, v), op, Subst(r, id, v))
    case Compare(l, ops, cs) => Compare(Subst(l, id, v), ops, SubstSeq(cs, id, v))
    case Call(f, xs, ks) => Call(Subst(f, id, v), SubstSeq(xs, id, v), ks)
    case OtherExpr(cs) => OtherExpr(SubstSeq(cs, id, v))
  }

  function SubstSeq(es: seq<Expr>, id: string, v: Expr): (r: seq<Expr>)
    ensures |r| == |es|
  {
    seq(|es|, i requires 0 <= i < |es| => Subst(es[i], id, v))
  }

  /** A statement that assigns one plain variable. */
  predicate Defines(s: Stmt)
  {
    s.Assign? && |s.targets| == 1 && s.targets[0].Name?
  }

  /** `x` with the assignments of `pre` substituted back for the
      variables they define, the last assignment first, so that a value
      reading an earlier temporary is expanded in turn. */
  function Inline(x: Expr, pre: seq<Stmt>): Expr
    decreases |pre|
  {
    if pre == [] then x
    else
      var s := pre[|pre| - 1];
      Inline(if Defines(s) then Subst(x, s.targets[0].id, s.value) else x, pre[..|pre| - 1])
  }

  function InlineSeq(es: seq<Expr>, pre: seq<Stmt>): (r: seq<Expr>)
    ensures |r| == |es|
  {
    seq(|es|, i requires 0 <= i < |es| => Inline(es[i], pre))
  }

  /** No temporary numbered `n` or more is read by `e`. */
  ghost predicate FreshFrom(e: Expr, n: nat)
  {
    forall j: nat :: n <= j ==> TempName(j) !in Names(e)
  }

  ghost predicate FreshFromSeq(es: seq<Expr>, n: nat)
  {
    forall j: nat :: n <= j ==> TempName(j) !in NamesOfSeq(es)
  }

  // ---------------------------------------------------------------------
  // Helper lemmas

  lemma {:induction false} NamesOfSeqElem(es: seq<Expr>, i: nat)
    requires i < |es|
    ensures Names(es[i]) <= NamesOfSeq(es)
  {
    if i > 0 {
      NamesOfSeqElem(es[1..], i - 1);
    }
  }

  /** The counts of a sequence split at its head. */
  lemma CallCountSeqFrom(es: seq<Expr>, k: nat)
    requires k < |es|
    ensures CallCountSeq(es[k..]) == CallCount(es[k]) + CallCountSeq(es[k + 1..])
    ensures NamesOfSeq(es[k..]) == Names(es[k]) + NamesOfSeq(es[k + 1..])
  {
    assert es[k..][1..] == es[k + 1..];
  }

  lemma {:induction false} SubstFresh(e: Expr, id: string, v: Expr)
    requires id !in Names(e)
    ensures Subst(e, id, v) == e
  {
    match e
    case Constant(_) =>
    case Name(_) =>
    case UnaryOp(_, x) => SubstFresh(x, id, v);
    case BinOp(l, _, r) =>
      SubstFresh(l, id, v);
      SubstFresh(r, id, v);
    case Compare(l, _, cs) =>
      SubstFresh(l, id, v);
      SubstSeqFresh(cs, id, v);
    case Call(f, xs, _) =>
      SubstFresh(f, id, v);
      SubstSeqFresh(xs, id, v);
    case OtherExpr(cs) => SubstSeqFresh(cs, id, v);
  }

  lemma {:induction false} SubstSeqFresh(es: seq<Expr>, id: string, v: Expr)
    requires id !in NamesOfSeq(es)
    ensures SubstSeq(es, id, v) == es
  {
    forall i | 0 <= i < |es|
      ensures SubstSeq(es, id, v)[i] == es[i]
    {
      NamesOfSeqElem(es, i);
      SubstFresh(es[i], id, v);
    }
  }

  /** Substituting back `a + b` is substituting back `b`, then `a`. */
  lemma {:induction false} InlineAppend(x: Expr, a: seq<Stmt>, b: seq<Stmt>)
    ensures Inline(x, a + b) == Inline(Inline(x, b), a)
    decreases |b|
  {
    if b == [] {
      assert a + b == a;
    } else {
      var s := b[|b| - 1];
      var y := if Defines(s) then Subst(x, s.targets[0].id, s.value) else x;
      assert (a + b)[..|a + b| - 1] == a + b[..|b| - 1];
      InlineAppend(y, a, b[..|b| - 1]);
    }
  }

  /** Substituting back assignments to temporaries that `x` does not
      read leaves `x` unchanged. */
  lemma {:induction false} InlineFresh(x: Expr, pre: seq<Stmt>, m: nat, line: int)
    requires NumberedFrom(pre, m, line)
    requires forall j: nat :: m <= j < m + |pre| ==> TempName(j) !in Names(x)
    ensures Inline(x, pre) == x
    decreases |pre|
  {
    if pre != [] {
      var k := |pre| - 1;
      SubstFresh(x, TempName(m + k), pre[k].value);
      assert NumberedFrom(pre[..k], m, line) by {
        forall i | 0 <= i < k
          ensures pre[..k][i] == pre[i]
        {
        }
      }
      InlineFresh(x, pre[..k], m, line);
    }
  }

  lemma InlineSeqFresh(es: seq<Expr>, pre: seq<Stmt>, m: nat, line: int)
    requires NumberedFrom(pre, m, line)
    requires forall j: nat :: m <= j < m + |pre| ==> TempName(j) !in NamesOfSeq(es)
    ensures InlineSeq(es, pre) == es
  {
    forall i | 0 <= i < |es|
      ensures InlineSeq(es, pre)[i] == es[i]
    {
      NamesOfSeqElem(es, i);
      InlineFresh(es[i], pre, m, line);
    }
  }

  /** Substituting back `b` and then `a`, where `a` assigns temporaries
      the result of `b` does not read. */
  lemma InlineSeqAppend(xs: seq<Expr>, a: seq<Stmt>, b: seq<Stmt>, ys: seq<Expr>, m: nat, line: int)
    requires InlineSeq(xs, b) == ys && NumberedFrom(a, m, line)
    requires forall j: nat :: m <= j < m + |a| ==> TempName(j) !in NamesOfSeq(ys)
    ensures InlineSeq(xs, a + b) == ys
  {
    forall i | 0 <= i < |xs|
      ensures Inline(xs[i], a + b) == ys[i]
    {
      InlineAppend(xs[i], a, b);
      NamesOfSeqElem(ys, i);
      InlineFresh(ys[i], a, m, line);
    }
  }

  lemma InlineSeqCons(x: Expr, xs: seq<Expr>, pre: seq<Stmt>)
    ensures InlineSeq([x] + xs, pre) == [Inline(x, pre)] + InlineSeq(xs, pre)
  {
  }

  /** Substituting back goes through every node but a callee's keyword
      arguments. */
  lemma {:induction false} InlineNode(x: Expr, pre: seq<Stmt>)
    ensures x.UnaryOp? ==> Inline(x, pre) == UnaryOp(x.uop, Inline(x.operand, pre))
    ensures x.BinOp? ==> Inline(x, pre) == BinOp(Inline(x.left, pre), x.bop, Inline(x.right, pre))
    ensures x.Compare? ==>
      Inline(x, pre) == Compare(Inline(x.first, pre), x.ops, InlineSeq(x.comparators, pre))
    ensures x.Call? ==> Inline(x, pre) == Call(Inline(x.func, pre), InlineSeq(x.args, pre), x.keywords)
    ensures x.OtherExpr? ==> Inline(x, pre) == OtherExpr(InlineSeq(x.children, pre))
    decreases |pre|
  {
    if pre != [] {
      var s := pre[|pre| - 1];
      var p := pre[..|pre| - 1];
      if Defines(s) {
        var id, v := s.targets[0].id, s.value;
        InlineNode(Subst(x, id, v), p);
        if x.Compare? || x.Call? || x.OtherExpr? {
          var cs := if x.Compare? then x.comparators else if x.Call? then x.args else x.children;
          assert InlineSeq(SubstSeq(cs, id, v), p) == InlineSeq(cs, pre);
        }
      } else {
        InlineNode(x, p);
        if x.Compare? || x.Call? || x.OtherExpr? {
          var cs := if x.Compare? then x.comparators else if x.Call? then x.args else x.children;
          assert InlineSeq(cs, p) == InlineSeq(cs, pre);
        }
      }
    }
  }

  // ---------------------------------------------------------------------
  // How many calls are hoisted, and when the rewrite is refused

  /** `visit` hoists one assignment per call outside a callee position,
      and refuses exactly when one of those calls has keyword
      arguments. */
  lemma {:induction false} HoistCount(e: Expr, n: nat, line: int)
    ensures Hoist(e, n, line).Err? <==> KeywordCall(e)
    ensures Hoist(e, n, line).Ok? ==> |Hoist(e, n, line).value.pre| == CallCount(e)
    decreases e, 1
  {
    match e
    case Constant(_) =>
    case Name(_) =>
    case UnaryOp(_, x) => HoistCount(x, n, line);
    case BinOp(_, _, _) => HoistBinOpCount(e, n, line);
    case Compare(_, _, _) => HoistCompareCount(e, n, line);
    case Call(_, _, _) => HoistCallCount(e, n, line);
    case OtherExpr(cs) =>
      HoistFromCount(cs, 0, n, line);
      assert cs[0..] == cs;
  }

  lemma {:induction false} HoistBinOpCount(e: Expr, n: nat, line: int)
    requires e.BinOp?
    ensures HoistBinOp(e, n, line).Err? <==> KeywordCall(e)
    ensures HoistBinOp(e, n, line).Ok? ==> |HoistBinOp(e, n, line).value.pre| == CallCount(e)
    decreases e, 0
  {
    HoistCount(e.left, n, line);
    if Hoist(e.left, n, line).Ok? {
      HoistCount(e.right, n + |Hoist(e.left, n, line).value.pre|, line);
    }
  }

  lemma {:induction false} HoistCompareCount(e: Expr, n: nat, line: int)
    requires e.Compare?
    ensures HoistCompare(e, n, line).Err? <==> KeywordCall(e)
    ensures HoistCompare(e, n, line).Ok? ==> |HoistCompare(e, n, line).value.pre| == CallCount(e)
    decreases e, 0
  {
    HoistCount(e.first, n, line);
    if Hoist(e.first, n, line).Ok? {
      HoistFromCount(e.comparators, 0, n + |Hoist(e.first, n, line).value.pre|, line);
      assert e.comparators[0..] == e.comparators;
    }
  }

  lemma {:induction false} HoistCallCount(e: Expr, n: nat, line: int)
    requires e.Call?
    ensures HoistCall(e, n, line).Err? <==> KeywordCall(e)
    ensures HoistCall(e, n, line).Ok? ==> |HoistCall(e, n, line).value.pre| == CallCount(e)
    decreases e, 0
  {
    HoistFromCount(e.args, 0, n, line);
    assert e.args[0..] == e.args;
  }

  lemma {:induction false} HoistFromCount(es: seq<Expr>, k: nat, n: nat, line: int)
    requires k <= |es|
    ensures HoistFrom(es, k, n, line).Err? <==> exists i :: k <= i < |es| && KeywordCall(es[i])
    ensures HoistFrom(es, k, n, line).Ok? ==> |HoistFrom(es, k, n, line).value.pre| == CallCountSeq(es[k..])
    decreases es, 0, |es| - k
  {
    if k < |es| {
      CallCountSeqFrom(es, k);
      HoistCount(es[k], n, line);
      if Hoist(es[k], n, line).Ok? {
        HoistFromCount(es, k + 1, n + |Hoist(es[k], n, line).value.pre|, line);
      }
    }
  }

  /** An expression without calls is left as it is, with nothing
      hoisted. */
  lemma {:induction false} HoistCallFree(e: Expr, n: nat, line: int)
    requires !ContainsCall(e)
    ensures Hoist(e, n, line) == Ok(Hoisted(e, []))
    decreases e, 1
  {
    match e
    case Constant(_) =>
    case Name(_) =>
    case UnaryOp(_, x) => HoistCallFree(x, n, line);
    case BinOp(l, _, r) =>
      HoistCallFree(l, n, line);
      HoistCallFree(r, n, line);
      assert Hoist(r, n + |Hoist(l, n, line).value.pre|, line) == Ok(Hoisted(r, []));
      var none: seq<Stmt> := [];
      assert none + none == none;
    case Compare(l, _, cs) =>
      HoistCallFree(l, n, line);
      HoistFromCallFree(cs, 0, n, line);
      assert cs[0..] == cs;
      assert HoistFrom(cs, 0, n + |Hoist(l, n, line).value.pre|, line) == Ok(HoistedSeq(cs, []));
      var none: seq<Stmt> := [];
      assert none + none == none;
    case OtherExpr(cs) =>
      HoistFromCallFree(cs, 0, n, line);
      assert cs[0..] == cs;
  }

  lemma {:induction false} HoistFromCallFree(es: seq<Expr>, k: nat, n: nat, line: int)
    requires k <= |es| && forall i :: k <= i < |es| ==> !ContainsCall(es[i])
    ensures HoistFrom(es, k, n, line) == Ok(HoistedSeq(es[k..], []))
    decreases es, 0, |es| - k
  {
    if k < |es| {
      HoistCallFree(es[k], n, line);
      HoistFromCallFree(es, k + 1, n, line);
      assert HoistFrom(es, k + 1, n + |Hoist(es[k], n, line).value.pre|, line) == Ok(HoistedSeq(es[k + 1..], []));
      assert [es[k]] + es[k + 1..] == es[k..];
      var none: seq<Stmt> := [];
      assert none + none == none;
    }
  }

  // ---------------------------------------------------------------------
  // Which temporaries each piece reads

  /** Every temporary in `xs` is one of `es` or is numbered
      `lo <= j < hi`. */
  ghost predicate TempsWithin(xs: set<string>, es: set<string>, lo: nat, hi: nat)
  {
    forall j: nat :: TempName(j) in xs ==> TempName(j) in es || lo <= j < hi
  }

  /** Definition before use: assignment `i` of `pre` reads, besides the
      temporaries of `es`, only temporaries numbered from `lo` up to but
      excluding its own number `n + i`. */
  ghost predicate DefinedBefore(pre: seq<Stmt>, es: set<string>, lo: nat, n: nat)
  {
    forall i :: 0 <= i < |pre| ==> pre[i].Assign? && TempsWithin(Names(pre[i].value), es, lo, n + i)
  }

  lemma DefinedBeforeAppend(a: seq<Stmt>, b: seq<Stmt>, ea: set<string>, eb: set<string>, es: set<string>, lo: nat, n: nat)
    requires DefinedBefore(a, ea, lo, n) && ea <= es
    requires DefinedBefore(b, eb, lo, n + |a|) && eb <= es
    ensures DefinedBefore(a + b, es, lo, n)
  {
    forall i | 0 <= i < |a + b|
      ensures (a + b)[i].Assign? && TempsWithin(Names((a + b)[i].value), es, lo, n + i)
    {
      if i >= |a| {
        assert (a + b)[i] == b[i - |a|];
      }
    }
  }

  /** The rewritten expression reads no temporary `e` does not read
      except those hoisted for it, and every hoisted call reads only
      temporaries assigned before it. */
  lemma {:induction false} HoistNames(e: Expr, n: nat, line: int)
    ensures Hoist(e, n, line).Ok? ==>
      TempsWithin(Names(Hoist(e, n, line).value.expr), Names(e), n, n + |Hoist(e, n, line).value.pre|)
    ensures Hoist(e, n, line).Ok? ==> DefinedBefore(Hoist(e, n, line).value.pre, Names(e), n, n)
    decreases e, 1
  {
    match e
    case Constant(_) =>
    case Name(_) =>
    case UnaryOp(_, x) => HoistNames(x, n, line);
    case BinOp(_, _, _) => HoistBinOpNames(e, n, line);
    case Compare(_, _, _) => HoistCompareNames(e, n, line);
    case Call(_, _, _) => HoistCallNames(e, n, line);
    case OtherExpr(cs) =>
      HoistFromNames(cs, 0, n, line);
      assert cs[0..] == cs;
  }

  lemma {:induction false} HoistBinOpNames(e: Expr, n: nat, line: int)
    requires e.BinOp?
    ensures HoistBinOp(e, n, line).Ok? ==>
      TempsWithin(Names(HoistBinOp(e, n, line).value.expr), Names(e), n, n + |HoistBinOp(e, n, line).value.pre|)
    ensures HoistBinOp(e, n, line).Ok? ==> DefinedBefore(HoistBinOp(e, n, line).value.pre, Names(e), n, n)
    decreases e, 0
  {
    if HoistBinOp(e, n, line).Ok? {
      var hl := Hoist(e.left, n, line).value;
      var hr := Hoist(e.right, n + |hl.pre|, line).value;
      HoistNames(e.left, n, line);
      HoistNames(e.right, n + |hl.pre|, line);
      DefinedBeforeAppend(hl.pre, hr.pre, Names(e.left), Names(e.right), Names(e), n, n);
    }
  }

  lemma {:induction false} HoistCompareNames(e: Expr, n: nat, line: int)
    requires e.Compare?
    ensures HoistCompare(e, n, line).Ok? ==>
      TempsWithin(Names(HoistCompare(e, n, line).value.expr), Names(e), n, n + |HoistCompare(e, n, line).value.pre|)
    ensures HoistCompare(e, n, line).Ok? ==> DefinedBefore(HoistCompare(e, n, line).value.pre, Names(e), n, n)
    decreases e, 0
  {
    if HoistCompare(e, n, line).Ok? {
      var hl := Hoist(e.first, n, line).value;
      var hs := HoistFrom(e.comparators, 0, n + |hl.pre|, line).value;
      HoistNames(e.first, n, line);
      HoistFromNames(e.comparators, 0, n + |hl.pre|, line);
      assert e.comparators[0..] == e.comparators;
      DefinedBeforeAppend(hl.pre, hs.pre, Names(e.first), NamesOfSeq(e.comparators), Names(e), n, n);
    }
  }

  lemma {:induction false} HoistCallNames(e: Expr, n: nat, line: int)
    requires e.Call?
    ensures HoistCall(e, n, line).Ok? ==>
      TempsWithin(Names(HoistCall(e, n, line).value.expr), Names(e), n, n + |HoistCall(e, n, line).value.pre|)
    ensures HoistCall(e, n, line).Ok? ==> DefinedBefore(HoistCall(e, n, line).value.pre, Names(e), n, n)
    decreases e, 0
  {
    if HoistCall(e, n, line).Ok? {
      var hs := HoistFrom(e.args, 0, n, line).value;
      var m := n + |hs.pre|;
      var a := TempAssignment(line, m, e.func, hs.exprs);
      HoistFromNames(e.args, 0, n, line);
      assert e.args[0..] == e.args;
      forall j: nat | TempName(j) in Names(Name(TempName(m)))
        ensures j == m
      {
        TempNameInjective(j, m);
      }
      assert DefinedBefore([a], Names(e), n, m);
      DefinedBeforeAppend(hs.pre, [a], NamesOfSeq(e.args), Names(e), Names(e), n, n);
    }
  }

  lemma {:induction false} HoistFromNames(es: seq<Expr>, k: nat, n: nat, line: int)
    requires k <= |es|
    ensures HoistFrom(es, k, n, line).Ok? ==>
      TempsWithin(NamesOfSeq(HoistFrom(es, k, n, line).value.exprs), NamesOfSeq(es[k..]), n,
                  n + |HoistFrom(es, k, n, line).value.pre|)
    ensures HoistFrom(es, k, n, line).Ok? ==> DefinedBefore(HoistFrom(es, k, n, line).value.pre, NamesOfSeq(es[k..]), n, n)
    decreases es, 0, |es| - k
  {
    if k < |es| && HoistFrom(es, k, n, line).Ok? {
      var h := Hoist(es[k], n, line).value;
      var rest := HoistFrom(es, k + 1, n + |h.pre|, line).value;
      HoistNames(es[k], n, line);
      HoistFromNames(es, k + 1, n + |h.pre|, line);
      CallCountSeqFrom(es, k);
      assert ([h.expr] + rest.exprs)[1..] == rest.exprs;
      DefinedBeforeAppend(h.pre, rest.pre, Names(es[k]), NamesOfSeq(es[k + 1..]), NamesOfSeq(es[k..]), n, n);
    }
  }

  // ---------------------------------------------------------------------
  // Round trip

  /** Substituting the hoisted calls back for their temporaries gives the
      input again, when the input reads no temporary the rewrite could
      assign. */
  lemma {:induction false} HoistRoundTrip(e: Expr, n: nat, line: int)
    requires FreshFrom(e, n)
    ensures Hoist(e, n, line).Ok? ==> Inline(Hoist(e, n, line).value.expr, Hoist(e, n, line).value.pre) == e
    decreases e, 1
  {
    match e
    case Constant(_) =>
    case Name(_) =>
    case UnaryOp(_, x) =>
      if Hoist(e, n, line).Ok? {
        var h := Hoist(x, n, line).value;
        HoistRoundTrip(x, n, line);
        InlineNode(UnaryOp(e.uop, h.expr), h.pre);
      }
    case BinOp(_, _, _) => HoistBinOpRoundTrip(e, n, line);
    case Compare(_, _, _) => HoistCompareRoundTrip(e, n, line);
    case Call(_, _, _) => HoistCallRoundTrip(e, n, line);
    case OtherExpr(cs) =>
      if Hoist(e, n, line).Ok? {
        var hs := HoistFrom(cs, 0, n, line).value;
        assert cs[0..] == cs;
        HoistFromRoundTrip(cs, 0, n, line);
        InlineNode(OtherExpr(hs.exprs), hs.pre);
      }
  }

  lemma {:induction false} HoistBinOpRoundTrip(e: Expr, n: nat, line: int)
    requires e.BinOp? && FreshFrom(e, n)
    ensures HoistBinOp(e, n, line).Ok? ==>
      Inline(HoistBinOp(e, n, line).value.expr, HoistBinOp(e, n, line).value.pre) == e
    decreases e, 0
  {
    if HoistBinOp(e, n, line).Ok? {
      var hl := Hoist(e.left, n, line).value;
      var c := n + |hl.pre|;
      var hr := Hoist(e.right, c, line).value;
      HoistRoundTrip(e.left, n, line);
      HoistRoundTrip(e.right, c, line);
      HoistNames(e.left, n, line);
      InlineFresh(hl.expr, hr.pre, c, line);
      InlineFresh(e.right, hl.pre, n, line);
      var x := BinOp(hl.expr, e.bop, hr.expr);
      InlineAppend(x, hl.pre, hr.pre);
      InlineNode(x, hr.pre);
      InlineNode(BinOp(hl.expr, e.bop, e.right), hl.pre);
    }
  }

  lemma {:induction false} HoistCompareRoundTrip(e: Expr, n: nat, line: int)
    requires e.Compare? && FreshFrom(e, n)
    ensures HoistCompare(e, n, line).Ok? ==>
      Inline(HoistCompare(e, n, line).value.expr, HoistCompare(e, n, line).value.pre) == e
    decreases e, 0
  {
    if HoistCompare(e, n, line).Ok? {
      var hl := Hoist(e.first, n, line).value;
      var c := n + |hl.pre|;
      var hs := HoistFrom(e.comparators, 0, c, line).value;
      assert e.comparators[0..] == e.comparators;
      HoistRoundTrip(e.first, n, line);
      HoistFromRoundTrip(e.comparators, 0, c, line);
      HoistNames(e.first, n, line);
      InlineFresh(hl.expr, hs.pre, c, line);
      InlineSeqFresh(e.comparators, hl.pre, n, line);
      var x := Compare(hl.expr, e.ops, hs.exprs);
      InlineAppend(x, hl.pre, hs.pre);
      InlineNode(x, hs.pre);
      InlineNode(Compare(hl.expr, e.ops, e.comparators), hl.pre);
    }
  }

  lemma {:induction false} HoistCallRoundTrip(e: Expr, n: nat, line: int)
    requires e.Call? && FreshFrom(e, n)
    ensures HoistCall(e, n, line).Ok? ==>
      Inline(HoistCall(e, n, line).value.expr, HoistCall(e, n, line).value.pre) == e
    decreases e, 0
  {
    if HoistCall(e, n, line).Ok? {
      var hs := HoistFrom(e.args, 0, n, line).value;
      var m := n + |hs.pre|;
      var a := TempAssignment(line, m, e.func, hs.exprs);
      assert e.args[0..] == e.args;
      HoistFromRoundTrip(e.args, 0, n, line);
      InlineFresh(e.func, hs.pre, n, line);
      InlineAppend(Name(TempName(m)), hs.pre, [a]);
      assert [a][..0] == [];
      assert Inline(Name(TempName(m)), [a]) == Call(e.func, hs.exprs, []);
      InlineNode(Call(e.func, hs.exprs, []), hs.pre);
    }
  }

  lemma {:induction false} HoistFromRoundTrip(es: seq<Expr>, k: nat, n: nat, line: int)
    requires k <= |es| && FreshFromSeq(es[k..], n)
    ensures HoistFrom(es, k, n, line).Ok? ==>
      InlineSeq(HoistFrom(es, k, n, line).value.exprs, HoistFrom(es, k, n, line).value.pre) == es[k..]
    decreases es, 0, |es| - k
  {
    if k < |es| && HoistFrom(es, k, n, line).Ok? {
      var h := Hoist(es[k], n, line).value;
      var c := n + |h.pre|;
      var rest := HoistFrom(es, k + 1, c, line).value;
      CallCountSeqFrom(es, k);
      HoistRoundTrip(es[k], n, line);
      HoistFromRoundTrip(es, k + 1, c, line);
      HoistNames(es[k], n, line);
      InlineFresh(h.expr, rest.pre, c, line);
      InlineAppend(h.expr, h.pre, rest.pre);
      InlineSeqAppend(rest.exprs, h.pre, rest.pre, es[k + 1..], n, line);
      InlineSeqCons(h.expr, rest.exprs, h.pre + rest.pre);
      assert [es[k]] + es[k + 1..] == es[k..];
    }
  }

  // ---------------------------------------------------------------------
  // Which piece of the input each piece of the result stands for

  /** A binary operation: the left operand's calls are hoisted first,
      numbered from `n`, then the right operand's, numbered after
      them. */
  lemma HoistBinOpOrder(e: Expr, n: nat, line: int)
    requires e.BinOp?
    ensures var r := HoistBinOp(e, n, line);
      r.Ok? ==>
        var c := CallCount(e.left);
        c <= |r.value.pre| && r.value.expr.BinOp? && r.value.expr.bop == e.bop
        && Hoist(e.left, n, line) == Ok(Hoisted(r.value.expr.left, r.value.pre[..c]))
        && Hoist(e.right, n + c, line) == Ok(Hoisted(r.value.expr.right, r.value.pre[c..]))
  {
    HoistCount(e.left, n, line);
  }

  /** A comparison: the first operand's calls, then the comparators',
      left to right; the operators are kept. */
  lemma HoistCompareOrder(e: Expr, n: nat, line: int)
    requires e.Compare?
    ensures var r := HoistCompare(e, n, line);
      r.Ok? ==>
        var c := CallCount(e.first);
        c <= |r.value.pre| && r.value.expr.Compare? && r.value.expr.ops == e.ops
        && Hoist(e.first, n, line) == Ok(Hoisted(r.value.expr.first, r.value.pre[..c]))
        && HoistFrom(e.comparators, 0, n + c, line) == Ok(HoistedSeq(r.value.expr.comparators, r.value.pre[c..]))
  {
    HoistCount(e.first, n, line);
  }

  /** A call: the calls in its arguments are hoisted first, numbered from
      `n`; then the call itself, with its callee and rewritten arguments,
      is assigned last, to the temporary `n + c` that replaces it. A call
      with keyword arguments is refused. */
  lemma HoistCallOrder(e: Expr, n: nat, line: int)
    requires e.Call?
    ensures e.keywords != [] ==> HoistCall(e, n, line) == Err(Error.Unsupported)
    ensures var r := HoistCall(e, n, line);
      r.Ok? ==>
        var c := CallCountSeq(e.args);
        |r.value.pre| == c + 1 && r.value.expr == Name(TempName(n + c))
        && r.value.pre[c] == TempAssignment(line, n + c, e.func, r.value.pre[c].value.args)
        && HoistFrom(e.args, 0, n, line) == Ok(HoistedSeq(r.value.pre[c].value.args, r.value.pre[..c]))
  {
    HoistFromCount(e.args, 0, n, line);
    assert e.args[0..] == e.args;
    if HoistCall(e, n, line).Ok? {
      var hs := HoistFrom(e.args, 0, n, line).value;
      assert (hs.pre + [TempAssignment(line, n + |hs.pre|, e.func, hs.exprs)])[..|hs.pre|] == hs.pre;
    }
  }

  /** Element `i` of `hs`, and the slice of `hs.pre` after the
      assignments of the elements before it, are what `visit` makes of
      `es[k + i]`, with the counter at 0 (`restart`) or at `n` plus the
      number of calls before it. */
  ghost predicate PieceAt(hs: HoistedSeq, es: seq<Expr>, k: nat, n: nat, restart: bool, line: int, i: nat)
    requires k + i < |es| && i < |hs.exprs|
  {
    var o := CallCountSeq(es[k..k + i]);
    var c := CallCount(es[k + i]);
    o + c <= |hs.pre|
    && Hoist(es[k + i], if restart then 0 else n + o, line) == Ok(Hoisted(hs.exprs[i], hs.pre[o..o + c]))
  }

  /** Every element of `hs` is a piece of `es[k..]` as `PieceAt` says. */
  ghost predicate Piecewise(hs: HoistedSeq, es: seq<Expr>, k: nat, n: nat, restart: bool, line: int)
  {
    k <= |es| && |hs.exprs| == |es| - k
    && forall i: nat :: i < |hs.exprs| ==> PieceAt(hs, es, k, n, restart, line, i)
  }

  lemma CallCountSeqHead(es: seq<Expr>, k: nat, j: nat)
    requires k < j <= |es|
    ensures CallCountSeq(es[k..j]) == CallCount(es[k]) + CallCountSeq(es[k + 1..j])
  {
    assert es[k..j][1..] == es[k + 1..j];
  }

  lemma PieceAtCons(h: Hoisted, rest: HoistedSeq, es: seq<Expr>, k: nat, n: nat, restart: bool, line: int, i: nat)
    requires k + i < |es| && 0 < i <= |rest.exprs|
    requires PieceAt(rest, es, k + 1, if restart then n else n + |h.pre|, restart, line, i - 1)
    requires |h.pre| == CallCount(es[k])
    ensures PieceAt(HoistedSeq([h.expr] + rest.exprs, h.pre + rest.pre), es, k, n, restart, line, i)
  {
    var hs := HoistedSeq([h.expr] + rest.exprs, h.pre + rest.pre);
    var o' := CallCountSeq(es[k + 1..k + i]);
    var c := CallCount(es[k + i]);
    CallCountSeqHead(es, k, k + i);
    assert es[k + 1..k + 1 + (i - 1)] == es[k + 1..k + i];
    assert hs.exprs[i] == rest.exprs[i - 1];
    assert hs.pre[|h.pre| + o'..|h.pre| + o' + c] == rest.pre[o'..o' + c];
  }

  lemma PiecewiseCons(h: Hoisted, rest: HoistedSeq, es: seq<Expr>, k: nat, n: nat, restart: bool, line: int)
    requires k < |es| && Hoist(es[k], if restart then 0 else n, line) == Ok(h)
    requires |h.pre| == CallCount(es[k])
    requires Piecewise(rest, es, k + 1, if restart then n else n + |h.pre|, restart, line)
    ensures Piecewise(HoistedSeq([h.expr] + rest.exprs, h.pre + rest.pre), es, k, n, restart, line)
  {
    var hs := HoistedSeq([h.expr] + rest.exprs, h.pre + rest.pre);
    forall i: nat | i < |hs.exprs|
      ensures PieceAt(hs, es, k, n, restart, line, i)
    {
      if i == 0 {
        assert es[k..k] == [];
        assert hs.pre[0..|h.pre|] == h.pre;
      } else {
        PieceAtCons(h, rest, es, k, n, restart, line, i);
      }
    }
  }

  /** A list is rewritten element by element, left to right, with the
      counter threaded through. */
  lemma {:induction false} HoistFromPieces(es: seq<Expr>, k: nat, n: nat, line: int)
    requires k <= |es|
    ensures HoistFrom(es, k, n, line).Ok? ==> Piecewise(HoistFrom(es, k, n, line).value, es, k, n, false, line)
    decreases |es| - k
  {
    if k < |es| && HoistFrom(es, k, n, line).Ok? {
      var h := Hoist(es[k], n, line).value;
      HoistCount(es[k], n, line);
      HoistFromPieces(es, k + 1, n + |h.pre|, line);
      PiecewiseCons(h, HoistFrom(es, k + 1, n + |h.pre|, line).value, es, k, n, false, line);
    }
  }

  /** The source's loop over call arguments: each argument rewritten by a
      fresh transformer, so each one's temporaries are numbered from 0
      again; the hoisted assignments are all those calls, argument by
      argument; a keyword call in any argument is refused. */
  lemma {:induction false} PerArgumentPieces(xs: seq<Expr>, k: nat, line: int)
    requires k <= |xs|
    ensures PerArgumentFrom(xs, k, line).Err? <==> exists i :: k <= i < |xs| && KeywordCall(xs[i])
    ensures PerArgumentFrom(xs, k, line).Ok? ==>
      |PerArgumentFrom(xs, k, line).value.pre| == CallCountSeq(xs[k..])
      && Piecewise(PerArgumentFrom(xs, k, line).value, xs, k, 0, true, line)
    decreases |xs| - k
  {
    if k < |xs| {
      CallCountSeqFrom(xs, k);
      HoistCount(xs[k], 0, line);
      PerArgumentPieces(xs, k + 1, line);
      if PerArgumentFrom(xs, k, line).Ok? {
        var h := Hoist(xs[k], 0, line).value;
        PiecewiseCons(h, PerArgumentFrom(xs, k + 1, line).value, xs, k, 0, true, line);
      }
    }
  }

  /** `HoistArgs` in either mode: refused exactly when some argument has
      a keyword call, otherwise one assignment per call, argument `i`
      rewritten with its own slice of them; with the threaded counter,
      substituting them back gives the arguments again. */
  lemma HoistArgsPieces(mode: ArgCounter, xs: seq<Expr>, line: int)
    ensures HoistArgs(mode, xs, line).Err? <==> KeywordCallIn(xs)
    ensures HoistArgs(mode, xs, line).Ok? ==>
      |HoistArgs(mode, xs, line).value.pre| == CallCountSeq(xs)
      && Piecewise(HoistArgs(mode, xs, line).value, xs, 0, 0, mode == PerArgument, line)
    ensures mode == Threaded && FreshFromSeq(xs, 0) && HoistArgs(mode, xs, line).Ok? ==>
      InlineSeq(HoistArgs(mode, xs, line).value.exprs, HoistArgs(mode, xs, line).value.pre) == xs
  {
    assert xs[0..] == xs;
    if mode == PerArgument {
      PerArgumentPieces(xs, 0, line);
    } else {
      HoistFromCount(xs, 0, 0, line);
      HoistFromPieces(xs, 0, 0, line);
      if FreshFromSeq(xs, 0) {
        HoistFromRoundTrip(xs, 0, 0, line);
      }
    }
  }
}
