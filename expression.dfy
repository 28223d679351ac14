/** simplipy/parse/expression.py: an `Expression` wraps an AST expression
    after checking that no node in it is a call. */
module Expression {
  import opened Wrappers
  import opened PyAst

  datatype Expression = Expression(node: Expr)

  /** Every node of the tree rooted at `e`, `e` first: the nodes `ast.walk`
      yields (in pre-order rather than breadth-first; the check below does
      not depend on the order). */
  function Walk(e: Expr): seq<Expr>
  {
    match e
    case Constant(_) => [e]
    case Name(_) => [e]
    case UnaryOp(_, x) => [e] + Walk(x)
    case BinOp(l, _, r) => [e] + Walk(l) + Walk(r)
    case Compare(l, _, cs) => [e] + Walk(l) + WalkAll(cs)
    case Call(f, xs, ks) => [e] + Walk(f) + WalkAll(xs) + WalkAll(ks)
    case OtherExpr(cs) => [e] + WalkAll(cs)
  }

  function WalkAll(es: seq<Expr>): seq<Expr>
  {
    if es == [] then [] else Walk(es[0]) + WalkAll(es[1..])
  }

  predicate HasCallNode(w: seq<Expr>)
  {
    exists j :: 0 <= j < |w| && w[j].Call?
  }

  /** `Expression._validate`: walk every node and fail on the first call. */
  function Validate(node: Expr): (r: Outcome)
    ensures r.Fail? <==> ContainsCall(node)
    ensures r.Fail? ==> r.error == AssertionError
  {
    WalkFindsCallIff(node);
    if HasCallNode(Walk(node)) then Fail(AssertionError) else Success
  }

  /** `Expression(node)`: validate, then keep the node as it is. */
  function NewExpression(node: Expr): (r: Result<Expression>)
    ensures r.Ok? <==> !ContainsCall(node)
    ensures r.Ok? ==> r.value.node == node
  {
    var v := Validate(node);
    if v.Fail? then Err(v.error) else Ok(Expression(node))
  }

  /** Validates a list of argument expressions left to right. */
  function NewExpressions(nodes: seq<Expr>): (r: Result<seq<Expression>>)
    ensures r.Ok? <==> AllCallFree(nodes)
    ensures r.Ok? ==> |r.value| == |nodes| && forall j :: 0 <= j < |nodes| ==> r.value[j].node == nodes[j]
  {
    if nodes == [] then Ok([])
    else
      var e := NewExpression(nodes[0]);
      if e.Err? then Err(e.error)
      else
        var rest := NewExpressions(nodes[1..]);
        if rest.Err? then
          assert !ContainsCall(nodes[0]) && !AllCallFree(nodes[1..]);
          Err(rest.error)
        else
          assert forall j :: 1 <= j < |nodes| ==> nodes[j] == nodes[1..][j - 1];
          Ok([e.value] + rest.value)
  }

  lemma HasCallNodeAppend(a: seq<Expr>, b: seq<Expr>)
    ensures HasCallNode(a + b) <==> HasCallNode(a) || HasCallNode(b)
  {
    if HasCallNode(a + b) {
      var j :| 0 <= j < |a + b| && (a + b)[j].Call?;
      if j >= |a| { assert b[j - |a|].Call?; }
    }
    if HasCallNode(a) {
      var j :| 0 <= j < |a| && a[j].Call?;
      assert (a + b)[j].Call?;
    }
    if HasCallNode(b) {
      var j :| 0 <= j < |b| && b[j].Call?;
      assert (a + b)[|a| + j].Call?;
    }
  }

  /** The walk meets a call node exactly when the tree contains a call:
      the flat walk of `_validate` and the structural `ContainsCall` agree. */
  lemma {:induction false} WalkFindsCallIff(e: Expr)
    ensures HasCallNode(Walk(e)) <==> ContainsCall(e)
  {
    match e
    case Constant(_) =>
    case Name(_) =>
    case UnaryOp(_, x) =>
      HasCallNodeAppend([e], Walk(x));
      WalkFindsCallIff(x);
    case BinOp(l, _, r) =>
      HasCallNodeAppend([e] + Walk(l), Walk(r));
      HasCallNodeAppend([e], Walk(l));
      WalkFindsCallIff(l);
      WalkFindsCallIff(r);
    case Compare(l, _, cs) =>
      HasCallNodeAppend([e] + Walk(l), WalkAll(cs));
      HasCallNodeAppend([e], Walk(l));
      WalkFindsCallIff(l);
      WalkAllFindsCallIff(cs);
    case Call(f, xs, ks) =>
      assert ([e] + Walk(f) + WalkAll(xs) + WalkAll(ks))[0] == e;
    case OtherExpr(cs) =>
      HasCallNodeAppend([e], WalkAll(cs));
      WalkAllFindsCallIff(cs);
  }

  lemma {:induction false} WalkAllFindsCallIff(es: seq<Expr>)
    ensures HasCallNode(WalkAll(es)) <==> exists j :: 0 <= j < |es| && ContainsCall(es[j])
  {
    if es != [] {
      HasCallNodeAppend(Walk(es[0]), WalkAll(es[1..]));
      WalkFindsCallIff(es[0]);
      WalkAllFindsCallIff(es[1..]);
      if exists j :: 0 <= j < |es| && ContainsCall(es[j]) {
        var j :| 0 <= j < |es| && ContainsCall(es[j]);
        if j > 0 { assert ContainsCall(es[1..][j - 1]); }
      }
      if exists j :: 0 <= j < |es[1..]| && ContainsCall(es[1..][j]) {
        var j :| 0 <= j < |es[1..]| && ContainsCall(es[1..][j]);
        assert ContainsCall(es[j + 1]);
      }
    }
  }
}
