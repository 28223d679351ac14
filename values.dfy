/** The values the machine computes with (simplipy/semantics/types.py):
    Python ints and bools, None, closures and the unbound marker Bottom,
    and the Python operators on them (the part of `eval_expr` that applies
    an operator). Python ints are unbounded, as here; `//` and `%` floor
    toward minus infinity, unlike Dafny's Euclidean `/` and `%`. */
module Values {
  import opened Wrappers
  import opened PyAst

  datatype Value =
    | IntV(i: int)
    | BoolV(b: bool)
    | NoneV
    | ClosureV(line: int, formals: seq<string>)
    | BottomV

  /** Python's `bool` is a subclass of `int`. */
  function AsInt(v: Value): Option<int>
  {
    match v
    case IntV(i) => Some(i)
    case BoolV(b) => Some(if b then 1 else 0)
    case _ => None
  }

  /** Truth value: zero, False and None are false; closures and Bottom are
      plain objects, hence true. */
  predicate Truthy(v: Value)
    ensures AsInt(v).Some? ==> (Truthy(v) <==> AsInt(v).value != 0)
    ensures !Truthy(v) ==> v.IntV? || v.BoolV? || v.NoneV?
  {
    match v
    case IntV(i) => i != 0
    case BoolV(b) => b
    case NoneV => false
    case _ => true
  }

  // --------------------------------------------------------------------
  // Integer operations as Python defines them

  /** `a // b` for `b != 0`: the floor of the quotient. */
  function IntFloorDiv(a: int, b: int): int
    requires b != 0
  {
    if b > 0 then a / b else (-a) / (-b)
  }

  /** `a % b`: what is left after `FloorDiv`. */
  function IntMod(a: int, b: int): int
    requires b != 0
  {
    a - b * IntFloorDiv(a, b)
  }

  /** Python's division identity: quotient times divisor plus remainder is
      the dividend, and the remainder takes the divisor's sign and is
      smaller than it in magnitude. */
  lemma FloorDivMod(a: int, b: int)
    requires b != 0
    ensures a == b * IntFloorDiv(a, b) + IntMod(a, b)
    ensures b > 0 ==> 0 <= IntMod(a, b) < b
    ensures b < 0 ==> b < IntMod(a, b) <= 0
  {
    if b < 0 {
      var q := (-a) / (-b);
      var m := (-a) % (-b);
      assert -a == (-b) * q + m && 0 <= m < -b;
      assert a == b * q - m;
    }
  }

  function IntPow(a: int, n: nat): int
  {
    if n == 0 then 1 else a * IntPow(a, n - 1)
  }

  lemma {:induction false} PowPositive(n: nat)
    ensures IntPow(2, n) > 0
  {
    if n > 0 {
      PowPositive(n - 1);
    }
  }

  /** `a << n` for `n >= 0`. */
  function IntLShift(a: int, n: nat): int
  {
    a * IntPow(2, n)
  }

  /** `a >> n` for `n >= 0`: arithmetic shift, i.e. floor division. */
  function IntRShift(a: int, n: nat): int
  {
    PowPositive(n);
    IntFloorDiv(a, IntPow(2, n))
  }

  /** Shifting left and back right gives the number back. */
  lemma ShiftRoundTrip(a: int, n: nat)
    ensures IntRShift(IntLShift(a, n), n) == a
  {
    PowPositive(n);
    var p := IntPow(2, n);
    assert IntLShift(a, n) == p * a;
    MulDiv(p, a);
  }

  lemma MulDiv(p: int, a: int)
    requires p > 0
    ensures (p * a) / p == a
  {
    var q := (p * a) / p;
    var r := (p * a) % p;
    assert p * (a - q) == r;
    MulSmall(p, a - q);
  }

  lemma MulSmall(p: int, k: int)
    requires p > 0 && 0 <= p * k < p
    ensures k == 0
  {
    if k > 0 {
      MulMono(p, k);
    } else if k < 0 {
      MulMono(p, -k);
    }
  }

  lemma MulMono(p: int, k: int)
    requires p > 0 && k > 0
    ensures p * k >= p
  {
  }

  /** Distance from the fixed points 0 and -1 of halving. */
  function Size(x: int): nat
  {
    if x >= 0 then x else -x - 1
  }

  lemma Halve(x: int)
    ensures x == 2 * (x / 2) + x % 2 && (x % 2 == 0 || x % 2 == 1)
    ensures Size(x / 2) <= Size(x)
    ensures x != 0 && x != -1 ==> Size(x / 2) < Size(x)
  {
  }

  predicate Ends(x: int)
  {
    x == 0 || x == -1
  }

  /** `a & b` on Python's unbounded two's complement: bit by bit from the
      lowest, until both sides are all zeros or all ones. */
  function IntAnd(a: int, b: int): int
    decreases Size(a) + Size(b)
  {
    if Ends(a) && Ends(b) then (if a == -1 && b == -1 then -1 else 0)
    else
      Halve(a); Halve(b);
      2 * IntAnd(a / 2, b / 2) + (a % 2) * (b % 2)
  }

  /** `a | b`. */
  function IntOr(a: int, b: int): int
    decreases Size(a) + Size(b)
  {
    if Ends(a) && Ends(b) then (if a == -1 || b == -1 then -1 else 0)
    else
      Halve(a); Halve(b);
      2 * IntOr(a / 2, b / 2) + (a % 2 + b % 2 - (a % 2) * (b % 2))
  }

  /** `a ^ b`. */
  function IntXor(a: int, b: int): int
    decreases Size(a) + Size(b)
  {
    if Ends(a) && Ends(b) then (if (a == -1) != (b == -1) then -1 else 0)
    else
      Halve(a); Halve(b);
      2 * IntXor(a / 2, b / 2) + (a % 2 + b % 2) % 2
  }

  /** `~a`. */
  function IntInvert(a: int): int
  {
    -a - 1
  }

  /** The bits of `a & b` and `a | b` together are the bits of `a` and
      `b`: their sum is `a + b`. */
  lemma {:induction false} AndOrSum(a: int, b: int)
    ensures IntAnd(a, b) + IntOr(a, b) == a + b
    decreases Size(a) + Size(b)
  {
    if !(Ends(a) && Ends(b)) {
      Halve(a); Halve(b);
      AndOrSum(a / 2, b / 2);
    }
  }

  /** Exclusive or is inclusive or without the common bits. */
  lemma {:induction false} XorIsOrMinusAnd(a: int, b: int)
    ensures IntXor(a, b) == IntOr(a, b) - IntAnd(a, b)
    decreases Size(a) + Size(b)
  {
    if !(Ends(a) && Ends(b)) {
      Halve(a); Halve(b);
      XorIsOrMinusAnd(a / 2, b / 2);
    }
  }

  /** The bitwise and of two naturals lies between zero and either one. */
  lemma {:induction false} AndBounds(a: int, b: int)
    requires a >= 0 && b >= 0
    ensures 0 <= IntAnd(a, b) <= a && IntAnd(a, b) <= b
    decreases Size(a) + Size(b)
  {
    if !(Ends(a) && Ends(b)) {
      Halve(a); Halve(b);
      AndBounds(a / 2, b / 2);
    }
  }

  // --------------------------------------------------------------------
  // Operators on values

  /** `-v`, `+v`, `not v`, `~v`. */
  function EvalUnary(op: UnaryOperator, v: Value): (r: Result<Value>)
    ensures op == Not ==> r == Ok(BoolV(!Truthy(v)))
    ensures op != Not ==> (r.Ok? <==> AsInt(v).Some?)
    ensures r.Err? ==> r.error == TypeError
  {
    match op
    case Not => Ok(BoolV(!Truthy(v)))
    case USub => if AsInt(v).Some? then Ok(IntV(-AsInt(v).value)) else Err(TypeError)
    case UAdd => if AsInt(v).Some? then Ok(IntV(AsInt(v).value)) else Err(TypeError)
    case Invert => if AsInt(v).Some? then Ok(IntV(IntInvert(AsInt(v).value))) else Err(TypeError)
  }

  /** `l op r` for the binary operators. `Unmodelled` marks a float
      result (`/`, a negative power). Operands outside int and bool raise
      `TypeError`. `&`, `|` and `^` of two bools give a bool. */
  function EvalBinary(op: BinOperator, l: Value, r: Value): (res: Result<Value>)
    ensures (AsInt(l).None? || AsInt(r).None?) ==> res == Err(TypeError)
    ensures op == MatMult ==> res == Err(TypeError)
    ensures (op == Div || op == FloorDiv || op == Mod) && AsInt(l).Some? && AsInt(r) == Some(0) ==> (
      res == Err(ZeroDivisionError))
    ensures op == Pow && AsInt(l) == Some(0) && AsInt(r).Some? && AsInt(r).value < 0 ==> (
      res == Err(ZeroDivisionError))
    ensures (op == LShift || op == RShift) && AsInt(l).Some? && AsInt(r).Some? && AsInt(r).value < 0 ==> (
      res == Err(ValueError))
    ensures res == Err(Unmodelled) ==> op == Div || op == Pow
    ensures res.Ok? ==> res.value.IntV? || res.value.BoolV?
  {
    if AsInt(l).None? || AsInt(r).None? then Err(TypeError)
    else
      var a, b := AsInt(l).value, AsInt(r).value;
      match op
      case Add => Ok(IntV(a + b))
      case Sub => Ok(IntV(a - b))
      case Mult => Ok(IntV(a * b))
      case Div => if b == 0 then Err(ZeroDivisionError) else Err(Unmodelled)
      case FloorDiv => if b == 0 then Err(ZeroDivisionError) else Ok(IntV(IntFloorDiv(a, b)))
      case Mod => if b == 0 then Err(ZeroDivisionError) else Ok(IntV(IntMod(a, b)))
      case Pow =>
        if b >= 0 then Ok(IntV(IntPow(a, b)))
        else if a == 0 then Err(ZeroDivisionError)
        else Err(Unmodelled)
      case LShift => if b < 0 then Err(ValueError) else Ok(IntV(IntLShift(a, b)))
      case RShift => if b < 0 then Err(ValueError) else Ok(IntV(IntRShift(a, b)))
      case BitOr => if l.BoolV? && r.BoolV? then Ok(BoolV(l.b || r.b)) else Ok(IntV(IntOr(a, b)))
      case BitXor => if l.BoolV? && r.BoolV? then Ok(BoolV(l.b != r.b)) else Ok(IntV(IntXor(a, b)))
      case BitAnd => if l.BoolV? && r.BoolV? then Ok(BoolV(l.b && r.b)) else Ok(IntV(IntAnd(a, b)))
      case MatMult => Err(TypeError)
  }

  /** `//` and `%` on ints by a non-zero divisor succeed and satisfy
      Python's division identity. */
  lemma EvalFloorDivMod(a: int, b: int)
    requires b != 0
    ensures EvalBinary(FloorDiv, IntV(a), IntV(b)).Ok? && EvalBinary(Mod, IntV(a), IntV(b)).Ok?
    ensures var q := EvalBinary(FloorDiv, IntV(a), IntV(b)).value;
      var m := EvalBinary(Mod, IntV(a), IntV(b)).value;
      q.IntV? && m.IntV? && a == b * q.i + m.i
      && (b > 0 ==> 0 <= m.i < b) && (b < 0 ==> b < m.i <= 0)
  {
    FloorDivMod(a, b);
  }

  /** `a << n >> n == a` for every int `a` and shift `n >= 0`. */
  lemma EvalShiftRoundTrip(a: int, n: nat)
    ensures EvalBinary(LShift, IntV(a), IntV(n)).Ok?
    ensures EvalBinary(RShift, EvalBinary(LShift, IntV(a), IntV(n)).value, IntV(n)) == Ok(IntV(a))
  {
    ShiftRoundTrip(a, n);
  }

  /** A power with a non-negative exponent multiplies the base once per
      step, starting from `a ** 0 == 1`. */
  lemma EvalPowStep(a: int, n: nat)
    ensures EvalBinary(Pow, IntV(a), IntV(0)) == Ok(IntV(1))
    ensures EvalBinary(Pow, IntV(a), IntV(n + 1)).Ok? && EvalBinary(Pow, IntV(a), IntV(n)).Ok?
    ensures EvalBinary(Pow, IntV(a), IntV(n + 1)).value.i == a * EvalBinary(Pow, IntV(a), IntV(n)).value.i
  {
  }

  /** On ints, `(a & b) + (a | b) == a + b` and `a ^ b == (a | b) - (a & b)`. */
  lemma EvalBitwise(a: int, b: int)
    ensures EvalBinary(BitAnd, IntV(a), IntV(b)).Ok? && EvalBinary(BitOr, IntV(a), IntV(b)).Ok?
    ensures EvalBinary(BitXor, IntV(a), IntV(b)).Ok?
    ensures var x, y, z := EvalBinary(BitAnd, IntV(a), IntV(b)).value,
      EvalBinary(BitOr, IntV(a), IntV(b)).value, EvalBinary(BitXor, IntV(a), IntV(b)).value;
      x.IntV? && y.IntV? && z.IntV? && x.i + y.i == a + b && z.i == y.i - x.i
  {
    AndOrSum(a, b);
    XorIsOrMinusAnd(a, b);
  }

  /** On two bools, `&`, `|` and `^` agree with the integer operators on
      their values 0 and 1. */
  lemma BoolBitwiseAgrees(op: BinOperator, x: bool, y: bool)
    requires op == BitAnd || op == BitOr || op == BitXor
    ensures EvalBinary(op, BoolV(x), BoolV(y)).Ok?
    ensures AsInt(EvalBinary(op, BoolV(x), BoolV(y)).value) ==
      Some(if op == BitAnd then IntAnd(AsInt(BoolV(x)).value, AsInt(BoolV(y)).value)
           else if op == BitOr then IntOr(AsInt(BoolV(x)).value, AsInt(BoolV(y)).value)
           else IntXor(AsInt(BoolV(x)).value, AsInt(BoolV(y)).value))
  {
    var a, b := AsInt(BoolV(x)).value, AsInt(BoolV(y)).value;
    assert a / 2 == 0 && b / 2 == 0;
  }

  /** Python `==`: numbers by value (so `True == 1`), None equal to
      itself, closures by line and formals (`Closure.__eq__`); anything
      else compares by identity, which is false across kinds and not
      modelled between two Bottom objects. */
  function Equal(l: Value, r: Value): (res: Result<bool>)
    ensures res == Err(Unmodelled) <==> l.BottomV? && r.BottomV?
    ensures res == Ok(true) ==> (
      (AsInt(l).Some? <==> AsInt(r).Some?) && l.NoneV? == r.NoneV? && l.ClosureV? == r.ClosureV?)
    ensures l == r && !l.BottomV? ==> res == Ok(true)
  {
    if AsInt(l).Some? && AsInt(r).Some? then Ok(AsInt(l).value == AsInt(r).value)
    else if l.NoneV? && r.NoneV? then Ok(true)
    else if l.ClosureV? && r.ClosureV? then Ok(l.line == r.line && l.formals == r.formals)
    else if l.BottomV? && r.BottomV? then Err(Unmodelled)
    else Ok(false)
  }

  /** One comparison `l op r`. Orderings need numbers (`TypeError`
      otherwise); `in` needs a container, which no value here is; `is`
      is object identity, not modelled. */
  function EvalCmp(op: CmpOperator, l: Value, r: Value): (res: Result<bool>)
    ensures (op == Lt || op == LtE || op == Gt || op == GtE) ==> (
      (res.Ok? <==> AsInt(l).Some? && AsInt(r).Some?))
    ensures op == NotEq ==> (res.Ok? <==> Equal(l, r).Ok?) && (res.Ok? ==> res.value == !Equal(l, r).value)
    ensures (op == In || op == NotIn) ==> res == Err(TypeError)
    ensures (op == Is || op == IsNot) ==> res == Err(Unmodelled)
  {
    match op
    case Eq => Equal(l, r)
    case NotEq => var e :- Equal(l, r); Ok(!e)
    case Lt => if AsInt(l).Some? && AsInt(r).Some? then Ok(AsInt(l).value < AsInt(r).value) else Err(TypeError)
    case LtE => if AsInt(l).Some? && AsInt(r).Some? then Ok(AsInt(l).value <= AsInt(r).value) else Err(TypeError)
    case Gt => if AsInt(l).Some? && AsInt(r).Some? then Ok(AsInt(l).value > AsInt(r).value) else Err(TypeError)
    case GtE => if AsInt(l).Some? && AsInt(r).Some? then Ok(AsInt(l).value >= AsInt(r).value) else Err(TypeError)
    case Is => Err(Unmodelled)
    case IsNot => Err(Unmodelled)
    case In => Err(TypeError)
    case NotIn => Err(TypeError)
  }

  /** On numbers the orderings are those of the integers: `<` holds
      exactly when the left value is smaller, exactly one of `<`, `==`
      and `>` holds, `<=` is `<` or `==`, `>=` is the negation of `<`, and
      `l > r` is `r < l`. */
  lemma CmpOrderings(l: Value, r: Value)
    requires AsInt(l).Some? && AsInt(r).Some?
    ensures EvalCmp(Lt, l, r) == Ok(AsInt(l).value < AsInt(r).value)
    ensures EvalCmp(Eq, l, r).Ok? && EvalCmp(Gt, l, r).Ok?
    ensures var lt, eq, gt := EvalCmp(Lt, l, r).value, EvalCmp(Eq, l, r).value, EvalCmp(Gt, l, r).value;
      (lt || eq || gt) && !(lt && eq) && !(lt && gt) && !(eq && gt)
    ensures EvalCmp(LtE, l, r) == Ok(EvalCmp(Lt, l, r).value || EvalCmp(Eq, l, r).value)
    ensures EvalCmp(GtE, l, r) == Ok(!EvalCmp(Lt, l, r).value)
    ensures EvalCmp(Gt, l, r) == EvalCmp(Lt, r, l)
  {
  }

  /** `==` is symmetric wherever it is defined. */
  lemma EqualSymmetric(l: Value, r: Value)
    ensures Equal(l, r) == Equal(r, l)
  {
  }
}
