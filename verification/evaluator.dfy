/** The expression evaluator (src/evaluator.ts): literals, groupings, unary and binary
    operators. The evaluator has visitor methods for these four nodes only, so evaluating any
    other node fails. Numbers are reals, so the cases that depend on IEEE-754 (division by
    zero, JavaScript's coercion of a non-number by `* -1`) are reported as not modelled
    rather than given a value. */
module Evaluator {
  import opened Wrappers
  import opened Tokens
  import opened Grammar

  /** `NoVisitor`: the node has no visitor method here (`Variable`, `Assignment`, `Logical`,
      `Call`). `Unmodelled`: a result that only IEEE-754 arithmetic or JavaScript coercion
      would define. */
  datatype EvalError = NoVisitor | Unmodelled

  /** `isTruthy`: only `null` and `false` are false; unlike JavaScript's own truthiness, 0
      and the empty string count as true. */
  predicate IsTruthy(v: Value): (r: bool)
    ensures v.Nil? ==> !r
    ensures v.Bool? ==> (r <==> v.b)
    ensures v.Num? || v.Str? ==> r
  {
    !(v.Nil? || v == Bool(false))
  }

  /** The operators that `visitBinaryExpr` applies to two numbers. */
  const NumberOps: set<TokenType> :=
    {PLUS, MINUS, STAR, SLASH, GT, GTE, LT, LTE, EQUALS_EQUALS, NOT_EQUALS}

  /** The operators among `NumberOps` that yield a boolean. */
  const Comparisons: set<TokenType> := {GT, GTE, LT, LTE, EQUALS_EQUALS, NOT_EQUALS}

  /** `visitUnaryExpr` once the operand has a value. */
  function ApplyUnary(op: TokenType, operand: Value): (r: Result<Value, EvalError>)
    ensures op == NOT ==> r == Ok(Bool(!IsTruthy(operand)))
    ensures op == MINUS && operand.Num? ==> r == Ok(Num(-operand.n))
    ensures op == MINUS && !operand.Num? ==> r == Err(Unmodelled)
    ensures op != NOT && op != MINUS ==> r == Ok(Nil)
  {
    match op
    case NOT => Ok(Bool(!IsTruthy(operand)))
    case MINUS => if operand.Num? then Ok(Num(operand.n * -1 as real)) else Err(Unmodelled)
    case _ => Ok(Nil)
  }

  /** `visitBinaryExpr` once both operands have values. */
  function ApplyBinary(op: TokenType, left: Value, right: Value): (r: Result<Value, EvalError>)
    ensures r.Err? <==> op == SLASH && left.Num? && right == Num(0.0)
    ensures r.Err? ==> r.error == Unmodelled
    ensures left.Str? && right.Str? && op == PLUS ==> r == Ok(Str(left.s + right.s))
    ensures left.Num? && right.Num? && op in Comparisons ==> r.Ok? && r.value.Bool?
    ensures left.Num? && right.Num? && op in NumberOps - Comparisons && r.Ok? ==> r.value.Num?
    ensures left.Num? && right.Num? ==>
              && (op == PLUS ==> r == Ok(Num(left.n + right.n)))
              && (op == MINUS ==> r == Ok(Num(left.n - right.n)))
              && (op == STAR ==> r == Ok(Num(left.n * right.n)))
              && (op == SLASH && right.n != 0.0 ==> r == Ok(Num(left.n / right.n)))
              && (op == GT ==> r == Ok(Bool(left.n > right.n)))
              && (op == GTE ==> r == Ok(Bool(left.n >= right.n)))
              && (op == LT ==> r == Ok(Bool(left.n < right.n)))
              && (op == LTE ==> r == Ok(Bool(left.n <= right.n)))
              && (op == EQUALS_EQUALS ==> r == Ok(Bool(left.n == right.n)))
              && (op == NOT_EQUALS ==> r == Ok(Bool(left.n != right.n)))
    ensures !(left.Str? && right.Str? && op == PLUS) && !(left.Num? && right.Num? && op in NumberOps)
            ==> r == Ok(Nil)
  {
    if left.Str? && right.Str? && op == PLUS then Ok(Str(left.s + right.s))
    else if left.Num? && right.Num? then
      match op
      case PLUS => Ok(Num(left.n + right.n))
      case MINUS => Ok(Num(left.n - right.n))
      case STAR => Ok(Num(left.n * right.n))
      case SLASH => if right.n == 0.0 then Err(Unmodelled) else Ok(Num(left.n / right.n))
      case GT => Ok(Bool(left.n > right.n))
      case GTE => Ok(Bool(left.n >= right.n))
      case LT => Ok(Bool(left.n < right.n))
      case LTE => Ok(Bool(left.n <= right.n))
      case EQUALS_EQUALS => Ok(Bool(left.n == right.n))
      case NOT_EQUALS => Ok(Bool(left.n != right.n))
      case _ => Ok(Nil)
    else Ok(Nil)
  }

  /** The expression is built only from the four nodes the evaluator visits. */
  predicate InFragment(e: Expr) {
    match e
    case Literal(_) => true
    case Grouping(inner) => InFragment(inner)
    case Unary(_, right) => InFragment(right)
    case Binary(left, _, right) => InFragment(left) && InFragment(right)
    case _ => false
  }

  /** `evaluate`: operands are evaluated left to right before the operator is applied, and
      the first failure is the result. */
  function Evaluate(e: Expr): (r: Result<Value, EvalError>)
    ensures !InFragment(e) ==> r.Err?
    ensures r.Err? && r.error == NoVisitor ==> !InFragment(e)
    ensures e.Literal? ==> r == Ok(e.value)
    ensures e.Grouping? ==> r == Evaluate(e.expression)
    ensures e.Unary? ==>
              r == (match Evaluate(e.right)
                    case Ok(operand) => ApplyUnary(e.op.kind, operand)
                    case Err(error) => Err(error))
    ensures e.Binary? ==>
              r == (match Evaluate(e.left)
                    case Err(error) => Err(error)
                    case Ok(a) =>
                      match Evaluate(e.right)
                      case Err(error) => Err(error)
                      case Ok(b) => ApplyBinary(e.op.kind, a, b))
    decreases e
  {
    match e
    case Literal(value) => Ok(value)
    case Grouping(inner) => Evaluate(inner)
    case Unary(op, right) =>
      var operand :- Evaluate(right);
      ApplyUnary(op.kind, operand)
    case Binary(left, op, right) =>
      var a :- Evaluate(left);
      var b :- Evaluate(right);
      ApplyBinary(op.kind, a, b)
    case _ => Err(NoVisitor)
  }
}
