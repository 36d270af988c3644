/** Properties of the evaluator model: a static kind analysis that the evaluator agrees with,
    and the truthiness of the values operators produce. */
module EvaluatorProperties {
  import opened Wrappers
  import opened Tokens
  import opened Grammar
  import opened Evaluator

  /** The runtime kinds of value: `typeof` in the source, with `null` as its own kind. */
  datatype Kind = NilKind | BoolKind | NumKind | StrKind | FnKind

  function KindOf(v: Value): Kind {
    match v
    case Nil => NilKind
    case Bool(_) => BoolKind
    case Num(_) => NumKind
    case Str(_) => StrKind
    case Fn(_) => FnKind
  }

  /** The kind an expression must have if it evaluates at all, worked out from the operators
      and the literals alone, or `None` where that is not determined. */
  function StaticKind(e: Expr): Option<Kind> {
    match e
    case Literal(v) => Some(KindOf(v))
    case Grouping(inner) => StaticKind(inner)
    case Unary(op, right) =>
      if StaticKind(right).None? then None
      else if op.kind == NOT then Some(BoolKind)
      else if op.kind == MINUS then (if StaticKind(right) == Some(NumKind) then Some(NumKind) else None)
      else Some(NilKind)
    case Binary(left, op, right) =>
      if StaticKind(left).None? || StaticKind(right).None? then None
      else
        var a, b := StaticKind(left).value, StaticKind(right).value;
        if a == StrKind && b == StrKind && op.kind == PLUS then Some(StrKind)
        else if a == NumKind && b == NumKind && op.kind in Comparisons then Some(BoolKind)
        else if a == NumKind && b == NumKind && op.kind in NumberOps then Some(NumKind)
        else Some(NilKind)
    case _ => None
  }

  /** Whatever value an expression evaluates to has the kind the static analysis predicts. */
  lemma {:induction false} StaticKindSound(e: Expr)
    ensures Evaluate(e).Ok? && StaticKind(e).Some? ==> KindOf(Evaluate(e).value) == StaticKind(e).value
  {
    match e
    case Literal(_) =>
    case Grouping(inner) => StaticKindSound(inner);
    case Unary(op, right) => StaticKindSound(right);
    case Binary(left, op, right) =>
      StaticKindSound(left);
      StaticKindSound(right);
    case _ =>
  }

  /** An expression whose kind is known is built from visited nodes only, so evaluating it
      never reports a missing visitor. */
  lemma {:induction false} StaticKindInFragment(e: Expr)
    ensures StaticKind(e).Some? ==> InFragment(e)
  {
    match e
    case Literal(_) =>
    case Grouping(inner) => StaticKindInFragment(inner);
    case Unary(op, right) => StaticKindInFragment(right);
    case Binary(left, op, right) =>
      StaticKindInFragment(left);
      StaticKindInFragment(right);
    case _ =>
  }

  /** `not not e` is the truthiness of `e` as a boolean, and applying it twice more changes
      nothing. */
  lemma DoubleNegation(e: Expr, not: Token)
    requires not.kind == NOT && Evaluate(e).Ok?
    ensures Evaluate(Unary(not, Unary(not, e))) == Ok(Bool(IsTruthy(Evaluate(e).value)))
    ensures Evaluate(Unary(not, Unary(not, Unary(not, Unary(not, e))))) == Evaluate(Unary(not, Unary(not, e)))
  {
  }

  /** Comparisons are mirror images: `a > b` is `b < a` and `a >= b` is `b <= a`, and `==`
      and `!=` are symmetric. */
  lemma ComparisonsMirror(a: real, b: real)
    ensures ApplyBinary(GT, Num(a), Num(b)) == ApplyBinary(LT, Num(b), Num(a))
    ensures ApplyBinary(GTE, Num(a), Num(b)) == ApplyBinary(LTE, Num(b), Num(a))
    ensures ApplyBinary(EQUALS_EQUALS, Num(a), Num(b)) == ApplyBinary(EQUALS_EQUALS, Num(b), Num(a))
    ensures ApplyBinary(NOT_EQUALS, Num(a), Num(b)) == ApplyBinary(NOT_EQUALS, Num(b), Num(a))
  {
  }

  /** The number comparisons agree with each other: `!=`, `<=` and `>=` are the negations
      (by `!`) of `==`, `>` and `<`. */
  lemma ComparisonsNegate(a: real, b: real)
    ensures ApplyBinary(NOT_EQUALS, Num(a), Num(b)) == ApplyUnary(NOT, ApplyBinary(EQUALS_EQUALS, Num(a), Num(b)).value)
    ensures ApplyBinary(LTE, Num(a), Num(b)) == ApplyUnary(NOT, ApplyBinary(GT, Num(a), Num(b)).value)
    ensures ApplyBinary(GTE, Num(a), Num(b)) == ApplyUnary(NOT, ApplyBinary(LT, Num(a), Num(b)).value)
  {
    assert ApplyBinary(EQUALS_EQUALS, Num(a), Num(b)) == Ok(Bool(a == b));
    assert ApplyBinary(GT, Num(a), Num(b)) == Ok(Bool(a > b));
    assert ApplyBinary(LT, Num(a), Num(b)) == Ok(Bool(a < b));
  }

  /** Subtracting a number is adding its negation (by unary `-`). */
  lemma SubtractionAddsNegation(a: real, b: real)
    ensures ApplyBinary(MINUS, Num(a), Num(b)) == ApplyBinary(PLUS, Num(a), ApplyUnary(MINUS, Num(b)).value)
  {
    calc {
      ApplyBinary(PLUS, Num(a), ApplyUnary(MINUS, Num(b)).value);
      ApplyBinary(PLUS, Num(a), Num(-b));
      Ok(Num(a + -b));
      ApplyBinary(MINUS, Num(a), Num(b));
    }
  }

  /** `-` undoes itself on numbers. */
  lemma NegateTwice(e: Expr, minus: Token)
    requires minus.kind == MINUS && Evaluate(e).Ok? && Evaluate(e).value.Num?
    ensures Evaluate(Unary(minus, Unary(minus, e))) == Evaluate(e)
  {
  }

  /** `+` concatenates strings but does not commute on them: `"a" + "b"` is not `"b" + "a"`. */
  lemma StringPlusOrdered()
    ensures ApplyBinary(PLUS, Str("a"), Str("b")) == Ok(Str("ab"))
    ensures ApplyBinary(PLUS, Str("b"), Str("a")) != ApplyBinary(PLUS, Str("a"), Str("b"))
  {
    assert "b" + "a" == "ba";
    assert "a" + "b" == "ab";
  }

  /** Mixed operands give `null`, not an error: `1 + "a"` and `"a" == "a"`. */
  lemma MixedOperandsGiveNil()
    ensures ApplyBinary(PLUS, Num(1.0), Str("a")) == Ok(Nil)
    ensures ApplyBinary(EQUALS_EQUALS, Str("a"), Str("a")) == Ok(Nil)
    ensures ApplyBinary(EQUALS_EQUALS, Nil, Nil) == Ok(Nil)
  {
  }
}
