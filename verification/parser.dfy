/** The recursive-descent parser (src/parser.ts) as functions over a token list and a cursor.
    Every parse function returns the node it built with the cursor after it, or the error that
    the source throws. The termination measure is (tokens left, rank): a function calls one of
    higher rank only after consuming a token. */
module Parser {
  import opened Wrappers
  import opened Tokens
  import opened Grammar

  /** A thrown error: `check` or `consume` reading past the last token (a `TypeError` on
      `undefined.type` in the source), or one of the parser's own messages. */
  datatype ParseError = ReadPastEnd | Message(text: string)

  // ---------------------------------------------------------------------------------------
  // The parser's error messages, spelled as in the source

  const InvalidTarget: string := "Invalid assignment target."
  const ArgumentsClose: string := "Expected ')' after arguments."
  const InvalidExpression: string := "Invalid expression."
  const GroupingClose: string := "Expected \")\" after expression."
  const VariableName: string := "Variable declaration must have identifier."
  const FunctionName: string := "Expected identifer for function declaration."
  const FunctionBodyOpen: string := "Expected '{' before function body"
  const ParametersOpen: string := "Expected '(' after function declaration"
  const ParametersClose: string := "Expected ')' after function parameters declaration"
  const ParameterName: string := "Expected parameter name."
  const IfOpen: string := "if statement requires '('"
  const ConditionClose: string := "Expected ')'."
  const ForOpen: string := "Expected '(' after 'for'."
  const ForConditionEnd: string := "Expected ';' after loop condition."
  const ForClauseClose: string := "Expected ')' after for clause."
  const ForInitializerEnd: string := "Expected ';' after initializer"
  const WhileOpen: string := "while statement requirements '('"
  const WhileBodyOpen: string := "while statement requires '{'"
  const ReturnEnd: string := "Expected ';' after return value"

  /** A parsed node and the cursor after it. */
  datatype Parsed<T> = Parsed(node: T, next: nat)

  /** On success the cursor moved forward and stayed within the tokens. */
  predicate Advanced<T>(ts: seq<Token>, pos: nat, r: Result<Parsed<T>, ParseError>) {
    r.Ok? ==> pos < r.value.next <= |ts|
  }

  /** On success the cursor did not move back and stayed within the tokens. */
  predicate Stayed<T>(ts: seq<Token>, pos: nat, r: Result<Parsed<T>, ParseError>) {
    r.Ok? ==> pos <= r.value.next <= |ts|
  }

  // ---------------------------------------------------------------------------------------
  // Cursor primitives

  /** `match`: false at the end, otherwise whether the current kind is one of `kinds`. */
  predicate Match(ts: seq<Token>, pos: nat, kinds: set<TokenType>) {
    pos < |ts| && ts[pos].kind in kinds
  }

  /** `check`: compares the current kind; at the end the read itself fails. */
  function Check(ts: seq<Token>, pos: nat, kind: TokenType): (r: Result<bool, ParseError>)
    ensures r.Err? <==> pos >= |ts|
    ensures r.Err? ==> r.error == ReadPastEnd
    ensures r.Ok? ==> (r.value <==> ts[pos].kind == kind)
  {
    if pos < |ts| then Ok(ts[pos].kind == kind) else Err(ReadPastEnd)
  }

  /** `consume`: takes the current token when it has the expected kind, else fails with the
      given message; at the end the read itself fails. */
  function Consume(ts: seq<Token>, pos: nat, kind: TokenType, message: string): (r: Result<Parsed<Token>, ParseError>)
    ensures r.Ok? <==> pos < |ts| && ts[pos].kind == kind
    ensures r.Ok? ==> r.value == Parsed(ts[pos], pos + 1)
    ensures r.Err? ==> r.error == (if pos < |ts| then Message(message) else ReadPastEnd)
  {
    if pos >= |ts| then Err(ReadPastEnd)
    else if ts[pos].kind == kind then Ok(Parsed(ts[pos], pos + 1))
    else Err(Message(message))
  }

  // ---------------------------------------------------------------------------------------
  // Number literals

  predicate IsDigitChar(c: char) {
    '0' <= c <= '9'
  }

  predicate AllDigits(s: string) {
    forall i | 0 <= i < |s| :: IsDigitChar(s[i])
  }

  /** The value of a string of decimal digits. */
  function DigitsValue(s: string): (r: nat)
    requires AllDigits(s)
  {
    if s == [] then 0
    else
      assert IsDigitChar(s[|s| - 1]);
      10 * DigitsValue(s[..|s| - 1]) + (s[|s| - 1] as int - '0' as int)
  }

  function Pow10(n: nat): (r: nat)
    ensures r >= 1
  {
    if n == 0 then 1 else 10 * Pow10(n - 1)
  }

  /** Digits are read left to right: in `a + b` the digits of `a` are worth `10^|b|` times
      more. */
  lemma {:induction false} DigitsConcat(a: string, b: string)
    requires AllDigits(a) && AllDigits(b)
    ensures AllDigits(a + b)
    ensures DigitsValue(a + b) == DigitsValue(a) * Pow10(|b|) + DigitsValue(b)
    decreases |b|
  {
    if b == [] {
      assert a + b == a;
    } else {
      var front := b[..|b| - 1];
      DigitsConcat(a, front);
      assert (a + b)[..|a + b| - 1] == a + front;
      assert (a + b)[|a + b| - 1] == b[|b| - 1];
      ShiftDigit(DigitsValue(a), Pow10(|front|), DigitsValue(front), b[|b| - 1] as int - '0' as int);
    }
  }

  /** One more digit after `x * p + y`: the arithmetic step of `DigitsConcat`. */
  lemma ShiftDigit(x: int, p: int, y: int, d: int)
    ensures 10 * (x * p + y) + d == x * (10 * p) + (10 * y + d)
  {
  }

  /** The literals the scanner produces for numbers: digits, then optionally a point and
      more digits. */
  predicate IsDecimal(s: string) {
    && |s| > 0
    && IsDigitChar(s[0])
    && (forall i | 0 <= i < |s| :: IsDigitChar(s[i]) || s[i] == '.')
    && (forall i, j | 0 <= i < j < |s| :: s[i] == '.' ==> s[j] != '.')
  }

  /** The position of the decimal point, or the length when there is none. */
  function PointAt(s: string): (r: nat)
    ensures r <= |s|
    ensures forall i | 0 <= i < r :: s[i] != '.'
    ensures r < |s| ==> s[r] == '.'
  {
    if s == [] then 0 else if s[0] == '.' then 0 else 1 + PointAt(s[1..])
  }

  /** The digits before the point of a decimal literal, and those after it. */
  function WholePart(s: string): (r: string)
    requires IsDecimal(s)
    ensures AllDigits(r) && |r| > 0
  {
    s[..PointAt(s)]
  }

  function FractionPart(s: string): (r: string)
    requires IsDecimal(s)
    ensures AllDigits(r) && |r| < |s|
  {
    if PointAt(s) < |s| then s[PointAt(s) + 1..] else []
  }

  /** `Number(literal)` for a NUMBER token: a decimal literal gives its whole part plus its
      fraction digits, read as a whole number, over ten to the number of those digits; a
      literal without a point gives the number its digits spell; `null` gives 0. */
  function NumberOf(lit: Option<string>): (r: real)
    ensures lit.None? || !IsDecimal(lit.value) ==> r == 0.0
    ensures lit.Some? && IsDecimal(lit.value) ==>
              r == DigitsValue(WholePart(lit.value)) as real
                   + DigitsValue(FractionPart(lit.value)) as real / Pow10(|FractionPart(lit.value)|) as real
    ensures lit.Some? && IsDecimal(lit.value) && '.' !in lit.value ==>
              AllDigits(lit.value) && r == DigitsValue(lit.value) as real
  {
    match lit
    case Some(s) =>
      if IsDecimal(s) then
        WithoutPoint(s);
        DigitsValue(WholePart(s)) as real + DigitsValue(FractionPart(s)) as real / Pow10(|FractionPart(s)|) as real
      else 0.0
    case None => 0.0
  }

  /** A decimal literal without a point is all whole part. */
  lemma WithoutPoint(s: string)
    requires IsDecimal(s)
    ensures '.' !in s ==> WholePart(s) == s && FractionPart(s) == []
  {
    if '.' !in s {
      assert PointAt(s) == |s|;
    }
  }

  // ---------------------------------------------------------------------------------------
  // Shapes: the grammar the parser's expression trees conform to

  /** The precedence levels that share one loop: 0 factor, 1 term, 2 comparison, 3 equality,
      4 and, 5 or. */
  function LevelOps(lvl: nat): set<TokenType> {
    if lvl == 0 then {STAR, SLASH}
    else if lvl == 1 then {PLUS, MINUS}
    else if lvl == 2 then {GT, GTE, LT, LTE}
    else if lvl == 3 then {EQUALS_EQUALS, NOT_EQUALS}
    else if lvl == 4 then {AND}
    else {OR}
  }

  const OrLevel: nat := 5

  /** `primary`: a literal, a variable or a parenthesised expression. */
  predicate IsPrimary(e: Expr)
    decreases e, 0
  {
    e.Literal? || e.Variable? || (e.Grouping? && IsExpression(e.expression))
  }

  /** `call`: a primary followed by any number of argument lists. */
  predicate IsCall(e: Expr)
    decreases e, 1
  {
    IsPrimary(e)
    || (e.Call? && IsCall(e.callee) && e.paren.kind == C_PAREN && e.arguments.ArgList?
        && forall i | 0 <= i < |e.arguments.items| :: IsExpression(e.arguments.items[i]))
  }

  /** `unary`: a call, or `not`/`-` applied to a whole expression. */
  predicate IsUnary(e: Expr)
    decreases e, 2
  {
    IsCall(e) || (e.Unary? && e.op.kind in {NOT, MINUS} && IsExpression(e.right))
  }

  /** An expression of precedence level `lvl` or tighter: a left-associated chain of that
      level's operators whose right operands are one level tighter. */
  predicate AtLevel(e: Expr, lvl: nat)
    decreases e, 3 + lvl
  {
    (if lvl == 0 then IsUnary(e) else AtLevel(e, lvl - 1))
    || (&& (if lvl >= 4 then e.Logical? else e.Binary?)
        && e.op.kind in LevelOps(lvl)
        && AtLevel(e.left, lvl)
        && (if lvl == 0 then IsUnary(e.right) else AtLevel(e.right, lvl - 1)))
  }

  /** `expression`: an `or`-level expression, or an assignment to a variable whose value is
      again an expression (right-associative). */
  predicate IsExpression(e: Expr)
    decreases e, 9
  {
    AtLevel(e, OrLevel) || (e.Assignment? && IsExpression(e.rhs))
  }

  // ---------------------------------------------------------------------------------------
  // Expressions

  /** `expression`, which is `assignment`. */
  function Expression(ts: seq<Token>, pos: nat): (r: Result<Parsed<Expr>, ParseError>)
    requires pos <= |ts|
    ensures Advanced(ts, pos, r)
    ensures r.Ok? ==> IsExpression(r.value.node)
    decreases |ts| - pos, 16
  {
    ParseAssignment(ts, pos)
  }

  /** `assignment`: the value is parsed before the target is checked; only a variable may be
      assigned to. */
  function ParseAssignment(ts: seq<Token>, pos: nat): (r: Result<Parsed<Expr>, ParseError>)
    requires pos <= |ts|
    ensures Advanced(ts, pos, r)
    ensures r.Ok? ==> IsExpression(r.value.node)
    decreases |ts| - pos, 15
  {
    var target :- Level(ts, pos, OrLevel);
    if Match(ts, target.next, {EQUALS}) then
      var value :- ParseAssignment(ts, target.next + 1);
      if target.node.Variable? then Ok(Parsed(Assignment(target.node.name, value.node), value.next))
      else Err(Message(InvalidTarget))
    else Ok(target)
  }

  /** `or`, `and`, `equality`, `comparison`, `term` and `factor`: one operand, then the loop. */
  function Level(ts: seq<Token>, pos: nat, lvl: nat): (r: Result<Parsed<Expr>, ParseError>)
    requires pos <= |ts| && lvl <= OrLevel
    ensures Advanced(ts, pos, r)
    ensures r.Ok? ==> AtLevel(r.value.node, lvl)
    decreases |ts| - pos, 2 * lvl + 4
  {
    var left :- Operand(ts, pos, lvl);
    LevelLoop(ts, left.next, lvl, left.node)
  }

  /** The operand of a level: the next tighter level, or `unary` below `factor`. */
  function Operand(ts: seq<Token>, pos: nat, lvl: nat): (r: Result<Parsed<Expr>, ParseError>)
    requires pos <= |ts| && lvl <= OrLevel
    ensures Advanced(ts, pos, r)
    ensures r.Ok? ==> if lvl == 0 then IsUnary(r.value.node) else AtLevel(r.value.node, lvl - 1)
    decreases |ts| - pos, 2 * lvl + 3
  {
    if lvl == 0 then ParseUnary(ts, pos) else Level(ts, pos, lvl - 1)
  }

  /** The `while (match(...))` loop of a level: each operator and right operand wraps the
      expression so far, so chains associate to the left. */
  function LevelLoop(ts: seq<Token>, pos: nat, lvl: nat, left: Expr): (r: Result<Parsed<Expr>, ParseError>)
    requires pos <= |ts| && lvl <= OrLevel
    requires AtLevel(left, lvl)
    ensures Stayed(ts, pos, r)
    ensures r.Ok? ==> AtLevel(r.value.node, lvl)
    decreases |ts| - pos, 0
  {
    if Match(ts, pos, LevelOps(lvl)) then
      var right :- Operand(ts, pos + 1, lvl);
      var node := if lvl >= 4 then Logical(left, ts[pos], right.node) else Binary(left, ts[pos], right.node);
      LevelLoop(ts, right.next, lvl, node)
    else Ok(Parsed(left, pos))
  }

  /** `unary`: `not` or `-` takes a whole expression as operand. */
  function ParseUnary(ts: seq<Token>, pos: nat): (r: Result<Parsed<Expr>, ParseError>)
    requires pos <= |ts|
    ensures Advanced(ts, pos, r)
    ensures r.Ok? ==> IsUnary(r.value.node)
    decreases |ts| - pos, 2
  {
    if Match(ts, pos, {NOT, MINUS}) then
      var right :- Expression(ts, pos + 1);
      Ok(Parsed(Unary(ts[pos], right.node), right.next))
    else ParseCall(ts, pos)
  }

  /** `call`: a primary, then any number of argument lists. */
  function ParseCall(ts: seq<Token>, pos: nat): (r: Result<Parsed<Expr>, ParseError>)
    requires pos <= |ts|
    ensures Advanced(ts, pos, r)
    ensures r.Ok? ==> IsCall(r.value.node)
    decreases |ts| - pos, 1
  {
    var callee :- Primary(ts, pos);
    CallLoop(ts, callee.next, callee.node)
  }

  /** The loop of `call`: each `(` starts an argument list that wraps the callee so far. */
  function CallLoop(ts: seq<Token>, pos: nat, callee: Expr): (r: Result<Parsed<Expr>, ParseError>)
    requires pos <= |ts| && IsCall(callee)
    ensures Stayed(ts, pos, r)
    ensures r.Ok? ==> IsCall(r.value.node)
    decreases |ts| - pos, 0
  {
    if Match(ts, pos, {O_PAREN}) then
      var call :- FinishCall(ts, pos + 1, callee);
      CallLoop(ts, call.next, call.node)
    else Ok(Parsed(callee, pos))
  }

  /** `finishCall`: comma-separated arguments up to `)`, which the node keeps. The argument
      list of a parsed call is never null. More than 255 arguments only prints a message. */
  function FinishCall(ts: seq<Token>, pos: nat, callee: Expr): (r: Result<Parsed<Expr>, ParseError>)
    requires pos <= |ts| && IsCall(callee)
    ensures Advanced(ts, pos, r)
    ensures r.Ok? ==> IsCall(r.value.node) && r.value.node.Call? && r.value.node.callee == callee
    ensures r.Ok? ==> r.value.node.paren == ts[r.value.next - 1] && r.value.node.paren.kind == C_PAREN
    ensures Match(ts, pos, {C_PAREN}) ==> r == Ok(Parsed(Call(callee, ts[pos], ArgList([])), pos + 1))
    ensures pos == |ts| ==> r == Err(ReadPastEnd)
    ensures pos < |ts| && ts[pos].kind != C_PAREN && Arguments(ts, pos, []).Err? ==>
              r == Err(Arguments(ts, pos, []).error)
    ensures pos < |ts| && ts[pos].kind != C_PAREN && Arguments(ts, pos, []).Ok? ==>
              var args := Arguments(ts, pos, []).value;
              if Match(ts, args.next, {C_PAREN}) then r == Ok(Parsed(Call(callee, ts[args.next], ArgList(args.node)), args.next + 1))
              else r == Err(if args.next < |ts| then Message(ArgumentsClose) else ReadPastEnd)
    decreases |ts| - pos, 18
  {
    var close :- Check(ts, pos, C_PAREN);
    var args :- if close then Ok(Parsed([], pos)) else Arguments(ts, pos, []);
    var paren :- Consume(ts, args.next, C_PAREN, ArgumentsClose);
    Ok(Parsed(Call(callee, paren.node, ArgList(args.node)), paren.next))
  }

  /** The `do … while (match(COMMA))` loop of `finishCall`. */
  function Arguments(ts: seq<Token>, pos: nat, acc: seq<Expr>): (r: Result<Parsed<seq<Expr>>, ParseError>)
    requires pos <= |ts|
    requires forall i | 0 <= i < |acc| :: IsExpression(acc[i])
    ensures Advanced(ts, pos, r)
    ensures r.Ok? ==> acc < r.value.node && forall i | 0 <= i < |r.value.node| :: IsExpression(r.value.node[i])
    ensures Expression(ts, pos).Err? ==> r == Err(Expression(ts, pos).error)
    ensures r.Ok? ==> r.value.node[|acc|] == Expression(ts, pos).value.node
    ensures r.Ok? ==> !Match(ts, r.value.next, {COMMA})
    decreases |ts| - pos, 17
  {
    var arg :- Expression(ts, pos);
    if Match(ts, arg.next, {COMMA}) then Arguments(ts, arg.next + 1, acc + [arg.node])
    else Ok(Parsed(acc + [arg.node], arg.next))
  }

  /** `primary`: literals, a variable, or a parenthesised expression; anything else, the end
      of the tokens included, is an invalid expression. */
  function Primary(ts: seq<Token>, pos: nat): (r: Result<Parsed<Expr>, ParseError>)
    requires pos <= |ts|
    ensures Advanced(ts, pos, r)
    ensures r.Ok? ==> IsPrimary(r.value.node)
    ensures r.Err? && !Match(ts, pos, {O_PAREN}) ==> r.error == Message(InvalidExpression)
    ensures pos == |ts| || ts[pos].kind !in {FALSE, TRUE, NIL, STRING, NUMBER, IDENT, O_PAREN} ==>
              r == Err(Message(InvalidExpression))
    ensures pos < |ts| && ts[pos].kind == FALSE ==> r == Ok(Parsed(Literal(Bool(false)), pos + 1))
    ensures pos < |ts| && ts[pos].kind == TRUE ==> r == Ok(Parsed(Literal(Bool(true)), pos + 1))
    ensures pos < |ts| && ts[pos].kind == NIL ==> r == Ok(Parsed(Literal(Nil), pos + 1))
    ensures pos < |ts| && ts[pos].kind == STRING && ts[pos].literal.Some? ==>
              r == Ok(Parsed(Literal(Str(ts[pos].literal.value)), pos + 1))
    ensures pos < |ts| && ts[pos].kind == STRING && ts[pos].literal.None? ==>
              r == Ok(Parsed(Literal(Nil), pos + 1))
    ensures pos < |ts| && ts[pos].kind == NUMBER ==>
              r == Ok(Parsed(Literal(Num(NumberOf(ts[pos].literal))), pos + 1))
    ensures pos < |ts| && ts[pos].kind == IDENT ==> r == Ok(Parsed(Variable(ts[pos]), pos + 1))
    ensures pos < |ts| && ts[pos].kind == O_PAREN && r.Ok? ==>
              && r.value.node.Grouping? && ts[r.value.next - 1].kind == C_PAREN
              && Expression(ts, pos + 1) == Ok(Parsed(r.value.node.expression, r.value.next - 1))
    decreases |ts| - pos, 0
  {
    // The source tries `match` for each kind in turn; the kinds are distinct, so this is a
    // dispatch on the current kind.
    if pos >= |ts| then Err(Message(InvalidExpression))
    else
      match ts[pos].kind
      case FALSE => Ok(Parsed(Literal(Bool(false)), pos + 1))
      case TRUE => Ok(Parsed(Literal(Bool(true)), pos + 1))
      case NIL => Ok(Parsed(Literal(Nil), pos + 1))
      case STRING =>
        var value := match ts[pos].literal case Some(s) => Str(s) case None => Nil;
        Ok(Parsed(Literal(value), pos + 1))
      case NUMBER => Ok(Parsed(Literal(Num(NumberOf(ts[pos].literal))), pos + 1))
      case IDENT => Ok(Parsed(Variable(ts[pos]), pos + 1))
      case O_PAREN =>
        var inner :- Expression(ts, pos + 1);
        var close :- Consume(ts, inner.next, C_PAREN, GroupingClose);
        Ok(Parsed(Grouping(inner.node), close.next))
      case _ => Err(Message(InvalidExpression))
  }

  /** An expression unless the current token is `stop`, which is left in place. */
  function OptionalExpression(ts: seq<Token>, pos: nat, stop: TokenType): (r: Result<Parsed<Option<Expr>>, ParseError>)
    requires pos <= |ts|
    ensures Stayed(ts, pos, r)
    ensures r.Ok? ==> pos < |ts| && (r.value.node.None? <==> ts[pos].kind == stop)
    ensures r.Ok? && r.value.node.None? ==> r.value.next == pos
    decreases |ts| - pos, 17
  {
    var stopHere :- Check(ts, pos, stop);
    if stopHere then Ok(Parsed(None, pos))
    else
      var e :- Expression(ts, pos);
      Ok(Parsed(Some(e.node), e.next))
  }

  // ---------------------------------------------------------------------------------------
  // Statements

  /** `parse`: declarations until the tokens run out. Any error aborts the whole parse (the
      source prints it and returns null); there is no recovery. */
  function Parse(ts: seq<Token>): (r: Result<seq<Stmt>, ParseError>)
    ensures r.Ok? ==> |r.value| <= |ts|
  {
    Program(ts, 0, [])
  }

  /** The loop of `parse` from `pos`, with the declarations read so far. */
  function Program(ts: seq<Token>, pos: nat, acc: seq<Stmt>): (r: Result<seq<Stmt>, ParseError>)
    requires pos <= |ts|
    ensures r.Ok? ==> acc <= r.value && |r.value| - |acc| <= |ts| - pos
    decreases |ts| - pos, 21
  {
    if pos >= |ts| then Ok(acc)
    else
      var decl :- Declaration(ts, pos);
      Program(ts, decl.next, acc + [decl.node])
  }

  /** `declaration`: `let`, `func`, or a statement. */
  function Declaration(ts: seq<Token>, pos: nat): (r: Result<Parsed<Stmt>, ParseError>)
    requires pos <= |ts|
    ensures Advanced(ts, pos, r)
    decreases |ts| - pos, 20
  {
    if Match(ts, pos, {LET}) then VarDeclaration(ts, pos + 1)
    else if Match(ts, pos, {FUNC}) then FuncDeclaration(ts, pos + 1)
    else Statement(ts, pos)
  }

  /** `varDeclaration`: a name and an optional `= expression`; no terminator. */
  function VarDeclaration(ts: seq<Token>, pos: nat): (r: Result<Parsed<Stmt>, ParseError>)
    requires pos <= |ts|
    ensures Advanced(ts, pos, r)
    ensures r.Ok? ==> r.value.node.VarDecl? && r.value.node.name == ts[pos]
    ensures !Match(ts, pos, {IDENT}) ==> r == Err(if pos < |ts| then Message(VariableName) else ReadPastEnd)
    ensures r.Ok? && r.value.node.initializer.None? ==> r.value.next == pos + 1 && !Match(ts, pos + 1, {EQUALS})
    ensures r.Ok? && r.value.node.initializer.Some? ==>
              && Match(ts, pos + 1, {EQUALS})
              && Expression(ts, pos + 2) == Ok(Parsed(r.value.node.initializer.value, r.value.next))
    decreases |ts| - pos, 0
  {
    var name :- Consume(ts, pos, IDENT, VariableName);
    if Match(ts, name.next, {EQUALS}) then
      var init :- Expression(ts, name.next + 1);
      Ok(Parsed(VarDecl(name.node, Some(init.node)), init.next))
    else Ok(Parsed(VarDecl(name.node, None), name.next))
  }

  /** `funcDeclaration`: name, parenthesised parameter names, and a block body. */
  function FuncDeclaration(ts: seq<Token>, pos: nat): (r: Result<Parsed<Stmt>, ParseError>)
    requires pos <= |ts|
    ensures Advanced(ts, pos, r)
    ensures r.Ok? ==> r.value.node.FuncDecl? && r.value.node.name == ts[pos]
    ensures !Match(ts, pos, {IDENT}) ==> r == Err(if pos < |ts| then Message(FunctionName) else ReadPastEnd)
    ensures Match(ts, pos, {IDENT}) && ParameterList(ts, pos + 1).Ok? ==>
              var open := ParameterList(ts, pos + 1).value.next;
              !Match(ts, open, {O_BRACKET}) ==> r == Err(if open < |ts| then Message(FunctionBodyOpen) else ReadPastEnd)
    decreases |ts| - pos, 0
  {
    if !Match(ts, pos, {IDENT}) then Err(if pos < |ts| then Message(FunctionName) else ReadPastEnd)
    else match ParameterList(ts, pos + 1)
      case Err(e) => Err(e)
      case Ok(params) =>
        if !Match(ts, params.next, {O_BRACKET}) then
          Err(if params.next < |ts| then Message(FunctionBodyOpen) else ReadPastEnd)
        else match BlockBody(ts, params.next + 1)
          case Err(e) => Err(e)
          case Ok(body) => Ok(Parsed(FuncDecl(ts[pos], params.node, body.node), body.next))
  }

  /** The parameter list of `funcDeclaration`: `(`, names separated by commas, `)`. More than
      255 parameters only prints a message. */
  function ParameterList(ts: seq<Token>, pos: nat): (r: Result<Parsed<seq<Token>>, ParseError>)
    requires pos <= |ts|
    ensures Advanced(ts, pos, r)
    ensures r.Ok? ==> forall i | 0 <= i < |r.value.node| :: r.value.node[i].kind == IDENT
    ensures !Match(ts, pos, {O_PAREN}) ==> r == Err(if pos < |ts| then Message(ParametersOpen) else ReadPastEnd)
    ensures Match(ts, pos, {O_PAREN}) && Match(ts, pos + 1, {C_PAREN}) ==> r == Ok(Parsed([], pos + 2))
    ensures r.Ok? ==> ts[pos].kind == O_PAREN && ts[r.value.next - 1].kind == C_PAREN
    ensures r.Ok? && r.value.node != [] ==> Parameters(ts, pos + 1, []) == Ok(Parsed(r.value.node, r.value.next - 1))
  {
    var open :- Consume(ts, pos, O_PAREN, ParametersOpen);
    ParameterNames(ts, pos + 1)
  }

  /** What follows the `(` of a parameter list: `)` at once, or names and then `)`. */
  function ParameterNames(ts: seq<Token>, pos: nat): (r: Result<Parsed<seq<Token>>, ParseError>)
    requires pos <= |ts|
    ensures Advanced(ts, pos, r)
    ensures r.Ok? ==> forall i | 0 <= i < |r.value.node| :: r.value.node[i].kind == IDENT
    ensures r.Ok? ==> ts[r.value.next - 1].kind == C_PAREN
    ensures pos == |ts| ==> r == Err(ReadPastEnd)
    ensures Match(ts, pos, {C_PAREN}) ==> r == Ok(Parsed([], pos + 1))
    ensures pos < |ts| && ts[pos].kind != C_PAREN && Parameters(ts, pos, []).Err? ==>
              r == Err(Parameters(ts, pos, []).error)
    ensures pos < |ts| && ts[pos].kind != C_PAREN && Parameters(ts, pos, []).Ok? ==>
              var names := Parameters(ts, pos, []).value;
              if Match(ts, names.next, {C_PAREN}) then r == Ok(Parsed(names.node, names.next + 1))
              else r == Err(if names.next < |ts| then Message(ParametersClose) else ReadPastEnd)
  {
    var close :- Check(ts, pos, C_PAREN);
    var params :- if close then Ok(Parsed([], pos)) else Parameters(ts, pos, []);
    var closeParen :- Consume(ts, params.next, C_PAREN, ParametersClose);
    Ok(Parsed(params.node, closeParen.next))
  }

  /** The `do … while (match(COMMA))` loop of parameter names. */
  function Parameters(ts: seq<Token>, pos: nat, acc: seq<Token>): (r: Result<Parsed<seq<Token>>, ParseError>)
    requires pos <= |ts|
    requires forall i | 0 <= i < |acc| :: acc[i].kind == IDENT
    ensures Advanced(ts, pos, r)
    ensures r.Ok? ==> acc < r.value.node && forall i | 0 <= i < |r.value.node| :: r.value.node[i].kind == IDENT
    ensures !Match(ts, pos, {IDENT}) ==> r == Err(if pos < |ts| then Message(ParameterName) else ReadPastEnd)
    ensures r.Ok? ==> r.value.node[|acc|] == ts[pos] && !Match(ts, r.value.next, {COMMA})
    decreases |ts| - pos
  {
    var param :- Consume(ts, pos, IDENT, ParameterName);
    if Match(ts, param.next, {COMMA}) then Parameters(ts, param.next + 1, acc + [param.node])
    else Ok(Parsed(acc + [param.node], param.next))
  }

  /** `statement`: dispatch on the first token; anything else is an expression statement. */
  function Statement(ts: seq<Token>, pos: nat): (r: Result<Parsed<Stmt>, ParseError>)
    requires pos <= |ts|
    ensures Advanced(ts, pos, r)
    decreases |ts| - pos, 19
  {
    if Match(ts, pos, {PRINT}) then
      var e :- Expression(ts, pos + 1);
      Ok(Parsed(Print(e.node), e.next))
    else if Match(ts, pos, {O_BRACKET}) then
      var body :- BlockBody(ts, pos + 1);
      Ok(Parsed(Block(body.node), body.next))
    else if Match(ts, pos, {IF}) then IfStatement(ts, pos + 1)
    else if Match(ts, pos, {FOR}) then ForStatement(ts, pos + 1)
    else if Match(ts, pos, {WHILE}) then WhileStatement(ts, pos + 1)
    else if Match(ts, pos, {RETURN}) then ReturnStatement(ts, pos + 1, ts[pos])
    else ExpressionStatement(ts, pos)
  }

  /** `expressionStatement`: an expression with no terminator. */
  function ExpressionStatement(ts: seq<Token>, pos: nat): (r: Result<Parsed<Stmt>, ParseError>)
    requires pos <= |ts|
    ensures Advanced(ts, pos, r)
    ensures r.Ok? ==> r.value.node.ExprStmt? && IsExpression(r.value.node.expression)
    ensures r.Ok? <==> Expression(ts, pos).Ok?
    ensures r.Ok? ==> Expression(ts, pos) == Ok(Parsed(r.value.node.expression, r.value.next))
    decreases |ts| - pos, 17
  {
    var e :- Expression(ts, pos);
    Ok(Parsed(ExprStmt(e.node), e.next))
  }

  /** The body of a block or a `while`: declarations up to `}`, which is consumed. Reaching
      the end of the tokens first fails, because the loop's `check` reads past the end; so the
      closing `consume` never fails and its message never appears. */
  function BlockBody(ts: seq<Token>, pos: nat): (r: Result<Parsed<seq<Stmt>>, ParseError>)
    requires pos <= |ts|
    ensures Advanced(ts, pos, r)
    ensures r.Ok? ==> ts[r.value.next - 1].kind == C_BRACKET
    decreases |ts| - pos, 22
  {
    var decls :- Declarations(ts, pos, []);
    Ok(Parsed(decls.node, decls.next + 1))
  }

  /** The `while (!check(C_BRACKET) && !isAtEnd())` loop: stops before `}`. */
  function Declarations(ts: seq<Token>, pos: nat, acc: seq<Stmt>): (r: Result<Parsed<seq<Stmt>>, ParseError>)
    requires pos <= |ts|
    ensures Stayed(ts, pos, r)
    ensures r.Ok? ==> r.value.next < |ts| && ts[r.value.next].kind == C_BRACKET && acc <= r.value.node
    ensures r.Err? && pos == |ts| ==> r.error == ReadPastEnd
    decreases |ts| - pos, 21
  {
    var close :- Check(ts, pos, C_BRACKET);
    if close then Ok(Parsed(acc, pos))
    else
      var decl :- Declaration(ts, pos);
      Declarations(ts, decl.next, acc + [decl.node])
  }

  /** `ifStatement`: `( condition )`, a statement, and an optional `else` statement. */
  function IfStatement(ts: seq<Token>, pos: nat): (r: Result<Parsed<Stmt>, ParseError>)
    requires pos <= |ts|
    ensures Advanced(ts, pos, r)
    ensures r.Ok? ==> r.value.node.If?
    decreases |ts| - pos, 0
  {
    var open :- Consume(ts, pos, O_PAREN, IfOpen);
    var cond :- Expression(ts, open.next);
    var close :- Consume(ts, cond.next, C_PAREN, ConditionClose);
    var thenBranch :- Statement(ts, close.next);
    if Match(ts, thenBranch.next, {ELSE}) then
      var elseBranch :- Statement(ts, thenBranch.next + 1);
      Ok(Parsed(If(cond.node, thenBranch.node, Some(elseBranch.node)), elseBranch.next))
    else Ok(Parsed(If(cond.node, thenBranch.node, None), thenBranch.next))
  }

  /** The `for` loop as `while`: the increment joins the body in a block, a missing
      condition becomes `true`, and the initializer and the loop share an outer block. A
      block is added only for a clause that is present. */
  function Desugar(init: Option<Stmt>, cond: Option<Expr>, incr: Option<Expr>, body: Stmt): Stmt {
    var loopBody := if incr.Some? then Block([body, ExprStmt(incr.value)]) else body;
    var loop := While(if cond.Some? then cond.value else Literal(Bool(true)), [loopBody]);
    if init.Some? then Block([init.value, loop]) else loop
  }

  /** `forStatement`: `( init ; cond ; incr ) body`, desugared. */
  function ForStatement(ts: seq<Token>, pos: nat): (r: Result<Parsed<Stmt>, ParseError>)
    requires pos <= |ts|
    ensures Advanced(ts, pos, r)
    decreases |ts| - pos, 0
  {
    var open :- Consume(ts, pos, O_PAREN, ForOpen);
    var init :- ForInitializer(ts, open.next);
    ForCondition(ts, init.next, init.node)
  }

  /** The condition clause of `forStatement` and its `;`, after the initializer. */
  function ForCondition(ts: seq<Token>, pos: nat, init: Option<Stmt>): (r: Result<Parsed<Stmt>, ParseError>)
    requires pos <= |ts|
    ensures Advanced(ts, pos, r)
    decreases |ts| - pos, 18
  {
    var cond :- OptionalExpression(ts, pos, SEMICOLON);
    var semi :- Consume(ts, cond.next, SEMICOLON, ForConditionEnd);
    ForRest(ts, semi.next, init, cond.node)
  }

  /** The rest of `forStatement` after the condition's `;`: the increment, `)` and the body. */
  function ForRest(ts: seq<Token>, pos: nat, init: Option<Stmt>, cond: Option<Expr>): (r: Result<Parsed<Stmt>, ParseError>)
    requires pos <= |ts|
    ensures Advanced(ts, pos, r)
    decreases |ts| - pos, 18
  {
    var incr :- OptionalExpression(ts, pos, C_PAREN);
    var close :- Consume(ts, incr.next, C_PAREN, ForClauseClose);
    var body :- Statement(ts, close.next);
    Ok(Parsed(Desugar(init, cond, incr.node, body.node), body.next))
  }

  /** The initializer clause of `for`: `;` alone, or a `let` or an expression statement
      followed by `;`. */
  function ForInitializer(ts: seq<Token>, pos: nat): (r: Result<Parsed<Option<Stmt>>, ParseError>)
    requires pos <= |ts|
    ensures Advanced(ts, pos, r)
    decreases |ts| - pos, 20
  {
    if Match(ts, pos, {SEMICOLON}) then Ok(Parsed(None, pos + 1))
    else if Match(ts, pos, {LET}) then
      var decl :- VarDeclaration(ts, pos + 1);
      Terminated(ts, decl)
    else
      var stmt :- ExpressionStatement(ts, pos);
      Terminated(ts, stmt)
  }

  /** The `;` that must follow a `for` initializer. */
  function Terminated(ts: seq<Token>, init: Parsed<Stmt>): (r: Result<Parsed<Option<Stmt>>, ParseError>)
    requires init.next <= |ts|
    ensures Advanced(ts, init.next, r)
    ensures r.Ok? ==> r.value.node == Some(init.node) && ts[r.value.next - 1].kind == SEMICOLON
  {
    var semi :- Consume(ts, init.next, SEMICOLON, ForInitializerEnd);
    Ok(Parsed(Some(init.node), semi.next))
  }

  /** `whileStatement`: `( condition )` and a braced list of declarations. */
  function WhileStatement(ts: seq<Token>, pos: nat): (r: Result<Parsed<Stmt>, ParseError>)
    requires pos <= |ts|
    ensures Advanced(ts, pos, r)
    ensures r.Ok? ==> r.value.node.While? && ts[r.value.next - 1].kind == C_BRACKET
    decreases |ts| - pos, 0
  {
    var open :- Consume(ts, pos, O_PAREN, WhileOpen);
    var cond :- Expression(ts, open.next);
    WhileBody(ts, cond.next, cond.node)
  }

  /** The rest of `whileStatement` after its condition: `)`, `{`, and the body. */
  function WhileBody(ts: seq<Token>, pos: nat, cond: Expr): (r: Result<Parsed<Stmt>, ParseError>)
    requires pos <= |ts|
    ensures Advanced(ts, pos, r)
    ensures r.Ok? ==> r.value.node.While? && r.value.node.condition == cond && ts[r.value.next - 1].kind == C_BRACKET
    decreases |ts| - pos, 0
  {
    var close :- Consume(ts, pos, C_PAREN, ConditionClose);
    WhileBlock(ts, close.next, cond)
  }

  /** The loop body of `whileStatement`: `{`, then the declarations up to `}`. */
  function WhileBlock(ts: seq<Token>, pos: nat, cond: Expr): (r: Result<Parsed<Stmt>, ParseError>)
    requires pos <= |ts|
    ensures Advanced(ts, pos, r)
    ensures r.Ok? ==> r.value.node.While? && r.value.node.condition == cond && ts[r.value.next - 1].kind == C_BRACKET
    ensures pos < |ts| && ts[pos].kind != O_BRACKET ==> r == Err(Message(WhileBodyOpen))
    ensures pos == |ts| ==> r == Err(ReadPastEnd)
    decreases |ts| - pos, 0
  {
    var openBody :- Consume(ts, pos, O_BRACKET, WhileBodyOpen);
    var body :- BlockBody(ts, openBody.next);
    Ok(Parsed(While(cond, body.node), body.next))
  }

  /** `returnStatement`: an optional value and a required `;`. */
  function ReturnStatement(ts: seq<Token>, pos: nat, keyword: Token): (r: Result<Parsed<Stmt>, ParseError>)
    requires pos <= |ts|
    ensures Advanced(ts, pos, r)
    ensures r.Ok? ==> r.value.node.Return? && r.value.node.keyword == keyword && ts[r.value.next - 1].kind == SEMICOLON
    decreases |ts| - pos, 18
  {
    var value :- OptionalExpression(ts, pos, SEMICOLON);
    var semi :- Consume(ts, value.next, SEMICOLON, ReturnEnd);
    Ok(Parsed(Return(keyword, value.node), semi.next))
  }
}
