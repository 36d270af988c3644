/** Properties of the parser: precedence and associativity of the trees it builds, the
    shapes of its statements, and its error cases, in general and on small token lists. */
module ParserProperties {
  import opened Wrappers
  import opened Tokens
  import opened Grammar
  import opened Parser

  // ---------------------------------------------------------------------------------------
  // Precedence

  /** The operators of all levels up to `lvl`. */
  function OpsUpTo(lvl: nat): set<TokenType>
    requires lvl <= OrLevel
  {
    if lvl == 0 then LevelOps(0) else OpsUpTo(lvl - 1) + LevelOps(lvl)
  }

  /** No operator belongs to two levels. */
  lemma LevelOpsDisjoint(i: nat, j: nat)
    requires i <= OrLevel && j <= OrLevel && i != j
    ensures LevelOps(i) !! LevelOps(j)
  {
  }

  /** A unary-level expression is never an operator node. */
  lemma UnaryIsNoOperator(e: Expr)
    requires IsUnary(e)
    ensures !e.Binary? && !e.Logical?
  {
    assert IsCall(e) || e.Unary?;
    if IsCall(e) {
      assert IsPrimary(e) || e.Call?;
    }
  }

  /** An operator node of level `lvl` or tighter carries an operator of one of those levels. */
  lemma {:induction false} NodeOperator(e: Expr, lvl: nat)
    requires lvl <= OrLevel && AtLevel(e, lvl) && (e.Binary? || e.Logical?)
    ensures e.op.kind in OpsUpTo(lvl)
  {
    if lvl > 0 && AtLevel(e, lvl - 1) {
      NodeOperator(e, lvl - 1);
    } else if lvl == 0 && IsUnary(e) {
      UnaryIsNoOperator(e);
    }
  }

  /** Every operator is not above `lvl` when it is in the operators up to `lvl`. */
  lemma {:induction false} OpsUpToBound(k: nat, lvl: nat)
    requires lvl < k <= OrLevel
    ensures OpsUpTo(lvl) !! LevelOps(k)
  {
    LevelOpsDisjoint(lvl, k);
    if lvl > 0 {
      OpsUpToBound(k, lvl - 1);
    }
  }

  /** Precedence and associativity: in a tree of level `lvl`, a node whose operator belongs to
      level `k` has a left operand of level `k` and a right operand strictly tighter than `k`.
      So `a - b - c` can only be `(a - b) - c`, and `a + b * c` only `a + (b * c)`. */
  lemma {:induction false} OperandLevels(e: Expr, lvl: nat, k: nat)
    requires k <= lvl <= OrLevel && AtLevel(e, lvl)
    requires (e.Binary? || e.Logical?) && e.op.kind in LevelOps(k)
    ensures AtLevel(e.left, k)
    ensures if k == 0 then IsUnary(e.right) else AtLevel(e.right, k - 1)
    ensures e.Logical? <==> k >= 4
  {
    if lvl > 0 && AtLevel(e, lvl - 1) {
      if k < lvl {
        OperandLevels(e, lvl - 1, k);
      } else {
        NodeOperator(e, lvl - 1);
        OpsUpToBound(lvl, lvl - 1);
        assert false;
      }
    } else if lvl == 0 && IsUnary(e) {
      UnaryIsNoOperator(e);
    } else if k != lvl {
      LevelOpsDisjoint(k, lvl);
    }
  }

  // ---------------------------------------------------------------------------------------
  // Building blocks for concrete token lists

  /** An identifier not followed by `(` is a variable on its own. */
  lemma IdentAtom(ts: seq<Token>, pos: nat)
    requires pos < |ts| && ts[pos].kind == IDENT && !Match(ts, pos + 1, {O_PAREN})
    ensures ParseUnary(ts, pos) == Ok(Parsed(Variable(ts[pos]), pos + 1))
  {
    assert Primary(ts, pos) == Ok(Parsed(Variable(ts[pos]), pos + 1));
    assert CallLoop(ts, pos + 1, Variable(ts[pos])) == Ok(Parsed(Variable(ts[pos]), pos + 1));
    assert ParseCall(ts, pos) == Ok(Parsed(Variable(ts[pos]), pos + 1));
  }

  /** A level whose loop finds no operator of its own returns its operand unchanged. */
  lemma {:induction false} LevelsPassThrough(ts: seq<Token>, pos: nat, lo: nat, hi: nat)
    requires pos <= |ts| && lo <= hi <= OrLevel
    requires Level(ts, pos, lo).Ok?
    requires forall k | lo < k <= hi :: !Match(ts, Level(ts, pos, lo).value.next, LevelOps(k))
    ensures Level(ts, pos, hi) == Level(ts, pos, lo)
    decreases hi
  {
    if lo < hi {
      LevelsPassThrough(ts, pos, lo, hi - 1);
    }
  }

  /** The loop of a level when its operand is followed by no operator of that level. */
  lemma LoopStops(ts: seq<Token>, pos: nat, lvl: nat, left: Expr)
    requires pos <= |ts| && lvl <= OrLevel && AtLevel(left, lvl) && !Match(ts, pos, LevelOps(lvl))
    ensures LevelLoop(ts, pos, lvl, left) == Ok(Parsed(left, pos))
  {
  }

  // ---------------------------------------------------------------------------------------
  // Small token lists

  /** A token of the given kind with no literal. */
  function T(k: TokenType): Token {
    Token(k, None, (1, 1), (0, 0))
  }

  /** An identifier token. */
  function Id(name: string): Token {
    Token(IDENT, Some(name), (1, 1), (0, 0))
  }

  const A: Expr := Variable(Id("a"))
  const B: Expr := Variable(Id("b"))
  const C: Expr := Variable(Id("c"))

  /** The tokens that would continue an expression after a primary. */
  const Continuing: set<TokenType> :=
    {STAR, SLASH, PLUS, MINUS, GT, GTE, LT, LTE, EQUALS_EQUALS, NOT_EQUALS, AND, OR, O_PAREN, EQUALS}

  /** An identifier followed by nothing that continues an expression is a whole expression. */
  lemma VariableExpression(ts: seq<Token>, pos: nat)
    requires pos < |ts| && ts[pos].kind == IDENT && !Match(ts, pos + 1, Continuing)
    ensures Expression(ts, pos) == Ok(Parsed(Variable(ts[pos]), pos + 1))
  {
    var v := Variable(ts[pos]);
    IdentAtom(ts, pos);
    assert LevelLoop(ts, pos + 1, 0, v) == Ok(Parsed(v, pos + 1));
    assert Level(ts, pos, 0) == Ok(Parsed(v, pos + 1));
    LevelsPassThrough(ts, pos, 0, OrLevel);
  }

  /** A variable belongs to every level. */
  lemma {:induction false} VariableAtLevel(e: Expr, lvl: nat)
    requires e.Variable?
    ensures IsUnary(e) && AtLevel(e, lvl)
  {
    assert IsPrimary(e) && IsCall(e);
    if lvl > 0 {
      VariableAtLevel(e, lvl - 1);
    }
  }

  /** `b * c` inside `a + b * c`. */
  lemma ProductOperand(ts: seq<Token>)
    requires ts == [Id("a"), T(PLUS), Id("b"), T(STAR), Id("c")]
    ensures Level(ts, 2, 0) == Ok(Parsed(Binary(B, T(STAR), C), 5))
  {
    IdentAtom(ts, 2);
    IdentAtom(ts, 4);
    var bc := Binary(B, T(STAR), C);
    assert Operand(ts, 4, 0) == Ok(Parsed(C, 5));
    assert LevelLoop(ts, 5, 0, bc) == Ok(Parsed(bc, 5));
    assert LevelLoop(ts, 3, 0, B) == Ok(Parsed(bc, 5));
    assert Operand(ts, 2, 0) == Ok(Parsed(B, 3));
  }

  /** `a + b * c` at the `term` level. */
  lemma SumOfProduct(ts: seq<Token>)
    requires ts == [Id("a"), T(PLUS), Id("b"), T(STAR), Id("c")]
    ensures Level(ts, 0, 1) == Ok(Parsed(Binary(A, T(PLUS), Binary(B, T(STAR), C)), 5))
  {
    IdentAtom(ts, 0);
    ProductOperand(ts);
    var bc := Binary(B, T(STAR), C);
    var abc := Binary(A, T(PLUS), bc);
    VariableAtLevel(A, 1);
    VariableAtLevel(B, 0);
    VariableAtLevel(C, 0);
    assert AtLevel(bc, 0);
    assert AtLevel(abc, 1);
    assert Level(ts, 0, 0) == Ok(Parsed(A, 1));
    assert Operand(ts, 2, 1) == Ok(Parsed(bc, 5));
    assert LevelLoop(ts, 5, 1, abc) == Ok(Parsed(abc, 5));
    assert LevelLoop(ts, 1, 1, A) == Ok(Parsed(abc, 5));
  }

  /** `a + b * c` is `a + (b * c)`. */
  lemma TimesBindsTighter(ts: seq<Token>)
    requires ts == [Id("a"), T(PLUS), Id("b"), T(STAR), Id("c")]
    ensures Expression(ts, 0) == Ok(Parsed(Binary(A, T(PLUS), Binary(B, T(STAR), C)), 5))
  {
    SumOfProduct(ts);
    LevelsPassThrough(ts, 0, 1, OrLevel);
  }

  /** `a - b - c` at the `term` level. */
  lemma DifferenceChain(ts: seq<Token>)
    requires ts == [Id("a"), T(MINUS), Id("b"), T(MINUS), Id("c")]
    ensures Level(ts, 0, 1) == Ok(Parsed(Binary(Binary(A, T(MINUS), B), T(MINUS), C), 5))
  {
    IdentAtom(ts, 0);
    IdentAtom(ts, 2);
    IdentAtom(ts, 4);
    var ab := Binary(A, T(MINUS), B);
    var abc := Binary(ab, T(MINUS), C);
    assert Level(ts, 0, 0) == Ok(Parsed(A, 1));
    assert Level(ts, 2, 0) == Ok(Parsed(B, 3));
    assert Level(ts, 4, 0) == Ok(Parsed(C, 5));
    assert LevelLoop(ts, 5, 1, abc) == Ok(Parsed(abc, 5));
    assert LevelLoop(ts, 3, 1, ab) == Ok(Parsed(abc, 5));
    assert LevelLoop(ts, 1, 1, A) == Ok(Parsed(abc, 5));
  }

  /** `a - b - c` is `(a - b) - c`. */
  lemma MinusChainsLeft(ts: seq<Token>)
    requires ts == [Id("a"), T(MINUS), Id("b"), T(MINUS), Id("c")]
    ensures Expression(ts, 0) == Ok(Parsed(Binary(Binary(A, T(MINUS), B), T(MINUS), C), 5))
  {
    DifferenceChain(ts);
    LevelsPassThrough(ts, 0, 1, OrLevel);
  }

  /** The operand of `-` is a whole expression: `- a + b` is `-(a + b)`. */
  lemma UnaryTakesExpression(ts: seq<Token>)
    requires ts == [T(MINUS), Id("a"), T(PLUS), Id("b")]
    ensures Expression(ts, 0) == Ok(Parsed(Unary(T(MINUS), Binary(A, T(PLUS), B)), 4))
  {
    IdentAtom(ts, 1);
    IdentAtom(ts, 3);
    var ab := Binary(A, T(PLUS), B);
    var neg := Unary(T(MINUS), ab);
    assert Level(ts, 1, 0) == Ok(Parsed(A, 2));
    assert Level(ts, 3, 0) == Ok(Parsed(B, 4));
    assert LevelLoop(ts, 4, 1, ab) == Ok(Parsed(ab, 4));
    assert LevelLoop(ts, 2, 1, A) == Ok(Parsed(ab, 4));
    assert Level(ts, 1, 1) == Ok(Parsed(ab, 4));
    LevelsPassThrough(ts, 1, 1, OrLevel);
    assert Expression(ts, 1) == Ok(Parsed(ab, 4));
    assert ParseUnary(ts, 0) == Ok(Parsed(neg, 4));
    assert LevelLoop(ts, 4, 0, neg) == Ok(Parsed(neg, 4));
    assert Level(ts, 0, 0) == Ok(Parsed(neg, 4));
    LevelsPassThrough(ts, 0, 0, OrLevel);
  }
  /** The value of an assignment is parsed first; then a target that is no variable is
      rejected: `a + b = c` fails. */
  lemma InvalidAssignmentTarget(ts: seq<Token>)
    requires ts == [Id("a"), T(PLUS), Id("b"), T(EQUALS), Id("c")]
    ensures Expression(ts, 0) == Err(Message(InvalidTarget))
  {
    IdentAtom(ts, 0);
    IdentAtom(ts, 2);
    var ab := Binary(A, T(PLUS), B);
    VariableAtLevel(A, 1);
    VariableAtLevel(B, 0);
    assert Level(ts, 0, 0) == Ok(Parsed(A, 1));
    assert Level(ts, 2, 0) == Ok(Parsed(B, 3));
    assert LevelLoop(ts, 3, 1, ab) == Ok(Parsed(ab, 3));
    assert LevelLoop(ts, 1, 1, A) == Ok(Parsed(ab, 3));
    assert Level(ts, 0, 1) == Ok(Parsed(ab, 3));
    LevelsPassThrough(ts, 0, 1, OrLevel);
    VariableExpression(ts, 4);
  }

  /** An identifier followed by nothing that continues an expression is a whole `or`-level
      expression. */
  lemma VariableLevel(ts: seq<Token>, pos: nat)
    requires pos < |ts| && ts[pos].kind == IDENT && !Match(ts, pos + 1, Continuing)
    ensures Level(ts, pos, OrLevel) == Ok(Parsed(Variable(ts[pos]), pos + 1))
  {
    VariableExpression(ts, pos);
  }

  /** Assignment is right-associative: `a = b = c` is `a = (b = c)`. */
  lemma AssignmentNests(ts: seq<Token>)
    requires ts == [Id("a"), T(EQUALS), Id("b"), T(EQUALS), Id("c")]
    ensures Expression(ts, 0) == Ok(Parsed(Assignment(Id("a"), Assignment(Id("b"), C)), 5))
  {
    VariableExpression(ts, 4);
    assert ParseAssignment(ts, 4) == Ok(Parsed(C, 5));
    OrLevelBeforeEquals(ts, 2);
    assert ParseAssignment(ts, 2) == Ok(Parsed(Assignment(Id("b"), C), 5));
    OrLevelBeforeEquals(ts, 0);
  }

  /** An identifier followed by `=` is an `or`-level expression of its own. */
  lemma OrLevelBeforeEquals(ts: seq<Token>, pos: nat)
    requires pos + 1 < |ts| && ts[pos].kind == IDENT && ts[pos + 1].kind == EQUALS
    ensures Level(ts, pos, OrLevel) == Ok(Parsed(Variable(ts[pos]), pos + 1))
  {
    var v := Variable(ts[pos]);
    IdentAtom(ts, pos);
    assert LevelLoop(ts, pos + 1, 0, v) == Ok(Parsed(v, pos + 1));
    LevelsPassThrough(ts, pos, 0, OrLevel);
  }

  // ---------------------------------------------------------------------------------------
  // Statements

  /** `parse` keeps every declaration in order, and the first failing declaration fails the
      whole parse with its own error: there is no recovery. */
  lemma ProgramStep(ts: seq<Token>, pos: nat, acc: seq<Stmt>)
    requires pos < |ts|
    ensures var d := Declaration(ts, pos);
            Program(ts, pos, acc) == if d.Ok? then Program(ts, d.value.next, acc + [d.value.node]) else Err(d.error)
  {
  }

  /** `match` is `check` against each listed kind with the end of the tokens guarded first:
      it holds exactly when some listed kind checks true, and past the end it never holds
      where `check` would fail the read. */
  lemma MatchIsGuardedCheck(ts: seq<Token>, pos: nat, kinds: set<TokenType>)
    ensures Match(ts, pos, kinds) <==> exists k | k in kinds :: Check(ts, pos, k) == Ok(true)
    ensures pos >= |ts| ==> !Match(ts, pos, kinds) && forall k :: Check(ts, pos, k) == Err(ReadPastEnd)
  {
    if Match(ts, pos, kinds) {
      assert Check(ts, pos, ts[pos].kind) == Ok(true);
    }
  }

  /** Inside a block each declaration is kept in order until a `}`; a failing declaration
      fails the block. */
  lemma DeclarationsStep(ts: seq<Token>, pos: nat, acc: seq<Stmt>)
    requires pos < |ts| && ts[pos].kind != C_BRACKET
    ensures var d := Declaration(ts, pos);
            Declarations(ts, pos, acc) == if d.Ok? then Declarations(ts, d.value.next, acc + [d.value.node]) else Err(d.error)
  {
  }

  /** A `print` statement ends where its expression ends: no terminator is read. */
  lemma PrintEndsWithExpression(ts: seq<Token>, pos: nat)
    requires pos < |ts| && ts[pos].kind == PRINT
    ensures var e := Expression(ts, pos + 1);
            Declaration(ts, pos) == if e.Ok? then Ok(Parsed(Print(e.value.node), e.value.next)) else Err(e.error)
  {
    assert Statement(ts, pos) == Declaration(ts, pos);
  }

  /** `print a print b` is two statements. */
  lemma PrintNeedsNoTerminator(ts: seq<Token>)
    requires ts == [T(PRINT), Id("a"), T(PRINT), Id("b")]
    ensures Parse(ts) == Ok([Print(A), Print(B)])
  {
    VariableExpression(ts, 1);
    VariableExpression(ts, 3);
    PrintEndsWithExpression(ts, 0);
    PrintEndsWithExpression(ts, 2);
    assert [] + [Print(A)] == [Print(A)];
    assert [Print(A)] + [Print(B)] == [Print(A), Print(B)];
    ProgramStep(ts, 2, [Print(A)]);
    ProgramStep(ts, 0, []);
  }

  /** A first declaration that fails fails the whole parse with its error. */
  lemma FirstDeclarationFails(ts: seq<Token>, e: ParseError)
    requires 0 < |ts| && Declaration(ts, 0) == Err(e)
    ensures Parse(ts) == Err(e)
  {
    ProgramStep(ts, 0, []);
  }

  /** A declaration that starts with neither `let` nor `func` is a statement. */
  lemma StatementDeclaration(ts: seq<Token>, pos: nat)
    requires pos < |ts| && ts[pos].kind !in {LET, FUNC}
    ensures Declaration(ts, pos) == Statement(ts, pos)
  {
  }

  /** `return a b` fails at `b`: the return statement needs its `;`. */
  lemma ReturnWithoutSemicolon(ts: seq<Token>)
    requires ts == [T(RETURN), Id("a"), Id("b")]
    ensures ReturnStatement(ts, 1, ts[0]) == Err(Message(ReturnEnd))
  {
    VariableExpression(ts, 1);
    assert OptionalExpression(ts, 1, SEMICOLON) == Ok(Parsed(Some(A), 2));
  }

  /** `return` needs its `;`: `return a b` does not parse. */
  lemma ReturnNeedsSemicolon(ts: seq<Token>)
    requires ts == [T(RETURN), Id("a"), Id("b")]
    ensures Parse(ts) == Err(Message(ReturnEnd))
  {
    ReturnWithoutSemicolon(ts);
    assert Statement(ts, 0) == ReturnStatement(ts, 1, ts[0]);
    StatementDeclaration(ts, 0);
    FirstDeclarationFails(ts, Message(ReturnEnd));
  }

  /** `while (a) print a` stops where the brace should be. */
  lemma WhileBodyUnbraced(ts: seq<Token>)
    requires ts == [T(WHILE), T(O_PAREN), Id("a"), T(C_PAREN), T(PRINT), Id("a")]
    ensures WhileStatement(ts, 1) == Err(Message(WhileBodyOpen))
  {
    assert ts[3].kind == C_PAREN && ts[4].kind == PRINT;
    VariableExpression(ts, 2);
    WhileWithoutBrace(ts, 1, 3);
  }

  /** After `( condition )` a `while` fails unless a `{` follows. */
  lemma WhileWithoutBrace(ts: seq<Token>, pos: nat, close: nat)
    requires pos < close < |ts| - 1 && ts[pos].kind == O_PAREN && ts[close].kind == C_PAREN
    requires Expression(ts, pos + 1).Ok? && Expression(ts, pos + 1).value.next == close
    requires ts[close + 1].kind != O_BRACKET
    ensures WhileStatement(ts, pos) == Err(Message(WhileBodyOpen))
  {
    var cond := Expression(ts, pos + 1).value.node;
    assert Consume(ts, pos, O_PAREN, WhileOpen) == Ok(Parsed(ts[pos], pos + 1));
    UnbracedAfterCondition(ts, close, cond);
  }

  /** After the condition's `)`, a token other than `{` fails the `while`. */
  lemma UnbracedAfterCondition(ts: seq<Token>, close: nat, cond: Expr)
    requires close < |ts| - 1 && ts[close].kind == C_PAREN && ts[close + 1].kind != O_BRACKET
    ensures WhileBody(ts, close, cond) == Err(Message(WhileBodyOpen))
  {
    assert Consume(ts, close, C_PAREN, ConditionClose) == Ok(Parsed(ts[close], close + 1));
  }

  /** A `while` body must be braced. */
  lemma WhileNeedsBraces(ts: seq<Token>)
    requires ts == [T(WHILE), T(O_PAREN), Id("a"), T(C_PAREN), T(PRINT), Id("a")]
    ensures Parse(ts) == Err(Message(WhileBodyOpen))
  {
    WhileBodyUnbraced(ts);
    assert Statement(ts, 0) == WhileStatement(ts, 1);
    StatementDeclaration(ts, 0);
    FirstDeclarationFails(ts, Message(WhileBodyOpen));
  }

  /** The statements of `{ print a` run into the end of the tokens. */
  lemma BlockRunsOut(ts: seq<Token>)
    requires ts == [T(O_BRACKET), T(PRINT), Id("a")]
    ensures BlockBody(ts, 1) == Err(ReadPastEnd)
  {
    VariableExpression(ts, 2);
    PrintEndsWithExpression(ts, 1);
    assert Declarations(ts, 3, [Print(A)]) == Err(ReadPastEnd);
    DeclarationsStep(ts, 1, []);
  }

  /** A block that runs into the end of the tokens fails on the read past the end. */
  lemma UnclosedBlock(ts: seq<Token>)
    requires ts == [T(O_BRACKET), T(PRINT), Id("a")]
    ensures Parse(ts) == Err(ReadPastEnd)
  {
    BlockRunsOut(ts);
    assert Statement(ts, 0) == Err(ReadPastEnd);
    StatementDeclaration(ts, 0);
    FirstDeclarationFails(ts, ReadPastEnd);
  }
}
