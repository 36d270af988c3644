/** The `for` statement of the parser: its clauses and the `while` loop it is rewritten to,
    in general and on small token lists. */
module ForLoops {
  import opened Wrappers
  import opened Tokens
  import opened Grammar
  import opened Parser
  import opened ParserProperties

  /** `forStatement` for every token list: once its clauses and body parse, the loop is their
      desugaring, ending where the body ends. */
  lemma ForDesugars(ts: seq<Token>, pos: nat, init: Parsed<Option<Stmt>>, cond: Parsed<Option<Expr>>,
                    incr: Parsed<Option<Expr>>, body: Parsed<Stmt>)
    requires pos < |ts| && ts[pos].kind == O_PAREN
    requires ForInitializer(ts, pos + 1) == Ok(init)
    requires OptionalExpression(ts, init.next, SEMICOLON) == Ok(cond)
    requires cond.next < |ts| && ts[cond.next].kind == SEMICOLON
    requires OptionalExpression(ts, cond.next + 1, C_PAREN) == Ok(incr)
    requires incr.next < |ts| && ts[incr.next].kind == C_PAREN
    requires Statement(ts, incr.next + 1) == Ok(body)
    ensures ForStatement(ts, pos) == Ok(Parsed(Desugar(init.node, cond.node, incr.node, body.node), body.next))
  {
    calc {
      ForStatement(ts, pos);
    == { ForHead(ts, pos, init); }
      ForCondition(ts, init.next, init.node);
    == { ForConditionStep(ts, init.next, init.node, cond); }
      ForRest(ts, cond.next + 1, init.node, cond.node);
    == { ForRestDesugars(ts, cond.next + 1, init.node, cond.node, incr, body); }
      Ok(Parsed(Desugar(init.node, cond.node, incr.node, body.node), body.next));
    }
  }

  /** The `(` and initializer of a `for`, handed on to the condition. */
  lemma ForHead(ts: seq<Token>, pos: nat, init: Parsed<Option<Stmt>>)
    requires pos < |ts| && ts[pos].kind == O_PAREN
    requires ForInitializer(ts, pos + 1) == Ok(init)
    ensures ForStatement(ts, pos) == ForCondition(ts, init.next, init.node)
  {
    var open := Consume(ts, pos, O_PAREN, ForOpen);
    assert open.Ok? && open.value.next == pos + 1;
  }

  /** The condition and its `;`, handed on to the rest. */
  lemma ForConditionStep(ts: seq<Token>, pos: nat, init: Option<Stmt>, cond: Parsed<Option<Expr>>)
    requires pos <= |ts| && OptionalExpression(ts, pos, SEMICOLON) == Ok(cond)
    requires cond.next < |ts| && ts[cond.next].kind == SEMICOLON
    ensures ForCondition(ts, pos, init) == ForRest(ts, cond.next + 1, init, cond.node)
  {
    var semi := Consume(ts, cond.next, SEMICOLON, ForConditionEnd);
    assert semi.Ok? && semi.value.next == cond.next + 1;
  }

  /** The increment, `)` and body of a `for`, desugared with the clauses before them. */
  lemma ForRestDesugars(ts: seq<Token>, pos: nat, init: Option<Stmt>, cond: Option<Expr>,
                        incr: Parsed<Option<Expr>>, body: Parsed<Stmt>)
    requires pos <= |ts| && OptionalExpression(ts, pos, C_PAREN) == Ok(incr)
    requires incr.next < |ts| && ts[incr.next].kind == C_PAREN
    requires Statement(ts, incr.next + 1) == Ok(body)
    ensures ForRest(ts, pos, init, cond) == Ok(Parsed(Desugar(init, cond, incr.node, body.node), body.next))
  {
    var close := Consume(ts, incr.next, C_PAREN, ForClauseClose);
    assert close.Ok? && close.value.next == incr.next + 1;
  }

  /** `let name` with no `=` after it declares the name without an initializer. */
  lemma LetWithoutInitializer(ts: seq<Token>, pos: nat)
    requires pos < |ts| && ts[pos].kind == IDENT && !Match(ts, pos + 1, {EQUALS})
    ensures VarDeclaration(ts, pos) == Ok(Parsed(VarDecl(ts[pos], None), pos + 1))
  {
  }

  /** The initializer clause `let name ;`. */
  lemma LetClause(ts: seq<Token>, pos: nat)
    requires pos + 2 < |ts| && ts[pos].kind == LET && ts[pos + 1].kind == IDENT && ts[pos + 2].kind == SEMICOLON
    ensures ForInitializer(ts, pos) == Ok(Parsed(Some(VarDecl(ts[pos + 1], None)), pos + 3))
  {
    LetWithoutInitializer(ts, pos + 1);
  }

  /** A clause that is a lone identifier before its closing `stop` token. */
  lemma NameClause(ts: seq<Token>, pos: nat, stop: TokenType)
    requires pos + 1 < |ts| && ts[pos].kind == IDENT && ts[pos + 1].kind == stop
    requires stop !in Continuing && stop != IDENT
    ensures OptionalExpression(ts, pos, stop) == Ok(Parsed(Some(Variable(ts[pos])), pos + 1))
  {
    VariableExpression(ts, pos);
  }

  /** A `print` of a lone identifier at the end of the tokens. */
  lemma FinalPrint(ts: seq<Token>, pos: nat)
    requires pos + 2 == |ts| && ts[pos].kind == PRINT && ts[pos + 1].kind == IDENT
    ensures Statement(ts, pos) == Ok(Parsed(Print(Variable(ts[pos + 1])), pos + 2))
  {
    VariableExpression(ts, pos + 1);
    PrintEndsWithExpression(ts, pos);
    StatementDeclaration(ts, pos);
  }

  /** A declaration that starts with `for` is a `for` statement. */
  lemma ForDeclaration(ts: seq<Token>, pos: nat)
    requires pos < |ts| && ts[pos].kind == FOR
    ensures Declaration(ts, pos) == ForStatement(ts, pos + 1)
  {
    assert Statement(ts, pos) == ForStatement(ts, pos + 1);
    StatementDeclaration(ts, pos);
  }

  /** A declaration that reaches the end of the tokens is the program's last one. */
  lemma LastDeclaration(ts: seq<Token>, pos: nat, acc: seq<Stmt>, s: Stmt)
    requires pos < |ts| && Declaration(ts, pos) == Ok(Parsed(s, |ts|))
    ensures Program(ts, pos, acc) == Ok(acc + [s])
  {
    ProgramStep(ts, pos, acc);
  }

  /** `for (let i; c; n) print a` becomes `{ let i; while (c) { print a; n } }`. */
  lemma ForAllClauses(ts: seq<Token>)
    requires |ts| == 11
    requires ts[0].kind == FOR && ts[1].kind == O_PAREN && ts[2].kind == LET && ts[4].kind == SEMICOLON
    requires ts[6].kind == SEMICOLON && ts[8].kind == C_PAREN && ts[9].kind == PRINT
    requires ts[3].kind == IDENT && ts[5].kind == IDENT && ts[7].kind == IDENT && ts[10].kind == IDENT
    ensures var body := Block([Print(Variable(ts[10])), ExprStmt(Variable(ts[7]))]);
            Parse(ts) == Ok([Block([VarDecl(ts[3], None), While(Variable(ts[5]), [body])])])
  {
    var body := Block([Print(Variable(ts[10])), ExprStmt(Variable(ts[7]))]);
    var loop := Block([VarDecl(ts[3], None), While(Variable(ts[5]), [body])]);
    AllClausesStatement(ts);
    ForDeclaration(ts, 0);
    assert Declaration(ts, 0) == Ok(Parsed(loop, |ts|));
    LastDeclaration(ts, 0, [], loop);
    assert [] + [loop] == [loop];
    assert Program(ts, 0, []) == Ok([loop]);
  }

  /** The `for` statement of `for (let i; c; n) print a`, after its keyword. */
  lemma AllClausesStatement(ts: seq<Token>)
    requires |ts| == 11
    requires ts[0].kind == FOR && ts[1].kind == O_PAREN && ts[2].kind == LET && ts[4].kind == SEMICOLON
    requires ts[6].kind == SEMICOLON && ts[8].kind == C_PAREN && ts[9].kind == PRINT
    requires ts[3].kind == IDENT && ts[5].kind == IDENT && ts[7].kind == IDENT && ts[10].kind == IDENT
    ensures var body := Block([Print(Variable(ts[10])), ExprStmt(Variable(ts[7]))]);
            ForStatement(ts, 1) == Ok(Parsed(Block([VarDecl(ts[3], None), While(Variable(ts[5]), [body])]), 11))
  {
    var init := Parsed(Some(VarDecl(ts[3], None)), 5);
    LetClause(ts, 2);
    NameClause(ts, 5, SEMICOLON);
    NameClause(ts, 7, C_PAREN);
    FinalPrint(ts, 9);
    ForDesugars(ts, 1, init, Parsed(Some(Variable(ts[5])), 6), Parsed(Some(Variable(ts[7])), 8),
                Parsed(Print(Variable(ts[10])), 11));
  }

  /** `for (;;) print a`: with no clause there is no block, and the condition is `true`. */
  lemma EmptyForClauses(ts: seq<Token>)
    requires |ts| == 7
    requires ts[0].kind == FOR && ts[1].kind == O_PAREN && ts[2].kind == SEMICOLON && ts[3].kind == SEMICOLON
    requires ts[4].kind == C_PAREN && ts[5].kind == PRINT && ts[6].kind == IDENT
    ensures Parse(ts) == Ok([While(Literal(Bool(true)), [Print(Variable(ts[6]))])])
  {
    var loop := While(Literal(Bool(true)), [Print(Variable(ts[6]))]);
    assert ForStatement(ts, 1) == Ok(Parsed(loop, 7)) by {
      assert ForInitializer(ts, 2) == Ok(Parsed(None, 3));
      assert OptionalExpression(ts, 3, SEMICOLON) == Ok(Parsed(None, 3));
      assert OptionalExpression(ts, 4, C_PAREN) == Ok(Parsed(None, 4));
      FinalPrint(ts, 5);
      ForDesugars(ts, 1, Parsed(None, 3), Parsed(None, 3), Parsed(None, 4), Parsed(Print(Variable(ts[6])), 7));
    }
    ForDeclaration(ts, 0);
    LastDeclaration(ts, 0, [], loop);
    assert [] + [loop] == [loop];
  }
}
