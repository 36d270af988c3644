/** Properties of the resolver model on small programs: what the sharing of the first scope
    does to nested blocks and functions, the own-initialiser check, and the order in which the
    interpreter is told about variables. */
module ResolverProperties {
  import opened Wrappers
  import opened Tokens
  import opened Grammar
  import opened Resolver
  import opened ParserProperties

  /** Recording a name in a one-scope stack. */
  lemma RecordSingle(m: map<string, bool>, name: string, initialised: bool, current: FunctionType, resolved: seq<Resolution>)
    ensures Record(State([m], current, resolved), name, initialised) == State([m[name := initialised]], current, resolved)
  {
    assert [m[name := initialised]] + [m][1..] == [m[name := initialised]];
  }

  /** An identifier token names its lexeme. */
  lemma NameOfId(name: string)
    requires name != ""
    ensures NameOf(Id(name)) == Some(name)
  {
  }

  /** A one-statement list resolves as its statement. */
  lemma Single(st: State, a: Stmt)
    ensures ResolveStmts(st, [a]) == ResolveStmt(st, a)
  {
    assert [a][1..] == [];
  }

  /** A two-statement list resolves the first, then the second in the state it leaves. */
  lemma Pair(st: State, a: Stmt, b: Stmt)
    ensures var r := ResolveStmt(st, a);
            ResolveStmts(st, [a, b]) == if r.Ok? then ResolveStmt(r.value, b) else Err(r.error)
  {
    assert [a, b][1..] == [b];
    if ResolveStmt(st, a).Ok? {
      Single(ResolveStmt(st, a).value, b);
    }
  }

  /** A list holding one expression statement resolves as its expression. */
  lemma ExpressionStatement(st: State, e: Expr)
    ensures ResolveStmts(st, [ExprStmt(e)]) == ResolveExpr(st, e)
  {
    Single(st, ExprStmt(e));
  }

  /** A `while` statement resolves as `ResolveWhile`. */
  lemma WhileStep(st: State, w: Stmt)
    requires w.While?
    ensures ResolveStmt(st, w) == ResolveWhile(st, w)
  {
  }

  /** An expression statement resolves as its expression. */
  lemma ExprStmtResolves(st: State, e: Expr)
    ensures ResolveStmt(st, ExprStmt(e)) == ResolveExpr(st, e)
  {
  }

  /** A block resolves its statements one scope deeper and then pops that scope. */
  lemma BlockStep(st: State, ss: seq<Stmt>)
    ensures var r := ResolveStmts(BeginScope(st), ss);
            ResolveStmt(st, Block(ss)) == if r.Ok? then Ok(EndScope(r.value)) else Err(r.error)
  {
  }

  /** A program of one statement. */
  lemma SingleProgram(a: Stmt)
    ensures var r := ResolveStmt(Initial, a);
            Resolve([a]) == if r.Ok? then Ok(r.value.resolved) else Err(r.error)
  {
    Single(Initial, a);
  }

  /** `let a` in a fresh first scope: `a` is declared, then defined. */
  lemma DeclareInFirstScope(current: FunctionType, resolved: seq<Resolution>)
    ensures ResolveStmt(State([map[]], current, resolved), VarDecl(Id("a"), None))
            == Ok(State([map["a" := true]], current, resolved))
  {
    NameOfId("a");
    RecordSingle(map[], "a", false, current, resolved);
    RecordSingle(map["a" := false], "a", true, current, resolved);
    assert map[]["a" := false] == map["a" := false];
    assert map["a" := false]["a" := true] == map["a" := true];
  }

  /** Reading `a` when the first of the scopes holds it initialised. */
  lemma ReadA(st: State)
    requires |st.scopes| > 0 && st.scopes[0] == map["a" := true]
    requires forall i :: 1 <= i < |st.scopes| ==> st.scopes[i] == map[]
    ensures ResolveExpr(st, A) == Ok(st.(resolved := st.resolved + [Resolution(A, |st.scopes| - 1)]))
  {
    NameOfId("a");
    assert WellFormed(st);
    assert !Uninitialised(st.scopes, Id("a"));
    var r := ResolveLocal(st, A, Id("a"));
    assert |r.resolved| == |st.resolved| + 1;
    assert r.resolved == st.resolved + [Resolution(A, |st.scopes| - 1)];
  }

  /** `{ let a { let a } }` fails: the inner declaration lands in the outer block's scope. */
  lemma NestedBlockShadowingFails()
    ensures Resolve([Block([VarDecl(Id("a"), None), Block([VarDecl(Id("a"), None)])])]) == Err(AlreadyDeclared)
  {
    var s2 := State([map["a" := true]], NoFunction, []);
    var s3 := BeginScope(s2);
    DeclareInFirstScope(NoFunction, []);
    NameOfId("a");
    assert s3.scopes[0] == map["a" := true];
    assert ResolveStmt(s3, VarDecl(Id("a"), None)) == Err(AlreadyDeclared);
    Single(s3, VarDecl(Id("a"), None));
    BlockStep(s2, [VarDecl(Id("a"), None)]);
    Pair(BeginScope(Initial), VarDecl(Id("a"), None), Block([VarDecl(Id("a"), None)]));
    BlockStep(Initial, [VarDecl(Id("a"), None), Block([VarDecl(Id("a"), None)])]);
    SingleProgram(Block([VarDecl(Id("a"), None), Block([VarDecl(Id("a"), None)])]));
  }

  /** `let a` one block deeper than the first scope still writes into the first scope. */
  lemma DeclareUnderNestedScope()
    ensures ResolveStmt(State([map[], map[]], NoFunction, []), VarDecl(Id("a"), None))
            == Ok(State([map["a" := true], map[]], NoFunction, []))
  {
    var s := State([map[], map[]], NoFunction, []);
    var d := State([map["a" := false], map[]], NoFunction, []);
    NameOfId("a");
    assert map[]["a" := false] == map["a" := false];
    assert map["a" := false]["a" := true] == map["a" := true];
    assert Record(s, "a", false) == d;
    assert Declare(s, Id("a")) == Ok(d);
    assert Record(d, "a", true) == State([map["a" := true], map[]], NoFunction, []);
  }

  /** `{ let a }` inside a block leaves `a`, initialised, in the outer block's scope. */
  lemma InnerBlockLeavesA()
    ensures ResolveStmt(State([map[]], NoFunction, []), Block([VarDecl(Id("a"), None)]))
            == Ok(State([map["a" := true]], NoFunction, []))
  {
    var s1 := State([map[]], NoFunction, []);
    assert BeginScope(s1) == State([map[], map[]], NoFunction, []);
    DeclareUnderNestedScope();
    Single(BeginScope(s1), VarDecl(Id("a"), None));
    BlockStep(s1, [VarDecl(Id("a"), None)]);
    assert EndScope(State([map["a" := true], map[]], NoFunction, [])) == State([map["a" := true]], NoFunction, []);
  }

  /** `{ { let a } let a }` fails: the inner block's declaration outlives the inner block. */
  lemma InnerDeclarationOutlivesBlock()
    ensures Resolve([Block([Block([VarDecl(Id("a"), None)]), VarDecl(Id("a"), None)])]) == Err(AlreadyDeclared)
  {
    var s1 := BeginScope(Initial);
    var s2 := State([map["a" := true]], NoFunction, []);
    assert s1 == State([map[]], NoFunction, []);
    InnerBlockLeavesA();
    NameOfId("a");
    assert ResolveStmt(s2, VarDecl(Id("a"), None)) == Err(AlreadyDeclared);
    Pair(s1, Block([VarDecl(Id("a"), None)]), VarDecl(Id("a"), None));
    BlockStep(Initial, [Block([VarDecl(Id("a"), None)]), VarDecl(Id("a"), None)]);
    SingleProgram(Block([Block([VarDecl(Id("a"), None)]), VarDecl(Id("a"), None)]));
  }

  /** `let a` in a fresh first scope declares `a` as not yet initialised. */
  lemma DeclareAInFirstScope(current: FunctionType)
    ensures Declare(State([map[]], current, []), Id("a")) == Ok(State([map["a" := false]], current, []))
  {
    NameOfId("a");
    RecordSingle(map[], "a", false, current, []);
    assert map[]["a" := false] == map["a" := false];
  }

  /** `{ let a = a }` reads `a` in its own initialiser. */
  lemma OwnInitializerFails()
    ensures Resolve([Block([VarDecl(Id("a"), Some(A))])]) == Err(OwnInitializer)
  {
    var s1 := BeginScope(Initial);
    var s2 := State([map["a" := false]], NoFunction, []);
    DeclareAInFirstScope(NoFunction);
    assert s1 == State([map[]], NoFunction, []);
    assert Uninitialised(s2.scopes, Id("a"));
    assert ResolveExpr(s2, A) == Err(OwnInitializer);
    assert ResolveVarDecl(s1, Id("a"), Some(A)) == Err(OwnInitializer);
    Single(s1, VarDecl(Id("a"), Some(A)));
    BlockStep(Initial, [VarDecl(Id("a"), Some(A))]);
    SingleProgram(Block([VarDecl(Id("a"), Some(A))]));
  }

  /** At top level there are no scopes: `let a = a` passes and the interpreter is told
      nothing. */
  lemma TopLevelIsUnscoped()
    ensures Resolve([VarDecl(Id("a"), Some(A)), VarDecl(Id("a"), None)]) == Ok([])
  {
    assert ResolveExpr(Initial, A) == Ok(Initial);
    assert ResolveStmt(Initial, VarDecl(Id("a"), Some(A))) == Ok(Initial);
    assert ResolveStmt(Initial, VarDecl(Id("a"), None)) == Ok(Initial);
    assert ResolveStmts(Initial, [VarDecl(Id("a"), None)]) == Ok(Initial);
  }

  /** `{ let a func f(a) {} }` fails: the parameter is declared in the block's scope. */
  lemma ParameterClashesWithBlockLocal()
    ensures Resolve([Block([VarDecl(Id("a"), None), FuncDecl(Id("f"), [Id("a")], [])])]) == Err(AlreadyDeclared)
  {
    var s2 := State([map["a" := true]], NoFunction, []);
    var f := FuncDecl(Id("f"), [Id("a")], []);
    DeclareInFirstScope(NoFunction, []);
    NameOfId("a");
    NameOfId("f");
    var s3 := Define(Declare(s2, Id("f")).value, Id("f"));
    assert "a" in s3.scopes[0];
    assert BeginScope(s3.(current := Function)).scopes[0] == s3.scopes[0];
    assert Declare(BeginScope(s3.(current := Function)), Id("a")) == Err(AlreadyDeclared);
    assert ResolveFunction(s3, [Id("a")], []) == Err(AlreadyDeclared);
    assert ResolveStmt(s2, f) == Err(AlreadyDeclared);
    Pair(BeginScope(Initial), VarDecl(Id("a"), None), f);
    BlockStep(Initial, [VarDecl(Id("a"), None), f]);
    SingleProgram(Block([VarDecl(Id("a"), None), f]));
  }

  /** `{ let a  a = a }`: the assigned value is resolved before the assignment's target. */
  lemma AssignmentValueFirst()
    ensures Resolve([Block([VarDecl(Id("a"), None), ExprStmt(Assignment(Id("a"), A))])])
            == Ok([Resolution(A, 0), Resolution(Assignment(Id("a"), A), 0)])
  {
    var s2 := State([map["a" := true]], NoFunction, []);
    var s3 := s2.(resolved := [Resolution(A, 0)]);
    var s4 := s2.(resolved := [Resolution(A, 0), Resolution(Assignment(Id("a"), A), 0)]);
    DeclareInFirstScope(NoFunction, []);
    ReadA(s2);
    assert [] + [Resolution(A, 0)] == [Resolution(A, 0)];
    assert ResolveLocal(s3, Assignment(Id("a"), A), Id("a")) == s4;
    assert ResolveStmt(s2, ExprStmt(Assignment(Id("a"), A))) == Ok(s4);
    Pair(BeginScope(Initial), VarDecl(Id("a"), None), ExprStmt(Assignment(Id("a"), A)));
    BlockStep(Initial, [VarDecl(Id("a"), None), ExprStmt(Assignment(Id("a"), A))]);
    SingleProgram(Block([VarDecl(Id("a"), None), ExprStmt(Assignment(Id("a"), A))]));
  }

  /** `{ let a { a } }`: the read is one scope out from the innermost. */
  lemma DepthCountsFromInnermost()
    ensures Resolve([Block([VarDecl(Id("a"), None), Block([ExprStmt(A)])])]) == Ok([Resolution(A, 1)])
  {
    var s2 := State([map["a" := true]], NoFunction, []);
    var s3 := BeginScope(s2);
    var s4 := s3.(resolved := [Resolution(A, 1)]);
    DeclareInFirstScope(NoFunction, []);
    ReadA(s3);
    assert [] + [Resolution(A, 1)] == [Resolution(A, 1)];
    Single(s3, ExprStmt(A));
    BlockStep(s2, [ExprStmt(A)]);
    Pair(BeginScope(Initial), VarDecl(Id("a"), None), Block([ExprStmt(A)]));
    BlockStep(Initial, [VarDecl(Id("a"), None), Block([ExprStmt(A)])]);
    SingleProgram(Block([VarDecl(Id("a"), None), Block([ExprStmt(A)])]));
  }

  /** `func f(a) { return a }` at top level: the return is inside a function, and the
      parameter is found in the function's scope. */
  lemma ReturnInsideFunction()
    ensures Resolve([FuncDecl(Id("f"), [Id("a")], [Return(T(RETURN), Some(A))])]) == Ok([Resolution(A, 0)])
  {
    var f := FuncDecl(Id("f"), [Id("a")], [Return(T(RETURN), Some(A))]);
    FunctionOfAResolves();
    assert Declare(Initial, Id("f")) == Ok(Initial);
    assert Define(Initial, Id("f")) == Initial;
    assert ResolveStmt(Initial, f) == Ok(State([], NoFunction, [Resolution(A, 0)]));
    SingleProgram(f);
  }

  /** The function of `func f(a) { return a }`, entered from top level, tells the interpreter
      about the one read and leaves no scope behind. */
  lemma FunctionOfAResolves()
    ensures ResolveFunction(Initial, [Id("a")], [Return(T(RETURN), Some(A))]) == Ok(State([], NoFunction, [Resolution(A, 0)]))
  {
    var s3 := State([map["a" := true]], Function, [Resolution(A, 0)]);
    FunctionBodyReturnsA();
    assert EndScope(s3).(current := NoFunction) == State([], NoFunction, [Resolution(A, 0)]);
  }

  /** `func f(a)`: the parameter is declared, then defined, in the function's fresh scope. */
  lemma ParamDeclared()
    ensures DeclareParams(State([map[]], Function, []), [Id("a")]) == Ok(State([map["a" := true]], Function, []))
  {
    var s1 := State([map[]], Function, []);
    var s2 := State([map["a" := true]], Function, []);
    DeclareAInFirstScope(Function);
    RecordSingle(map["a" := false], "a", true, Function, []);
    assert map["a" := false]["a" := true] == map["a" := true];
    assert Define(State([map["a" := false]], Function, []), Id("a")) == s2;
    assert [Id("a")][1..] == [];
    assert DeclareParams(s2, []) == Ok(s2);
  }

  /** `return a` in the function's scope reads the parameter in the innermost scope. */
  lemma ReturnReadsParam()
    ensures var s2 := State([map["a" := true]], Function, []);
            ResolveStmts(s2, [Return(T(RETURN), Some(A))]) == Ok(s2.(resolved := [Resolution(A, 0)]))
  {
    var s2 := State([map["a" := true]], Function, []);
    ReadA(s2);
    assert [] + [Resolution(A, 0)] == [Resolution(A, 0)];
    assert ResolveStmt(s2, Return(T(RETURN), Some(A))) == Ok(s2.(resolved := [Resolution(A, 0)]));
    Single(s2, Return(T(RETURN), Some(A)));
  }

  /** Inside `func f(a) { return a }`: the parameter is declared, then the return reads it. */
  lemma FunctionBodyReturnsA()
    ensures var entered := BeginScope(Initial.(current := Function));
            var s2 := State([map["a" := true]], Function, []);
            && DeclareParams(entered, [Id("a")]) == Ok(s2)
            && ResolveStmts(s2, [Return(T(RETURN), Some(A))]) == Ok(s2.(resolved := [Resolution(A, 0)]))
  {
    assert BeginScope(Initial.(current := Function)) == State([map[]], Function, []);
    ParamDeclared();
    ReturnReadsParam();
  }

  /** `{ func a() { a } }`: the function's name is declared and defined in the block's scope
      before the body, so the body reads it, one scope out from the function's own. */
  lemma FunctionSeesOwnName()
    ensures Resolve([Block([FuncDecl(Id("a"), [], [ExprStmt(A)])])]) == Ok([Resolution(A, 1)])
  {
    var f := FuncDecl(Id("a"), [], [ExprStmt(A)]);
    var s1 := BeginScope(Initial);
    assert s1 == State([map[]], NoFunction, []);
    FuncAInFreshScope();
    Single(s1, f);
    assert EndScope(State([map["a" := true]], NoFunction, [Resolution(A, 1)])) == State([], NoFunction, [Resolution(A, 1)]);
    BlockStep(Initial, [f]);
    SingleProgram(Block([f]));
  }

  /** `func a() { a }` in a fresh first scope: `a` is recorded as defined, then the body
      reads it. */
  lemma FuncAInFreshScope()
    ensures ResolveStmt(State([map[]], NoFunction, []), FuncDecl(Id("a"), [], [ExprStmt(A)]))
            == Ok(State([map["a" := true]], NoFunction, [Resolution(A, 1)]))
  {
    var f := FuncDecl(Id("a"), [], [ExprStmt(A)]);
    var s1 := State([map[]], NoFunction, []);
    NameOfId("a");
    RecordSingle(map[], "a", true, NoFunction, []);
    assert map[]["a" := true] == map["a" := true];
    assert ResolveStmt(s1, f) == ResolveFuncDecl(s1, f);
    OwnNameInBody();
  }

  /** The body `a` of `func a()`, entered with `a` defined in the first scope. */
  lemma OwnNameInBody()
    ensures ResolveFunction(State([map["a" := true]], NoFunction, []), [], [ExprStmt(A)])
            == Ok(State([map["a" := true]], NoFunction, [Resolution(A, 1)]))
  {
    var entered := State([map["a" := true], map[]], Function, []);
    assert BeginScope(State([map["a" := true]], Function, [])) == entered;
    ReadA(entered);
    assert [] + [Resolution(A, 1)] == [Resolution(A, 1)];
    ExpressionStatement(entered, A);
    var inner := entered.(resolved := [Resolution(A, 1)]);
    assert EndScope(inner).(current := NoFunction) == State([map["a" := true]], NoFunction, [Resolution(A, 1)]);
  }

  /** A `while` body opens no scope: its statements are checked and looked up in the scopes
      of the condition. */
  lemma WhileOpensNoScope(st: State, c: Expr, e: Expr)
    ensures var r := ResolveWhile(st, While(c, [ExprStmt(e)]));
            && (r.Ok? <==> !ReadsUninitialised(st.scopes, c) && !ReadsUninitialised(st.scopes, e))
            && (r.Ok? ==> r.value.scopes == st.scopes
                          && r.value.resolved == st.resolved + Lookups(st.scopes, c) + Lookups(st.scopes, e))
  {
    var c1 := ResolveExpr(st, c);
    if c1.Ok? {
      ExpressionStatement(c1.value, e);
      assert ResolveWhile(st, While(c, [ExprStmt(e)])) == ResolveExpr(c1.value, e);
    }
  }

  /** The branches of an `if` open no scope: they are checked and looked up in the scopes
      of the condition. */
  lemma IfOpensNoScope(st: State, c: Expr, a: Expr, b: Expr)
    ensures var r := ResolveIf(st, If(c, ExprStmt(a), Some(ExprStmt(b))));
            && (r.Ok? <==> !ReadsUninitialised(st.scopes, c) && !ReadsUninitialised(st.scopes, a)
                           && !ReadsUninitialised(st.scopes, b))
            && (r.Ok? ==> r.value.scopes == st.scopes
                          && r.value.resolved == st.resolved + Lookups(st.scopes, c) + Lookups(st.scopes, a)
                                                 + Lookups(st.scopes, b))
  {
    var c1 := ResolveExpr(st, c);
    if c1.Ok? {
      var a1 := ResolveExpr(c1.value, a);
      BranchesResolve(c1.value, a, b);
      assert ResolveIf(st, If(c, ExprStmt(a), Some(ExprStmt(b)))) == (if a1.Ok? then ResolveExpr(a1.value, b) else Err(a1.error));
    }
  }

  /** The two branches `a` and `b` of an `if`, as expression statements. */
  lemma BranchesResolve(st: State, a: Expr, b: Expr)
    ensures var a1 := ResolveExpr(st, a);
            && ResolveStmt(st, ExprStmt(a)) == a1
            && (a1.Ok? ==> ResolveStmt(a1.value, ExprStmt(b)) == ResolveExpr(a1.value, b))
  {
    ExprStmtResolves(st, a);
    if ResolveExpr(st, a).Ok? {
      ExprStmtResolves(ResolveExpr(st, a).value, b);
    }
  }

  /** `while (a) { a }` with `a` in the one scope: both reads are at depth 0, where the same
      read inside a block would be at depth 1. */
  lemma WhileReadsAtSameDepth()
    ensures ResolveStmt(State([map["a" := true]], NoFunction, []), While(A, [ExprStmt(A)]))
            == Ok(State([map["a" := true]], NoFunction, [Resolution(A, 0), Resolution(A, 0)]))
  {
    var s := State([map["a" := true]], NoFunction, []);
    var s1 := s.(resolved := [Resolution(A, 0)]);
    var w := While(A, [ExprStmt(A)]);
    ReadA(s);
    ReadA(s1);
    assert [] + [Resolution(A, 0)] == [Resolution(A, 0)];
    assert [Resolution(A, 0)] + [Resolution(A, 0)] == [Resolution(A, 0), Resolution(A, 0)];
    ExpressionStatement(s1, A);
    assert ResolveWhile(s, w) == ResolveStmts(s1, [ExprStmt(A)]);
    WhileStep(s, w);
  }

  /** Every call in `rs` names a variable read or an assignment, at a depth within a stack of
      `height` scopes. */
  predicate WithinStack(rs: seq<Resolution>, height: nat) {
    forall k | 0 <= k < |rs| :: rs[k].depth < height && (rs[k].expr.Variable? || rs[k].expr.Assignment?)
  }

  /** The interpreter is told only about variable reads and assignments, and never of a depth
      beyond the scopes open: `resolveLocal` counts at most `length - 1` scopes out. */
  lemma {:induction false} LookupsWithinStack(scopes: seq<map<string, bool>>, e: Expr)
    ensures WithinStack(Lookups(scopes, e), |scopes|)
    decreases e, 1
  {
    match e
    case Binary(left, _, right) =>
      LookupsWithinStack(scopes, left);
      LookupsWithinStack(scopes, right);
    case Logical(left, _, right) =>
      LookupsWithinStack(scopes, left);
      LookupsWithinStack(scopes, right);
    case Unary(_, right) => LookupsWithinStack(scopes, right);
    case Grouping(inner) => LookupsWithinStack(scopes, inner);
    case Literal(_) =>
    case Variable(name) =>
    case Assignment(name, rhs) => LookupsWithinStack(scopes, rhs);
    case Call(callee, _, arguments) =>
      LookupsWithinStack(scopes, callee);
      if arguments.ArgList? {
        LookupsAllWithinStack(scopes, arguments.items);
      }
  }

  lemma {:induction false} LookupsAllWithinStack(scopes: seq<map<string, bool>>, es: seq<Expr>)
    ensures WithinStack(LookupsAll(scopes, es), |scopes|)
    decreases es, 0
  {
    if |es| > 0 {
      LookupsWithinStack(scopes, es[0]);
      LookupsAllWithinStack(scopes, es[1..]);
    }
  }
}
