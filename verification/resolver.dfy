/** The static resolver (src/resolver.ts) as functions that thread an explicit state: the scope
    stack, the kind of the function being resolved, and the calls made to the interpreter's
    `resolve`, in order. A thrown error becomes an `Err` that ends the whole pass.

    The source reads and writes `scopes[0]`, the FIRST scope pushed, while `beginScope` and
    `endScope` push and pop at the end of the stack. So every declaration lands in the
    outermost open scope and the scopes pushed after it stay empty; `WellFormed` states that
    and every statement keeps it. */
module Resolver {
  import opened Wrappers
  import opened Tokens
  import opened Grammar

  /** Whether the resolver is inside a function body (`FunctionType.NONE` / `FUNCTION`). */
  datatype FunctionType = NoFunction | Function

  /** One call `interpreter.resolve(expr, depth)`. */
  datatype Resolution = Resolution(expr: Expr, depth: nat)

  /** The resolver's fields: the stack of name-to-initialised maps (last pushed at the end),
      the current function type, and the calls made to the interpreter so far. */
  datatype State = State(scopes: seq<map<string, bool>>, current: FunctionType, resolved: seq<Resolution>)

  /** The three errors the resolver throws. */
  datatype ResolveError = AlreadyDeclared | OwnInitializer | TopLevelReturn

  function ErrorMessage(e: ResolveError): string {
    match e
    case AlreadyDeclared => "Already a variable with this name in this scope."
    case OwnInitializer => "Can't read local variable in its own initializer."
    case TopLevelReturn => "Can't return from top-level code."
  }

  /** The state the constructor builds: no scopes, not in a function, nothing resolved. */
  const Initial: State := State([], NoFunction, [])

  /** Only the first scope can hold names. */
  predicate WellFormed(st: State) {
    forall i :: 1 <= i < |st.scopes| ==> st.scopes[i] == map[]
  }

  /** Where a successful step leaves the state: same stack height and function type, the
      first scope only gained names, and the interpreter calls only grew. */
  predicate Extends(st: State, st': State) {
    && |st'.scopes| == |st.scopes|
    && st'.current == st.current
    && (|st.scopes| > 0 ==> st.scopes[0].Keys <= st'.scopes[0].Keys)
    && st.resolved <= st'.resolved
    && (WellFormed(st) ==> WellFormed(st'))
  }

  /** The statement holds a `return` that is not inside a function declaration of its own. */
  predicate BareReturn(s: Stmt)
    decreases s, 1
  {
    match s
    case Return(_, _) => true
    case Block(statements) => BareReturns(statements)
    case If(_, thenBranch, elseBranch) =>
      BareReturn(thenBranch) || (elseBranch.Some? && BareReturn(elseBranch.value))
    case While(_, statements) => BareReturns(statements)
    case _ => false
  }

  predicate BareReturns(ss: seq<Stmt>)
    decreases ss, 0
  {
    |ss| > 0 && (BareReturn(ss[0]) || BareReturns(ss[1..]))
  }

  /** The first scope holds the token's name as declared but not yet initialised. */
  predicate Uninitialised(scopes: seq<map<string, bool>>, name: Token) {
    |scopes| > 0 && NameOf(name).Some? && NameOf(name).value in scopes[0] && !scopes[0][NameOf(name).value]
  }

  /** Some variable read in the expression (not an assignment's target) names an
      uninitialised variable of the first scope. */
  predicate ReadsUninitialised(scopes: seq<map<string, bool>>, e: Expr)
    decreases e, 1
  {
    match e
    case Binary(left, _, right) => ReadsUninitialised(scopes, left) || ReadsUninitialised(scopes, right)
    case Logical(left, _, right) => ReadsUninitialised(scopes, left) || ReadsUninitialised(scopes, right)
    case Unary(_, right) => ReadsUninitialised(scopes, right)
    case Grouping(inner) => ReadsUninitialised(scopes, inner)
    case Literal(_) => false
    case Variable(name) => Uninitialised(scopes, name)
    case Assignment(_, rhs) => ReadsUninitialised(scopes, rhs)
    case Call(callee, _, arguments) =>
      ReadsUninitialised(scopes, callee) || (arguments.ArgList? && AnyReadsUninitialised(scopes, arguments.items))
  }

  predicate AnyReadsUninitialised(scopes: seq<map<string, bool>>, es: seq<Expr>)
    decreases es, 0
  {
    |es| > 0 && (ReadsUninitialised(scopes, es[0]) || AnyReadsUninitialised(scopes, es[1..]))
  }

  /** The parameters can all be declared in a first scope holding `names`: no named parameter
      is already there, and no two named parameters share a name. */
  predicate FreshParams(names: map<string, bool>, params: seq<Token>) {
    && (forall i | 0 <= i < |params| && NameOf(params[i]).Some? :: NameOf(params[i]).value !in names)
    && (forall i, j | 0 <= i < j < |params| && NameOf(params[i]).Some? :: NameOf(params[j]) != NameOf(params[i]))
  }

  // ---------------------------------------------------------------------------------------
  // Scope primitives

  /** `beginScope`: pushes an empty scope at the end. */
  function BeginScope(st: State): (r: State)
    ensures |r.scopes| == |st.scopes| + 1 && r.scopes[|st.scopes|] == map[]
    ensures r.scopes[..|st.scopes|] == st.scopes
    ensures r.current == st.current && r.resolved == st.resolved
  {
    st.(scopes := st.scopes + [map[]])
  }

  /** `endScope`: pops the last scope pushed. */
  function EndScope(st: State): (r: State)
    requires |st.scopes| > 0
    ensures r.scopes == st.scopes[..|st.scopes| - 1]
    ensures r.current == st.current && r.resolved == st.resolved
  {
    st.(scopes := st.scopes[..|st.scopes| - 1])
  }

  /** Writes `name := initialised` into `scopes[0]`, the scope `scopesPeek` returns. */
  function Record(st: State, name: string, initialised: bool): (r: State)
    requires |st.scopes| > 0
    ensures |r.scopes| == |st.scopes| && r.scopes[0] == st.scopes[0][name := initialised]
    ensures forall i :: 1 <= i < |st.scopes| ==> r.scopes[i] == st.scopes[i]
    ensures r.current == st.current && r.resolved == st.resolved
  {
    st.(scopes := [st.scopes[0][name := initialised]] + st.scopes[1..])
  }

  /** A second record of a name overrides the first. */
  lemma RecordTwice(st: State, name: string, first: bool, second: bool)
    requires |st.scopes| > 0
    ensures Record(Record(st, name, first), name, second) == Record(st, name, second)
  {
    assert st.scopes[0][name := first][name := second] == st.scopes[0][name := second];
  }

  /** `declare`: nothing on an empty stack or for a token without a name; an error when the
      first scope already has the name; otherwise the name is recorded as not initialised. */
  function Declare(st: State, name: Token): (r: Result<State, ResolveError>)
    ensures r.Err? <==> |st.scopes| > 0 && NameOf(name).Some? && NameOf(name).value in st.scopes[0]
    ensures r.Err? ==> r.error == AlreadyDeclared
    ensures r.Ok? && (|st.scopes| == 0 || NameOf(name).None?) ==> r.value == st
    ensures r.Ok? && |st.scopes| > 0 && NameOf(name).Some? ==>
              r.value == Record(st, NameOf(name).value, false)
  {
    if |st.scopes| == 0 then Ok(st)
    else
      match NameOf(name)
      case None => Ok(st)
      case Some(n) =>
        if n in st.scopes[0] then Err(AlreadyDeclared)
        else Ok(Record(st, n, false))
  }

  /** `define`: nothing on an empty stack or for a token without a name; otherwise the name is
      recorded as initialised in the first scope. */
  function Define(st: State, name: Token): (r: State)
    ensures |st.scopes| == 0 || NameOf(name).None? ==> r == st
    ensures |st.scopes| > 0 && NameOf(name).Some? ==> r == Record(st, NameOf(name).value, true)
  {
    if |st.scopes| == 0 then st
    else
      match NameOf(name)
      case None => st
      case Some(n) => Record(st, n, true)
  }

  /** The loop of `resolveLocal`: searches `scopes[i - 1]` down to `scopes[0]` and returns the
      first index that holds `name`. */
  function FindScope(scopes: seq<map<string, bool>>, name: string, i: nat): (r: Option<nat>)
    requires i <= |scopes|
    ensures r.Some? ==> r.value < i && name in scopes[r.value]
    ensures r.Some? ==> forall j :: r.value < j < i ==> name !in scopes[j]
    ensures r.None? <==> forall j :: 0 <= j < i ==> name !in scopes[j]
  {
    if i == 0 then None
    else if name in scopes[i - 1] then Some(i - 1)
    else FindScope(scopes, name, i - 1)
  }

  /** `resolveLocal`: tells the interpreter how many scopes out from the innermost the name
      was found, or tells it nothing when no scope holds it. */
  function ResolveLocal(st: State, e: Expr, name: Token): (r: State)
    ensures r.scopes == st.scopes && r.current == st.current
    ensures r.resolved == st.resolved || |r.resolved| == |st.resolved| + 1
    ensures st.resolved <= r.resolved
    ensures |r.resolved| == |st.resolved| + 1 <==>
              NameOf(name).Some? && exists i :: 0 <= i < |st.scopes| && NameOf(name).value in st.scopes[i]
    ensures |r.resolved| == |st.resolved| + 1 ==>
              var i := |st.scopes| - 1 - r.resolved[|st.resolved|].depth;
              && r.resolved[|st.resolved|].expr == e
              && 0 <= i < |st.scopes| && NameOf(name).value in st.scopes[i]
              && forall j :: i < j < |st.scopes| ==> NameOf(name).value !in st.scopes[j]
    ensures WellFormed(st) ==>
              (|r.resolved| == |st.resolved| + 1 <==>
                 |st.scopes| > 0 && NameOf(name).Some? && NameOf(name).value in st.scopes[0])
    ensures WellFormed(st) && |r.resolved| == |st.resolved| + 1 ==>
              r.resolved[|st.resolved|] == Resolution(e, |st.scopes| - 1)
    ensures r.resolved == st.resolved + Lookup(st.scopes, e, name)
  {
    match NameOf(name)
    case None => st
    case Some(n) =>
      match FindScope(st.scopes, n, |st.scopes|)
      case None => st
      case Some(i) => st.(resolved := st.resolved + [Resolution(e, |st.scopes| - 1 - i)])
  }

  /** The call `resolveLocal` makes for `e` naming `name`: one, with the depth of the nearest
      scope holding the name, or none when no scope holds it or the token has no name. */
  ghost function Lookup(scopes: seq<map<string, bool>>, e: Expr, name: Token): seq<Resolution> {
    if NameOf(name).None? then []
    else
      match FindScope(scopes, NameOf(name).value, |scopes|)
      case None => []
      case Some(i) => [Resolution(e, |scopes| - 1 - i)]
  }

  /** The interpreter calls resolving `e` makes under fixed scopes, in order: every variable
      read and every assignment whose name some scope holds, an assignment's value before the
      assignment itself, operands left to right, a callee before its arguments. */
  ghost function Lookups(scopes: seq<map<string, bool>>, e: Expr): seq<Resolution>
    decreases e, 1
  {
    match e
    case Binary(left, _, right) => Lookups(scopes, left) + Lookups(scopes, right)
    case Logical(left, _, right) => Lookups(scopes, left) + Lookups(scopes, right)
    case Unary(_, right) => Lookups(scopes, right)
    case Grouping(inner) => Lookups(scopes, inner)
    case Literal(_) => []
    case Variable(name) => Lookup(scopes, e, name)
    case Assignment(name, rhs) => Lookups(scopes, rhs) + Lookup(scopes, e, name)
    case Call(callee, _, arguments) =>
      Lookups(scopes, callee) + (if arguments.ArgList? then LookupsAll(scopes, arguments.items) else [])
  }

  ghost function LookupsAll(scopes: seq<map<string, bool>>, es: seq<Expr>): seq<Resolution>
    decreases es, 0
  {
    if |es| == 0 then [] else Lookups(scopes, es[0]) + LookupsAll(scopes, es[1..])
  }

  // ---------------------------------------------------------------------------------------
  // The passes

  /** Resolves an expression: only variable reads and assignments talk to the interpreter,
      and only a read of a name the first scope holds as uninitialised fails. */
  function ResolveExpr(st: State, e: Expr): (r: Result<State, ResolveError>)
    ensures r.Ok? ==> r.value.scopes == st.scopes && r.value.current == st.current
    ensures r.Ok? ==> st.resolved <= r.value.resolved
    ensures r.Err? ==> r.error == OwnInitializer
    ensures r.Err? <==> ReadsUninitialised(st.scopes, e)
    ensures e.Variable? && Uninitialised(st.scopes, e.name) ==> r == Err(OwnInitializer)
    ensures r.Ok? ==> r.value.resolved == st.resolved + Lookups(st.scopes, e)
    decreases e, 1
  {
    match e
    case Binary(left, _, right) =>
      var st1 :- ResolveExpr(st, left);
      ResolveExpr(st1, right)
    case Logical(left, _, right) =>
      var st1 :- ResolveExpr(st, left);
      ResolveExpr(st1, right)
    case Unary(_, right) => ResolveExpr(st, right)
    case Grouping(inner) => ResolveExpr(st, inner)
    case Literal(_) => Ok(st)
    case Variable(name) =>
      if Uninitialised(st.scopes, name) then Err(OwnInitializer)
      else Ok(ResolveLocal(st, e, name))
    case Assignment(name, rhs) =>
      var st1 :- ResolveExpr(st, rhs);
      Ok(ResolveLocal(st1, e, name))
    case Call(_, _, _) => ResolveCall(st, e)
  }

  /** A call: the callee, then its arguments when it has an argument list. */
  function ResolveCall(st: State, e: Expr): (r: Result<State, ResolveError>)
    requires e.Call?
    ensures r.Ok? ==> r.value.scopes == st.scopes && r.value.current == st.current
    ensures r.Err? ==> r.error == OwnInitializer
    ensures r.Err? <==> ReadsUninitialised(st.scopes, e)
    ensures r.Ok? ==> r.value.resolved == st.resolved + Lookups(st.scopes, e)
    decreases e, 0
  {
    var st1 :- ResolveExpr(st, e.callee);
    match e.arguments
    case NoArgs => Ok(st1)
    case ArgList(items) => ResolveExprs(st1, items)
  }

  /** Resolves a call's arguments left to right. */
  function ResolveExprs(st: State, es: seq<Expr>): (r: Result<State, ResolveError>)
    ensures r.Ok? ==> r.value.scopes == st.scopes && r.value.current == st.current
    ensures r.Ok? ==> st.resolved <= r.value.resolved
    ensures r.Err? ==> r.error == OwnInitializer
    ensures r.Err? <==> AnyReadsUninitialised(st.scopes, es)
    ensures r.Ok? ==> r.value.resolved == st.resolved + LookupsAll(st.scopes, es)
    decreases es, 0
  {
    if |es| == 0 then Ok(st)
    else
      var st1 :- ResolveExpr(st, es[0]);
      ResolveExprs(st1, es[1..])
  }

  /** Resolves an optional child expression. */
  function ResolveOptional(st: State, e: Option<Expr>): (r: Result<State, ResolveError>)
    ensures r.Ok? ==> r.value.scopes == st.scopes && r.value.current == st.current
    ensures r.Ok? ==> st.resolved <= r.value.resolved
    ensures r.Err? ==> r.error == OwnInitializer
    ensures r.Err? <==> e.Some? && ReadsUninitialised(st.scopes, e.value)
    ensures r.Ok? ==> r.value.resolved == st.resolved + (if e.Some? then Lookups(st.scopes, e.value) else [])
  {
    match e
    case None => Ok(st)
    case Some(x) => ResolveExpr(st, x)
  }

  /** Resolves one statement. Blocks and function bodies push one scope and pop it; `if`
      branches and `while` bodies open none. */
  function ResolveStmt(st: State, s: Stmt): (r: Result<State, ResolveError>)
    ensures r.Ok? ==> Extends(st, r.value)
    ensures st.current == NoFunction && BareReturn(s) ==> r.Err?
    ensures r.Err? && r.error == TopLevelReturn ==> st.current == NoFunction && BareReturn(s)
    ensures st.current == NoFunction && s.Return? ==> r == Err(TopLevelReturn)
    ensures r.Ok? && (s.ExprStmt? || s.Print?) ==> r.value.resolved == st.resolved + Lookups(st.scopes, s.expression)
    decreases s, 1
  {
    match s
    case ExprStmt(e) => ResolveExpr(st, e)
    case Print(e) => ResolveExpr(st, e)
    case VarDecl(name, initializer) => ResolveVarDecl(st, name, initializer)
    case Block(_) => ResolveBlock(st, s)
    case If(_, _, _) => ResolveIf(st, s)
    case While(_, _) => ResolveWhile(st, s)
    case FuncDecl(_, _, _) => ResolveFuncDecl(st, s)
    case Return(_, value) =>
      if st.current == NoFunction then Err(TopLevelReturn)
      else ResolveOptional(st, value)
  }

  /** A `let`: declare, resolve the initialiser, define. */
  function ResolveVarDecl(st: State, name: Token, initializer: Option<Expr>): (r: Result<State, ResolveError>)
    ensures r.Ok? ==> Extends(st, r.value)
    ensures r.Err? ==> r.error != TopLevelReturn
    ensures r == Err(AlreadyDeclared) <==>
              |st.scopes| > 0 && NameOf(name).Some? && NameOf(name).value in st.scopes[0]
    ensures r == Err(OwnInitializer) <==>
              && !(|st.scopes| > 0 && NameOf(name).Some? && NameOf(name).value in st.scopes[0])
              && initializer.Some?
              && ReadsUninitialised(Declare(st, name).value.scopes, initializer.value)
    ensures r.Ok? && |st.scopes| > 0 && NameOf(name).Some? ==>
              NameOf(name).value in r.value.scopes[0] && r.value.scopes[0][NameOf(name).value]
    ensures r.Ok? ==>
              r.value.resolved == st.resolved +
                (if initializer.Some? then Lookups(Declare(st, name).value.scopes, initializer.value) else [])
  {
    var st1 :- Declare(st, name);
    var st2 :- ResolveOptional(st1, initializer);
    Ok(Define(st2, name))
  }

  /** A block: its statements inside one new scope. */
  function ResolveBlock(st: State, s: Stmt): (r: Result<State, ResolveError>)
    requires s.Block?
    ensures r.Ok? ==> Extends(st, r.value)
    ensures st.current == NoFunction && BareReturn(s) ==> r.Err?
    ensures r.Err? && r.error == TopLevelReturn ==> st.current == NoFunction && BareReturn(s)
    decreases s, 0
  {
    var inner :- ResolveStmts(BeginScope(st), s.statements);
    Ok(EndScope(inner))
  }

  /** An `if`: the condition, the then-branch, and the else-branch when there is one. */
  function ResolveIf(st: State, s: Stmt): (r: Result<State, ResolveError>)
    requires s.If?
    ensures r.Ok? ==> Extends(st, r.value)
    ensures st.current == NoFunction && BareReturn(s) ==> r.Err?
    ensures r.Err? && r.error == TopLevelReturn ==> st.current == NoFunction && BareReturn(s)
    decreases s, 0
  {
    var st1 :- ResolveExpr(st, s.condition);
    var st2 :- ResolveStmt(st1, s.thenBranch);
    if s.elseBranch.None? then Ok(st2) else ResolveStmt(st2, s.elseBranch.value)
  }

  /** A `while`: the condition, then the body's statements in the current scope. */
  function ResolveWhile(st: State, s: Stmt): (r: Result<State, ResolveError>)
    requires s.While?
    ensures r.Ok? ==> Extends(st, r.value)
    ensures st.current == NoFunction && BareReturn(s) ==> r.Err?
    ensures r.Err? && r.error == TopLevelReturn ==> st.current == NoFunction && BareReturn(s)
    decreases s, 0
  {
    var st1 :- ResolveExpr(st, s.condition);
    ResolveStmts(st1, s.statements)
  }

  /** A function declaration: its name is declared and defined before the body. */
  function ResolveFuncDecl(st: State, s: Stmt): (r: Result<State, ResolveError>)
    requires s.FuncDecl?
    ensures r.Ok? ==> Extends(st, r.value)
    ensures st.current == NoFunction && BareReturn(s) ==> r.Err?
    ensures r.Err? && r.error == TopLevelReturn ==> st.current == NoFunction && BareReturn(s)
    ensures |st.scopes| > 0 && NameOf(s.name).Some? && NameOf(s.name).value in st.scopes[0] ==> r == Err(AlreadyDeclared)
    ensures |st.scopes| > 0 && NameOf(s.name).Some? && NameOf(s.name).value !in st.scopes[0] ==>
              r == ResolveFunction(Record(st, NameOf(s.name).value, true), s.params, s.body)
    ensures |st.scopes| == 0 || NameOf(s.name).None? ==> r == ResolveFunction(st, s.params, s.body)
    decreases s, 0
  {
    var st1 :- Declare(st, s.name);
    assert |st.scopes| > 0 && NameOf(s.name).Some? ==> Define(st1, s.name) == Record(st, NameOf(s.name).value, true) by {
      if |st.scopes| > 0 && NameOf(s.name).Some? {
        RecordTwice(st, NameOf(s.name).value, false, true);
      }
    }
    ResolveFunction(Define(st1, s.name), s.params, s.body)
  }

  /** `resolve`: the statements in order; the first error ends the pass. */
  function ResolveStmts(st: State, ss: seq<Stmt>): (r: Result<State, ResolveError>)
    ensures r.Ok? ==> Extends(st, r.value)
    ensures st.current == NoFunction && BareReturns(ss) ==> r.Err?
    ensures r.Err? && r.error == TopLevelReturn ==> st.current == NoFunction && BareReturns(ss)
    ensures st.current == NoFunction && |ss| > 0 && ss[0].Return? ==> r == Err(TopLevelReturn)
    decreases ss, 0
  {
    if |ss| == 0 then Ok(st)
    else
      var st1 :- ResolveStmt(st, ss[0]);
      ResolveStmts(st1, ss[1..])
  }

  /** `resolveFunction`: the body is resolved as a function, in a new scope that first gets
      the parameters; afterwards the enclosing function type is restored. */
  function ResolveFunction(st: State, params: seq<Token>, body: seq<Stmt>): (r: Result<State, ResolveError>)
    ensures r.Ok? ==> Extends(st, r.value)
    ensures r.Err? ==> r.error != TopLevelReturn
    decreases body, 1
  {
    var entered := BeginScope(st.(current := Function));
    var withParams :- DeclareParams(entered, params);
    var inner :- ResolveStmts(withParams, body);
    Ok(EndScope(inner).(current := st.current))
  }

  /** Declares and defines each parameter in turn. */
  function DeclareParams(st: State, params: seq<Token>): (r: Result<State, ResolveError>)
    ensures r.Ok? ==> Extends(st, r.value)
    ensures r.Err? ==> r.error == AlreadyDeclared
    ensures |st.scopes| > 0 ==> (r.Ok? <==> FreshParams(st.scopes[0], params))
    ensures r.Ok? && |st.scopes| > 0 ==>
              forall n | n in st.scopes[0] :: n in r.value.scopes[0] && r.value.scopes[0][n] == st.scopes[0][n]
    ensures r.Ok? && |st.scopes| > 0 ==>
              forall i | 0 <= i < |params| && NameOf(params[i]).Some? ::
                NameOf(params[i]).value in r.value.scopes[0] && r.value.scopes[0][NameOf(params[i]).value]
    decreases params
  {
    if |params| == 0 then Ok(st)
    else
      var st1 :- Declare(st, params[0]);
      DeclareParams(Define(st1, params[0]), params[1..])
  }

  /** The public `resolve` on a fresh resolver: the interpreter calls it makes, or the error. */
  function Resolve(program: seq<Stmt>): (r: Result<seq<Resolution>, ResolveError>)
    ensures BareReturns(program) ==> r.Err?
    ensures r.Err? && r.error == TopLevelReturn ==> BareReturns(program)
  {
    var st :- ResolveStmts(Initial, program);
    Ok(st.resolved)
  }
}
