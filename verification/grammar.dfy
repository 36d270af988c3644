/** The syntax tree (src/grammar.ts) together with the runtime values a literal or a variable
    can hold. Values, callables and environments live here because a function value carries
    its declaration's body and its closure, so the three are defined together with the tree. */
module Grammar {
  import opened Wrappers
  import opened Tokens

  /** A runtime value: JavaScript `null`, a boolean, a number, a string or a callable. Numbers
      are reals: IEEE-754 rounding, NaN, infinities and -0 are not modelled. */
  datatype Value = Nil | Bool(b: bool) | Num(n: real) | Str(s: string) | Fn(callable: Callable)

  /** A user function (its declaration's name, parameters and body, and the environment it
      was created in) or the native clock. */
  datatype Callable =
    | LoxFunction(name: Token, params: seq<Token>, body: seq<Stmt>, closure: Env)
    | Clock

  /** The name-to-value map of one environment. It has no enclosing environment. */
  datatype Env = Env(values: map<string, Value>)

  /** The nullable argument list of a call node. */
  datatype Args = NoArgs | ArgList(items: seq<Expr>)

  /** The eight expression nodes. Operators are kept as whole tokens; a call keeps its `)`. */
  datatype Expr =
    | Binary(left: Expr, op: Token, right: Expr)
    | Unary(op: Token, right: Expr)
    | Literal(value: Value)
    | Grouping(expression: Expr)
    | Variable(name: Token)
    | Assignment(name: Token, rhs: Expr)
    | Logical(left: Expr, op: Token, right: Expr)
    | Call(callee: Expr, paren: Token, arguments: Args)

  /** The eight statement nodes. A function body is the statement list of its block, so it is
      a block by construction; a `while` body is a list of statements; a return keeps its
      keyword token. */
  datatype Stmt =
    | ExprStmt(expression: Expr)
    | Print(expression: Expr)
    | VarDecl(name: Token, initializer: Option<Expr>)
    | Block(statements: seq<Stmt>)
    | If(condition: Expr, thenBranch: Stmt, elseBranch: Option<Stmt>)
    | While(condition: Expr, statements: seq<Stmt>)
    | FuncDecl(name: Token, params: seq<Token>, body: seq<Stmt>)
    | Return(keyword: Token, value: Option<Expr>)

  /** The name a token contributes to a scope or an environment: its literal, when that is a
      non-empty string (the JavaScript truthiness test `if (name.literal)`). */
  function NameOf(t: Token): (r: Option<string>)
    ensures r.Some? <==> t.literal.Some? && t.literal.value != ""
    ensures r.Some? ==> r.value == t.literal.value
  {
    match t.literal
    case Some(s) => if s == "" then None else Some(s)
    case None => None
  }
}
