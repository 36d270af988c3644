/** Token kinds, the keyword table and the token record (src/token.ts). */
module Tokens {
  import opened Wrappers

  /** The closed set of token kinds. `RETURN` and `COMMA` are not in the source enum, but the
      parser matches on them, so the parser's input alphabet needs them. */
  datatype TokenType =
    // single-character forms
    | DOT | PLUS | MINUS | STAR | SLASH | EQUALS
    | O_PAREN | C_PAREN | O_BRACKET | C_BRACKET | O_SBRACKET | C_SBRACKET
    | LT | GT | SEMICOLON
    // two-character forms
    | PLUS_EQUALS | MINUS_EQUALS | STAR_EQUALS | SLASH_EQUALS
    | EQUALS_EQUALS | NOT_EQUALS | LTE | GTE
    // comment
    | SLASH_SLASH
    // keywords and identifiers
    | TRUE | FALSE | NIL | NOT | AND | OR | IS | WHILE | FOR | IF | ELIF | ELSE | IN
    | LET | FUNC | IDENT | PRINT
    // literals
    | STRING | NUMBER
    // used by the parser only
    | RETURN | COMMA

  /** A scanned token: kind, optional literal text, and [start, end] row and column pairs.
      The field called `type` in the source is `kind` here (`type` is a Dafny keyword). */
  datatype Token = Token(kind: TokenType, literal: Option<string>, row: (int, int), col: (int, int))

  /** The kinds that the keyword table may produce. */
  predicate IsKeywordKind(k: TokenType) {
    k in {TRUE, FALSE, NIL, NOT, AND, OR, IS, FOR, WHILE, IF, ELIF, ELSE, IN, LET, FUNC, PRINT}
  }

  /** The sixteen lexemes of the keyword table. */
  const KeywordLexemes: set<string> :=
    {"true", "false", "nil", "not", "and", "or", "is", "for", "while",
     "if", "elif", "else", "in", "let", "func", "print"}

  /** `KeywordMap`: an exact, case-sensitive lookup of a whole lexeme. */
  function Keyword(s: string): (r: Option<TokenType>)
    ensures r.Some? <==> s in KeywordLexemes
    ensures r.Some? ==> IsKeywordKind(r.value)
  {
    match s
    case "true" => Some(TRUE)
    case "false" => Some(FALSE)
    case "nil" => Some(NIL)
    case "not" => Some(NOT)
    case "and" => Some(AND)
    case "or" => Some(OR)
    case "is" => Some(IS)
    case "for" => Some(FOR)
    case "while" => Some(WHILE)
    case "if" => Some(IF)
    case "elif" => Some(ELIF)
    case "else" => Some(ELSE)
    case "in" => Some(IN)
    case "let" => Some(LET)
    case "func" => Some(FUNC)
    case "print" => Some(PRINT)
    case _ => None
  }

  /** The table read backwards: the lexeme that spells a keyword kind. */
  function Spelling(k: TokenType): (r: Option<string>)
    ensures r.Some? <==> IsKeywordKind(k)
  {
    match k
    case TRUE => Some("true")
    case FALSE => Some("false")
    case NIL => Some("nil")
    case NOT => Some("not")
    case AND => Some("and")
    case OR => Some("or")
    case IS => Some("is")
    case FOR => Some("for")
    case WHILE => Some("while")
    case IF => Some("if")
    case ELIF => Some("elif")
    case ELSE => Some("else")
    case IN => Some("in")
    case LET => Some("let")
    case FUNC => Some("func")
    case PRINT => Some("print")
    case _ => None
  }

  /** Looking a keyword up and spelling the result gives the lexeme back, and spelling a
      keyword kind and looking it up gives the kind back. Hence the table is injective. */
  lemma {:induction false} KeywordRoundTrip(s: string, k: TokenType)
    ensures Keyword(s).Some? ==> Spelling(Keyword(s).value) == Some(s)
    ensures IsKeywordKind(k) ==> Keyword(Spelling(k).value) == Some(k)
  {
    if Keyword(s).Some? {
      assert s in KeywordLexemes;
    }
  }

  lemma KeywordInjective(s: string, t: string)
    requires Keyword(s).Some? && Keyword(t).Some?
    ensures Keyword(s) == Keyword(t) ==> s == t
  {
    KeywordRoundTrip(s, NIL);
    KeywordRoundTrip(t, NIL);
  }

  /** `return` is no keyword, and the lookup is case-sensitive. */
  lemma NotKeywords()
    ensures Keyword("return").None?
    ensures Keyword("True").None? && Keyword("PRINT").None?
    ensures forall s :: Keyword(s) != Some(IDENT) && Keyword(s) != Some(STRING) && Keyword(s) != Some(NUMBER)
  {
  }
}
