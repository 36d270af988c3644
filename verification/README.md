# A verified model of a small scripting-language front end

This project models the front end of a small interpreted language, written in TypeScript, in
Dafny:

- the scanner (`src/scanner.ts`) and its token table (`src/token.ts`);
- the recursive-descent parser (`src/parser.ts`) over the syntax tree of `src/grammar.ts`;
- the static resolver (`src/resolver.ts`);
- the expression evaluator (`src/evaluator.ts`);
- the flat environment (`src/environment.ts`);
- the call wrapper of user functions (`src/callable.ts`).

Everything is a pure function over immutable datatypes. Cursors, scope stacks and the resolver's
calls to the interpreter are threaded explicitly. Every thrown error becomes a `Result` error
value.

Layout, one module per file:

| file | module | contents |
|---|---|---|
| `wrappers.dfy` | `Wrappers` | `Option` and `Result` |
| `token.dfy` | `Tokens` | token kinds, the keyword table, the token record |
| `scanner.dfy` | `Scanner` | `scan`/`tokenize` with independent `head` and `tail` cursors |
| `scanner_props.dfy` | `ScannerProperties` | what each branch emits; lexeme fidelity; termination; the re-read of `;+` |
| `grammar.dfy` | `Grammar` | expression and statement nodes, runtime values, callables, environments |
| `parser.dfy` | `Parser` | the parser, as functions of a token list and a cursor |
| `parser_props.dfy` | `ParserProperties` | precedence and associativity, statement terminators, error cases |
| `for_loops.dfy` | `ForLoops` | the desugaring of `for` into `while` |
| `declaration_chains.dfy` | `DeclarationChains` | what `parse` and a block's loop yield, stated as chains of consecutive declarations |
| `comma_lists.dfy` | `CommaLists` | parameter and argument lists stated independently of their loops, as alternating items and commas |
| `resolver.dfy` | `Resolver` | the resolver with its scope stack and the trace of `interpreter.resolve` calls |
| `resolver_props.dfy` | `ResolverProperties` | the consequences of `scopesPeek()` returning the first scope |
| `evaluator.dfy` | `Evaluator` | literals, groupings, unary and binary operators |
| `evaluator_props.dfy` | `EvaluatorProperties` | a static kind analysis the evaluator agrees with; algebraic laws |
| `environment.dfy` | `Environment` | `get`, `set`, `assign` |
| `callable.dfy` | `Callables` | `arity`, parameter binding, and what a call yields |

Behaviours of the source that the model keeps as written:

- The scanner's unknown-symbol branch moves `head` but not `tail`, so the next character is
  read twice: `;+` scans as two `PLUS` tokens.
- An identifier or a `//` comment that runs to the end of the input never stops scanning. A
  read past the end is `undefined`, and `/[A-Za-z]/` accepts the text "undefined". The model
  reports such a scan as `Loops`.
- `check` and `consume` at the end of the tokens dereference a missing token. That is an error
  of its own, `ReadPastEnd`.
- `scopesPeek()` returns `scopes[0]`, while `beginScope` pushes at the end. So `declare`,
  `define` and the own-initialiser check all act on the first scope pushed, and a name
  declared in an inner block is still declared after that block ends.
- The environment constructor takes no argument, so a function body's environment holds its
  parameters only.
- The parser matches on `RETURN` and `COMMA`, which the token enum lacks. Both kinds are in
  `TokenType`, and the scanner never produces them.

## Model

| member | source | states |
|---|---|---|
| Tokens.Keyword | src/token.ts:56-73 | a lexeme is found exactly when it is one of the sixteen keyword lexemes, matched whole and case-sensitively; the kind found is always a keyword kind |
| Tokens.Spelling | src/token.ts:56-73 | the table read backwards: a kind has a lexeme exactly when it is a keyword kind |
| Tokens.KeywordRoundTrip | src/token.ts:56-73 | looking a lexeme up and spelling the kind gives the lexeme back, and spelling a keyword kind and looking it up gives the kind back |
| Tokens.KeywordInjective | src/token.ts:56-73 | two lexemes that the table maps to the same kind are the same lexeme |
| Tokens.NotKeywords | src/token.ts:56-73 | `return` is no keyword, the lookup is case-sensitive, and no lexeme maps to IDENT, STRING or NUMBER |
| Scanner.Slice | src/scanner.ts:279-289 | `slice(from, to)` is the source piece between the cursors, and empty when `to` does not pass `from` |
| Scanner.IsDigit | src/scanner.ts:304-306 | `isNumber` holds exactly for the ten characters from `0` to `9` |
| Scanner.IsAlpha | src/scanner.ts:308-310 | a letter is ASCII, and it is neither a digit nor `_` |
| Scanner.IsAlphaNumeric | src/scanner.ts:312-314 | every digit and letter continues an identifier, nothing outside ASCII does, and `_` does not |
| Scanner.SkipBlanks | src/scanner.ts:44-52 | the blank loop stops at the first character that is neither a space nor a tab, having passed only spaces and tabs |
| Scanner.IdentEnd | src/scanner.ts:279-289 | the identifier loop stops at the first character that is not a letter or digit, and finds none exactly when letters and digits run to the end of the input |
| Scanner.CommentEnd | src/scanner.ts:177-186 | the comment loop stops at the first line break, and finds none exactly when no line break follows |
| Scanner.ChompString | src/scanner.ts:228-249 | the string loop stops at the next identical quote, with the line counter raised by the line breaks passed; it finds no quote exactly when none follows |
| Scanner.RunEnd | src/scanner.ts:251-277 | the end of the run of digits and points that a number consumes |
| Scanner.NumberEnd | src/scanner.ts:251-277 | the number loop succeeds exactly when the run holds at most one point in all, and then ends where the run ends |
| Scanner.Tokenize | src/scanner.ts:32-226 | one step appends at most one token, never lowers the line counter, keeps `tail <= head <= length`, and either moves `tail` forward or keeps it and moves `head` forward |
| Scanner.Run | src/scanner.ts:25-30 | the scan loop only appends to the tokens it has |
| ScannerProperties.TokenizeDispatch | src/scanner.ts:103-224 | each character class is handed to its own branch |
| ScannerProperties.PushFaithful | src/scanner.ts:316-323 | `pushToken` appends a token of a kind the scanner produces whose literal is a piece of the source |
| ScannerProperties.TokenizeFaithful | src/scanner.ts:32-226 | every token one step adds has a scannable kind and a literal that is a contiguous piece of the source |
| ScannerProperties.ScanFaithful | src/scanner.ts:25-30 | every token of a completed scan has a kind other than SEMICOLON, COMMA, NOT_EQUALS and RETURN, and its literal, when present, is a contiguous piece of the source |
| ScannerProperties.OperatorMunch | src/scanner.ts:103-173 | from an aligned state (`head == tail`), `+ - * = < >` followed by `=` emit the two-character kind and consume two characters, otherwise the one-character kind and one character; no literal |
| ScannerProperties.SlashMunch | src/scanner.ts:188-202 | from an aligned state (`head == tail`), a `/` not followed by `/` emits SLASH_EQUALS when `=` follows and SLASH otherwise |
| ScannerProperties.SilentCharacters | src/scanner.ts:35-52 | blanks, line breaks and unknown symbols emit nothing and scanning goes on; a line break raises the line counter by one; an unknown symbol moves `head` only |
| ScannerProperties.StringLiteral | src/scanner.ts:204-249 | from an aligned state (`head == tail`), a string ends at the next identical quote with no escapes; its literal is the source slice including both quotes and its rows span the line breaks inside; reaching the end first is exactly the unclosed-string error |
| ScannerProperties.NumberLiteral | src/scanner.ts:251-277 | from an aligned state (`head == tail`), a number fails exactly when it is a leading `0` not followed by a point or its run holds two points; otherwise one NUMBER token whose literal is the whole run |
| ScannerProperties.WordLiteral | src/scanner.ts:279-289 | from an aligned state (`head == tail`), an identifier runs over letters and digits; a keyword lexeme gives its kind with no literal, any other lexeme IDENT with itself as literal; it never stops exactly when the run reaches the end |
| ScannerProperties.CommentLiteral | src/scanner.ts:177-186 | from an aligned state (`head == tail`), `//` emits one SLASH_SLASH token whose literal runs up to the next line break, which is consumed without raising the line counter; with no line break ahead the scan never stops |
| ScannerProperties.TokenRows | src/scanner.ts:316-323 | every token's row is the line at its start and the line at its end |
| Scanner.TokenizeStopsBeforeEnd | src/scanner.ts:178-186 | on a source ending in a line break no inner loop of one step runs off the end |
| Scanner.RunTerminates | src/scanner.ts:25-30 | from any well-formed state, the scan loop over a source ending in a line break finishes, with tokens or an error |
| Scanner.Scan | src/scanner.ts:25-30 | `scan` of the empty source gives no tokens, and `scan` of a source ending in a line break always finishes |
| ScannerProperties.IdentifierAtEndLoops | src/scanner.ts:308-314 | an identifier at the very end of the input is scanned forever |
| ScannerProperties.UnknownSymbolRereads | src/scanner.ts:221 | `;` leaves `tail` behind, so `;+` scans as two PLUS tokens |
| Grammar.NameOf | src/resolver.ts:141-153 | a token names something exactly when its literal is a non-empty string, and then it names that string |
| Parser.Check | src/parser.ts:405-407 | `check` compares the current kind, and fails exactly when no token is left |
| ParserProperties.MatchIsGuardedCheck | src/parser.ts:393-407 | `match` holds exactly when `check` holds for one of the listed kinds, and at the end of the tokens it is false where `check` fails the read |
| Parser.Consume | src/parser.ts:416-423 | `consume` succeeds exactly when the current token has the expected kind and then takes that token; otherwise the message, or the read past the end |
| Parser.PointAt | src/parser.ts:357 | the position of the first decimal point of a number literal |
| Parser.WholePart | src/parser.ts:356-358 | the digits of a number literal before its point form a non-empty run of digits |
| Parser.FractionPart | src/parser.ts:356-358 | the digits after the point form a run of digits shorter than the literal |
| Parser.DigitsConcat | src/parser.ts:356-358 | the value of two runs of digits written one after the other is the first scaled by ten per digit of the second, plus the second |
| Parser.WithoutPoint | src/parser.ts:356-358 | a decimal literal without a point is its own whole part, with no fraction |
| Parser.NumberOf | src/parser.ts:356-358 | `Number` of a decimal literal is the value of its whole digits plus the value of its fraction digits scaled down by ten per fraction digit; a literal without a point is the value of its digits |
| Parser.Expression | src/parser.ts:229-231 | an expression advances the cursor and is an `or`-level expression or an assignment to a variable |
| Parser.ParseAssignment | src/parser.ts:233-247 | likewise for `assignment` |
| Parser.Level | src/parser.ts:249-321 | each of `or`, `and`, `equality`, `comparison`, `term` and `factor` yields a left-associated chain of its own operators over operands of the next tighter level |
| Parser.Operand | src/parser.ts:249-321 | the operand of a level is an expression of the next tighter level, or a `unary` below `factor` |
| Parser.LevelLoop | src/parser.ts:311-321 | the operator loop keeps the result at its level |
| Parser.ParseUnary | src/parser.ts:323-331 | `unary` yields a call, or `not`/`-` over a whole expression |
| Parser.ParseCall | src/parser.ts:333-345 | `call` yields a primary wrapped in any number of argument lists |
| Parser.CallLoop | src/parser.ts:333-345 | each argument list wraps the callee built so far |
| Parser.FinishCall | src/parser.ts:373-391 | `finishCall` yields a call node over the given callee, holding the closing `)` it consumed; `f()` gives an empty argument list; otherwise the arguments are those of the argument loop, then a missing `)` fails with "Expected ')' after arguments." (or reads past the end) |
| Parser.Arguments | src/parser.ts:373-391 | the argument loop extends the arguments so far with at least one expression, the first being the expression at the cursor, whose error it passes on; it stops where no comma follows |
| Parser.Primary | src/parser.ts:347-371 | `false`, `true` and `nil` give their literal, a string its text, a number the value of its digits, an identifier a variable, each taking one token; `(` gives a grouping of the expression up to a consumed `)`; at the end of the tokens or on any other kind it fails with "Invalid expression." |
| Parser.OptionalExpression | src/parser.ts:169-178 | a clause is absent exactly when the current token is its terminator, which is left in place |
| Parser.Parse | src/parser.ts:32-43 | a parse yields no more statements than there are tokens |
| Parser.Program | src/parser.ts:32-43 | the `parse` loop only appends to the statements read so far |
| DeclarationChains.ChainTail | src/parser.ts:32-43 | dropping the first declaration of a chain of consecutive declarations leaves a chain |
| DeclarationChains.ChainCons | src/parser.ts:32-43 | a declaration parsed in front of a chain starting where it ends extends the chain |
| DeclarationChains.ChainParses | src/parser.ts:32-43 | along a chain that reaches the end of the tokens the `parse` loop collects exactly the chain's declarations |
| DeclarationChains.ChainFails | src/parser.ts:32-43 | along a chain that stops at a failing declaration the `parse` loop fails with that declaration's error |
| DeclarationChains.ParsedChain | src/parser.ts:32-43 | a successful `parse` loop follows a chain to the end of the tokens |
| DeclarationChains.FailedChain | src/parser.ts:32-43 | a failing `parse` loop follows a chain to a declaration that fails with its error |
| DeclarationChains.ParseSucceeds | src/parser.ts:32-43 | `parse` yields `ss` exactly when `ss` is a chain of consecutive declarations from the first token to the end of the tokens |
| DeclarationChains.ParseFails | src/parser.ts:32-43 | `parse` fails with `e` exactly when a chain of consecutive declarations from the first token stops, before the end, at a declaration that fails with `e` |
| Parser.Declaration | src/parser.ts:45-55 | a declaration advances the cursor |
| Parser.VarDeclaration | src/parser.ts:57-69 | `let` yields a variable declaration of the identifier after it; without that identifier it fails with "Variable declaration must have identifier.", or the read past the end; with `=` next the initializer is the expression after it, otherwise there is none and only the name is taken |
| Parser.FuncDeclaration | src/parser.ts:71-93 | `func` yields a function declaration named by the token after it, fails with "Expected identifer for function declaration." when that is not an identifier, and fails with "Expected '{' before function body" when no `{` follows its parameter list |
| CommaLists.FuncDeclarationParts | src/parser.ts:71-93 | a parsed function declaration takes its parameters from the parameter list after the name, and its body from the block after the `{` that follows that list |
| Parser.ParameterList | src/parser.ts:71-93 | every parameter is an identifier token; it fails with "Expected '(' after function declaration" without a `(`; `()` gives no parameters; otherwise the parameters are those of the parameter loop, closed by a `)` |
| Parser.ParameterNames | src/parser.ts:74-86 | after the `(`, an immediate `)` gives no parameters; otherwise the parameter loop's names followed by a `)`, or "Expected ')' after function parameters declaration" (or a read past the end) |
| Parser.Parameters | src/parser.ts:71-93 | the parameter loop adds at least one identifier token, the first being the token at the cursor; it fails with "Expected parameter name." when that is not an identifier, and stops where no comma follows |
| CommaLists.ParametersReadNameList | src/parser.ts:74-86 | what the parameter loop adds is a name list: identifiers alternating with commas, with no comma after the last |
| CommaLists.NameListParameters | src/parser.ts:74-86 | on a name list the parameter loop adds exactly its names and stops after the last |
| CommaLists.ParametersExactly | src/parser.ts:74-86 | the parameter loop yields `names` ending at `next` exactly when the tokens there are a name list of `names` ending at `next` |
| CommaLists.ParameterListExactly | src/parser.ts:71-93 | a parameter list yields `params` exactly when the tokens are `(` then either `)` with no parameters, or a name list of `params` then `)` |
| CommaLists.ParameterListNames | src/parser.ts:71-93 | a parsed parameter list is such a parenthesised name list |
| CommaLists.NoParameters | src/parser.ts:77-89 | a parameter list without names is `()` |
| CommaLists.NamesInParentheses | src/parser.ts:71-93 | every parenthesised name list parses as a parameter list of its names |
| CommaLists.ArgumentsReadChain | src/parser.ts:375-381 | what the argument loop adds is a chain of expressions, each parsed where the previous one's comma ended, with no comma after the last |
| CommaLists.ChainArguments | src/parser.ts:375-381 | on such a chain the argument loop adds exactly its expressions, in order |
| CommaLists.ArgumentsExactly | src/parser.ts:375-381 | the argument loop yields `args` ending at `next` exactly when such a chain of `args` starts at the cursor and ends at `next` |
| CommaLists.FinishCallExactly | src/parser.ts:373-391 | `finishCall` yields a call with closing `paren` and arguments `args` exactly when either `paren` is the `)` at the cursor and there are no arguments, or the cursor is not at a `)`, a chain of `args` starts there and `paren` is the `)` right after it |
| CommaLists.CallReadsRest | src/parser.ts:373-391 | a call `finishCall` yields has that shape |
| CommaLists.RestMakesCall | src/parser.ts:373-391 | tokens of that shape yield that call |
| CommaLists.ChainThenParen | src/parser.ts:373-391 | a chain of arguments followed by `)` yields a call of exactly those arguments |
| Parser.Statement | src/parser.ts:95-121 | a statement advances the cursor |
| Parser.ExpressionStatement | src/parser.ts:224-227 | an expression statement succeeds exactly when an expression parses there, and then holds that expression and ends where it ends |
| Parser.BlockBody | src/parser.ts:128-138 | a block body ends with its `}` consumed |
| Parser.Declarations | src/parser.ts:128-138 | the block loop stops before a `}` and fails at the end of the tokens with the read past the end |
| DeclarationChains.BlockChainParses | src/parser.ts:128-138 | along a chain of declarations none of which starts at a `}`, ending at a `}`, the block loop collects exactly the chain's declarations |
| DeclarationChains.BlockParsedChain | src/parser.ts:128-138 | a successful block loop follows such a chain to a `}` |
| DeclarationChains.BlockBodySucceeds | src/parser.ts:128-138 | a block body yields `ss` and ends after a `}` exactly when `ss` is a chain of declarations, none starting at a `}`, from the body's start to that `}` |
| DeclarationChains.BlockChainFails | src/parser.ts:128-138 | a block chain that runs into the end of the tokens, or into a failing declaration that is not at a `}`, fails the block loop with that error |
| DeclarationChains.BlockFailedChain | src/parser.ts:128-138 | a failing block loop follows a block chain to the end of the tokens or to a failing declaration |
| DeclarationChains.BlockBodyFails | src/parser.ts:128-138 | a block body fails with `e` exactly when a block chain from its start runs into the end of the tokens (and `e` is the read past the end) or into a declaration not at a `}` that fails with `e` |
| Parser.IfStatement | src/parser.ts:140-153 | `if` yields an if node |
| Parser.ForStatement | src/parser.ts:155-197 | `for` advances the cursor |
| Parser.ForCondition | src/parser.ts:169-173 | the condition clause advances the cursor |
| Parser.ForRest | src/parser.ts:175-197 | the increment, `)` and body advance the cursor |
| Parser.ForInitializer | src/parser.ts:158-167 | the initializer clause advances the cursor |
| Parser.Terminated | src/parser.ts:163-166 | the initializer is kept and its `;` is consumed |
| Parser.WhileStatement | src/parser.ts:199-212 | `while` yields a while node whose body ends with a consumed `}` |
| Parser.WhileBody | src/parser.ts:201-212 | after the condition, a `)` and a braced body give a while node over exactly that condition, ending with a consumed `}` |
| Parser.WhileBlock | src/parser.ts:204-212 | the braced body of a `while`: a token other than `{` fails it with "while statement requires '{'", the end of the tokens with the read past the end; a success is a while node over the given condition ending with a consumed `}` |
| Parser.ReturnStatement | src/parser.ts:214-222 | `return` yields a return node keeping its keyword, and ends with a consumed `;` |
| ParserProperties.LevelOpsDisjoint | src/parser.ts:249-321 | no operator belongs to two precedence levels |
| ParserProperties.UnaryIsNoOperator | src/parser.ts:323-331 | a unary-level expression is never a binary or logical node |
| ParserProperties.NodeOperator | src/parser.ts:249-321 | an operator node of a level carries an operator of that level or a tighter one |
| ParserProperties.OperandLevels | src/parser.ts:249-321 | in a tree of any level, the node of a level-k operator has a left operand of level k and a right operand of the next tighter level, and it is a logical node exactly for `and` and `or` |
| ParserProperties.LevelsPassThrough | src/parser.ts:249-321 | a level whose loop finds none of its operators returns the tighter level's result unchanged |
| ParserProperties.TimesBindsTighter | src/parser.ts:299-321 | `a + b * c` parses as `a + (b * c)` |
| ParserProperties.MinusChainsLeft | src/parser.ts:299-309 | `a - b - c` parses as `(a - b) - c` |
| ParserProperties.UnaryTakesExpression | src/parser.ts:323-331 | `- a + b` parses as `-(a + b)` |
| ParserProperties.InvalidAssignmentTarget | src/parser.ts:233-247 | `a + b = c` fails with "Invalid assignment target." |
| ParserProperties.AssignmentNests | src/parser.ts:233-247 | `a = b = c` parses as `a = (b = c)` |
| ParserProperties.PrintEndsWithExpression | src/parser.ts:123-126 | a `print` statement ends where its expression ends: no terminator is read |
| ParserProperties.PrintNeedsNoTerminator | src/parser.ts:123-126 | `print a print b` parses as two statements |
| ParserProperties.FirstDeclarationFails | src/parser.ts:32-43 | a failing first declaration fails the whole parse with its error |
| ParserProperties.ReturnNeedsSemicolon | src/parser.ts:214-222 | `return a b` does not parse: the return needs its `;` |
| ParserProperties.UnbracedAfterCondition | src/parser.ts:202-203 | once the condition's `)` is consumed, a token other than `{` fails the `while` with "while statement requires '{'" |
| ParserProperties.WhileWithoutBrace | src/parser.ts:199-212 | after `( condition )` a `while` fails with "while statement requires '{'" unless a `{` follows |
| ParserProperties.WhileNeedsBraces | src/parser.ts:199-212 | `while (a) print a` does not parse |
| ParserProperties.UnclosedBlock | src/parser.ts:128-138 | `{ print a` fails on the read past the end of the tokens |
| ForLoops.LetWithoutInitializer | src/parser.ts:57-69 | for every token list, `let name` with no `=` after it declares the name without an initializer and takes only the name |
| ForLoops.ForDesugars | src/parser.ts:155-197 | for every token list, once the clauses and the body parse, `for` yields their desugaring into `while`, ending where the body ends |
| ForLoops.ForAllClauses | src/parser.ts:155-197 | `for (let i; c; n) print a` parses as `{ let i; while (c) { print a; n } }` |
| ForLoops.AllClausesStatement | src/parser.ts:155-197 | the `for` statement of that loop, after its keyword, is that block and ends at the last token |
| ForLoops.EmptyForClauses | src/parser.ts:155-197 | `for (;;) print a` parses as `while (true) print a`, with no block wrapper |
| Resolver.BeginScope | src/resolver.ts:172-174 | `beginScope` pushes one empty scope at the end and changes nothing else |
| Resolver.EndScope | src/resolver.ts:212-214 | `endScope` pops the last scope pushed and changes nothing else |
| Resolver.Record | src/resolver.ts:164-166 | a write through `scopesPeek()` changes the first scope only |
| Resolver.Declare | src/resolver.ts:141-153 | `declare` fails exactly when the first scope already holds the name; otherwise it records the name as not initialised there, and does nothing on an empty stack or a nameless token |
| Resolver.Define | src/resolver.ts:155-162 | `define` records the name as initialised in the first scope, and does nothing on an empty stack or a nameless token |
| Resolver.FindScope | src/resolver.ts:203-210 | the search from the last-pushed scope down finds the nearest scope holding the name, and finds none exactly when no scope holds it |
| Resolver.ResolveLocal | src/resolver.ts:203-210 | the interpreter is told the depth of the nearest scope holding the name, counted from the innermost; it is told nothing exactly when no scope holds the name; this is the one call, or none, that the expression-level trace lists for the node |
| Resolver.ResolveExpr | src/resolver.ts:52-139 | resolving an expression keeps the scopes; it fails, always with the own-initialiser error, exactly when the expression reads a variable that the first scope holds as declared but not defined; on success the interpreter is told, in order, the depth of every variable read and assignment whose name some scope holds, an assignment's value before the assignment, operands left to right, a callee before its arguments |
| Resolver.ResolveCall | src/resolver.ts:113-119 | a call resolves its callee and then its arguments: it fails exactly when one of them reads an uninitialised variable, and otherwise tells the interpreter their reads in that order |
| Resolver.ResolveExprs | src/resolver.ts:113-119 | likewise for a call's arguments, left to right: they fail exactly when one of them reads such a variable, and otherwise the interpreter is told each argument's reads in turn |
| Resolver.ResolveOptional | src/resolver.ts:93-100 | likewise for an optional child, which fails only when present and tells the interpreter nothing when absent |
| Resolver.ResolveStmt | src/resolver.ts:38-105 | a statement keeps the stack height and function type; outside a function, a statement holding a `return` not inside a function of its own fails, a top-level-return error only comes from such a statement, and a `return` statement itself gives exactly that error; an expression or `print` statement tells the interpreter exactly its expression's reads |
| Resolver.ResolveVarDecl | src/resolver.ts:44-50 | a `let` fails with "already declared" exactly when the first scope holds the name; otherwise with the own-initialiser error exactly when its initializer reads a variable left uninitialised once the name is declared; after success the name is defined in the first scope, and the interpreter was told the initializer's reads as resolved after the declaration |
| Resolver.ResolveBlock | src/resolver.ts:38-42 | a block leaves the stack height as it was |
| Resolver.ResolveIf | src/resolver.ts:81-87 | an `if` keeps the stack height and function type, and outside a function fails when a branch holds a bare `return`; that it opens no scope is ResolverProperties.IfOpensNoScope |
| Resolver.ResolveWhile | src/resolver.ts:102-105 | a `while` keeps the stack height and function type, and outside a function fails when its body holds a bare `return`; that it opens no scope is ResolverProperties.WhileOpensNoScope |
| Resolver.ResolveFuncDecl | src/resolver.ts:71-75 | a function declaration never reports a top-level return; in a scope already holding the name it fails with "already declared"; otherwise the name is declared and defined in the first scope before the function is resolved, and outside every scope the function is resolved directly |
| Resolver.RecordTwice | src/resolver.ts:141-162 | declaring a name and then defining it leaves the scope as defining it alone would |
| Resolver.ResolveStmts | src/resolver.ts:176-180 | a statement list keeps the stack height; outside a function it fails when one of its statements holds a bare `return`, a top-level-return error only comes from such a statement, and a list starting with a `return` gives exactly that error |
| Resolver.ResolveFunction | src/resolver.ts:190-201 | a function body leaves the stack height and the enclosing function type as they were, and a `return` inside it is never a top-level return |
| Resolver.DeclareParams | src/resolver.ts:190-197 | declaring the parameters succeeds exactly when no named parameter is in the first scope already and no two share a name, fails only with "already declared", keeps every name already there, and leaves every parameter defined |
| Resolver.Resolve | src/resolver.ts:176-180 | a program is rejected when it holds a `return` outside every function, and the top-level-return error means exactly that |
| ResolverProperties.DeclareInFirstScope | src/resolver.ts:44-50 | `let a` declares `a` and then defines it in the first scope |
| ResolverProperties.DeclareAInFirstScope | src/resolver.ts:141-153 | `let a` in a fresh first scope first records `a` as not initialised |
| ResolverProperties.DeclareUnderNestedScope | src/resolver.ts:141-166 | `let a` one block deeper than the first scope still writes into the first scope |
| ResolverProperties.InnerBlockLeavesA | src/resolver.ts:38-42 | `{ let a }` inside a block leaves `a`, defined, in the outer block's scope |
| ResolverProperties.ReadA | src/resolver.ts:52-63 | reading a name the first scope holds records the depth counted from the innermost scope |
| ResolverProperties.NestedBlockShadowingFails | src/resolver.ts:141-153 | `{ let a { let a } }` fails: the inner declaration lands in the outer block's scope |
| ResolverProperties.InnerDeclarationOutlivesBlock | src/resolver.ts:164-174 | `{ { let a } let a }` fails: the inner block's declaration outlives the inner block |
| ResolverProperties.OwnInitializerFails | src/resolver.ts:52-63 | `{ let a = a }` fails with the own-initialiser error |
| ResolverProperties.TopLevelIsUnscoped | src/resolver.ts:141-162 | at top level there are no scopes: `let a = a  let a` passes and the interpreter is told nothing |
| ResolverProperties.ParameterClashesWithBlockLocal | src/resolver.ts:190-197 | `{ let a func f(a) {} }` fails: the parameter is declared in the block's scope |
| ResolverProperties.AssignmentValueFirst | src/resolver.ts:65-69 | `{ let a  a = a }` records the assigned value before the assignment's target |
| ResolverProperties.DepthCountsFromInnermost | src/resolver.ts:203-210 | in `{ let a { a } }` the read is one scope out from the innermost |
| ResolverProperties.ReturnInsideFunction | src/resolver.ts:93-100 | `func f(a) { return a }` at top level is accepted, and its read of `a` is found in the innermost scope |
| ResolverProperties.FunctionOfAResolves | src/resolver.ts:190-201 | that function, entered from top level, records the one read and leaves no scope behind |
| ResolverProperties.ParamDeclared | src/resolver.ts:190-197 | its parameter is declared, then defined, in the function's fresh scope |
| ResolverProperties.ReturnReadsParam | src/resolver.ts:93-100 | its `return a` reads the parameter in the innermost scope |
| ResolverProperties.FunctionBodyReturnsA | src/resolver.ts:190-201 | inside that function the parameter is declared before the return reads it |
| ResolverProperties.FunctionSeesOwnName | src/resolver.ts:71-75 | `{ func a() { a } }` resolves, with the body's read of `a` found one scope out: the name is defined before the body |
| ResolverProperties.FuncAInFreshScope | src/resolver.ts:71-75 | `func a() { a }` in a fresh scope leaves `a` defined there and records the one read |
| ResolverProperties.OwnNameInBody | src/resolver.ts:190-201 | the body of `func a()` reads `a` in the scope that encloses the function's own |
| ResolverProperties.WhileOpensNoScope | src/resolver.ts:102-105 | `while (c) { e }` fails exactly when `c` or `e` reads an uninitialised variable, and otherwise leaves the scopes as they were and tells the interpreter the reads of `c` and then of `e`, looked up in the same scopes |
| ResolverProperties.IfOpensNoScope | src/resolver.ts:81-87 | `if (c) a else b` likewise, with the reads of `c`, `a` and `b` looked up in the same scopes |
| ResolverProperties.WhileReadsAtSameDepth | src/resolver.ts:102-105 | `while (a) { a }` reads `a` twice at depth 0, where a block would have put the body's read at depth 1 |
| ResolverProperties.LookupsWithinStack | src/resolver.ts:203-210 | the interpreter is only told about variable reads and assignments, always at a depth below the number of open scopes |
| ResolverProperties.LookupsAllWithinStack | src/resolver.ts:113-119 | likewise for a call's arguments |
| Evaluator.ApplyUnary | src/evaluator.ts:9-20 | `not` yields the negated truthiness, `-` negates a number, any other operator yields `null` |
| Evaluator.IsTruthy | src/evaluator.ts:79-82 | only `null` and `false` are false: `true`, every number, 0 included, every string, the empty one included, and every function are true |
| Evaluator.ApplyBinary | src/evaluator.ts:22-57 | two strings under `+` concatenate left then right; two numbers give their sum, difference, product, quotient (for a non-zero divisor) and the outcome of each comparison; every other combination yields `null`; only division by zero is left undefined |
| Evaluator.Evaluate | src/evaluator.ts:59-73 | a literal evaluates to its stored value, a grouping to its inner expression's value, a unary or binary node to its operator applied to its operands' values with the first failure passed on; evaluation of an expression outside the four visited nodes fails, and a failure for lack of a visitor comes only from such an expression (an operand failing with `Unmodelled` may end it first) |
| EvaluatorProperties.StaticKindSound | src/evaluator.ts:9-73 | whatever an expression evaluates to has the kind an analysis of its operators and literals alone predicts |
| EvaluatorProperties.StaticKindInFragment | src/evaluator.ts:9-73 | an expression whose kind the analysis knows never lacks a visitor |
| EvaluatorProperties.DoubleNegation | src/evaluator.ts:79-82 | `not not e` is the truthiness of `e`, and adding two more `not` changes nothing |
| EvaluatorProperties.ComparisonsMirror | src/evaluator.ts:30-53 | `a > b` is `b < a`, `a >= b` is `b <= a`, and `==` and `!=` are symmetric on numbers |
| EvaluatorProperties.ComparisonsNegate | src/evaluator.ts:30-53 | on numbers `!=`, `<=` and `>=` are `not` of `==`, `>` and `<` |
| EvaluatorProperties.SubtractionAddsNegation | src/evaluator.ts:9-53 | subtracting a number is adding its negation by unary `-` |
| EvaluatorProperties.NegateTwice | src/evaluator.ts:9-20 | `-` undoes itself on numbers |
| EvaluatorProperties.StringPlusOrdered | src/evaluator.ts:26-28 | `+` on strings concatenates in order, so it does not commute |
| EvaluatorProperties.MixedOperandsGiveNil | src/evaluator.ts:56 | mixed operands, and `==` on strings or on `null`, yield `null` rather than an error |
| Environment.Get | src/environment.ts:8-10 | `get` returns the bound value, or `null` for an unbound name |
| Environment.Set | src/environment.ts:12-14 | after `set` the name reads the new value, every other name reads as before, and exactly that name is added |
| Environment.Assign | src/environment.ts:16-22 | `assign` succeeds exactly on a bound name and then acts as `set`; otherwise it fails with "Undefined variable: " and the name |
| Environment.Extensional | src/environment.ts:8-14 | two environments binding the same names that answer every `get` alike are equal |
| Environment.SetSet | src/environment.ts:12-14 | a second `set` of a name overwrites the first |
| Environment.SetsCommute | src/environment.ts:12-14 | `set`s of different names commute |
| Environment.SetSame | src/environment.ts:8-14 | setting a bound name to its own value changes nothing |
| Environment.EmptyEnvironment | src/environment.ts:4-22 | a fresh environment reads `null` everywhere and refuses every assignment |
| Callables.Arity | src/callable.ts:33-35 | a function's arity is its number of parameters, and the clock's arity is 0 |
| Callables.BindParams | src/callable.ts:38-43 | the body's environment binds exactly the parameters' names, each to the argument at the last position naming it, or `null` past the last argument |
| Callables.Call | src/callable.ts:37-52 | a `Return` from the body is the call's value; normal completion and any other error give `null` |
| Callables.ExtraArgumentsIgnored | src/callable.ts:38-43 | no argument-count check: arguments past the last parameter are ignored |
| Callables.DistinctParameters | src/callable.ts:38-43 | distinct named parameters are each bound to their own argument, and a parameter without an argument reads `null` |
| Callables.ClosureNotVisible | src/callable.ts:38 | a name only the closure binds is unbound in the body's environment |
| Callables.RepeatedParameterLastWins | src/callable.ts:39-43 | `f(a, a)` called with 1 and 2 binds `a` to 2 |
| Callables.UnnamedParameterSkipped | src/callable.ts:39-43 | a nameless parameter is skipped, though it still takes up its argument's position |

## Left out

- `src/lox.ts`, `src/main.ts` and `src/log.ts`: file reading, the REPL, argument dispatch and console output.
- `src/interpreter.ts` has no statement executor. A call takes the execution of its body as the parameter `run`, and the resolver's `interpreter.resolve` calls become a trace of `Resolution(expression, depth)` in call order.
- `ClockLoxCallable.call`: it reads the wall clock.
- Console warnings and errors: the scanner's unknown-symbol warning, `parse`'s error log, and the logs for more than 255 arguments or parameters. Parsing goes on after those logs, and so does the model.
- IEEE-754 arithmetic: numbers are reals. Division by zero and unary `-` on a non-number (a JavaScript coercion) are reported as `Unmodelled`.
- Parser.NumberOf: only decimal literals (digits, an optional point, digits) get their value, and any other text gives 0. JavaScript's `Number` gives other values for some of that text (`.5` is 0.5, `+1` is 1, the empty text is 0, `Infinity` is Infinity, `0b1` is 1, and exponents, hexadecimal and surrounding blanks are read) and NaN for the rest. The scanner produces none of those as a NUMBER literal, but on other token lists the model and the source differ there.
- Evaluator.Evaluate: an operand that fails with `Unmodelled` (division by zero, or `-` on a non-number) ends evaluation, where the source goes on with Infinity or NaN. So an expression outside the four visited nodes, such as `-"a" + a`, may fail with `Unmodelled` where the source fails for lack of `visitVarExpr`.
- Prototype lookups through `KeywordMap[...]`, such as `toString`: the table is exactly its sixteen entries.
- `accept` and the visitor interfaces: dispatch is a `match` on the node.
- The `Token` constructor only copies its four arguments. It is the datatype constructor here, so there is nothing to prove about it.
- The `FunctionType` import at src/resolver.ts:1 names a type that callable.ts does not export. `FunctionType` is its own two-valued datatype here.
- The `Return` class of src/callable.ts:55-62 is the `Returned(value)` outcome of a body.
- Resolution results are keyed by node identity in the source. Here each result carries the expression node itself.
- Parser.Parse: its own contract states only that there are no more statements than tokens. What it yields, and when it fails, is stated independently of its loop by DeclarationChains.ParseSucceeds and DeclarationChains.ParseFails.
- Parser.Declaration: states only that the cursor advances. What each kind of declaration yields is stated by the functions it dispatches to and by the lemmas of ParserProperties and ForLoops.
- Parser.Statement: states only that the cursor advances, for the same reason.
- Parser.ForStatement: states only that the cursor advances. The desugaring is ForLoops.ForDesugars.
- Parser.ForCondition: states only that the cursor advances. The desugaring is ForLoops.ForDesugars.
- Parser.ForRest: states only that the cursor advances. The desugaring is ForLoops.ForDesugars.
- Parser.ForInitializer: states only that the cursor advances. The desugaring is ForLoops.ForDesugars.
- Parser.IfStatement: states only that an if node results, not its branches.
- Resolver.ResolveBlock: states the stack height and the top-level-return error, not the scope it pushes. That scope is stated by ResolverProperties.
- Resolver.ResolveIf: states the stack height and the top-level-return error only. That no scope is opened, and what the interpreter is told, is ResolverProperties.IfOpensNoScope, for branches that are expression statements.
- Resolver.ResolveWhile: states the stack height and the top-level-return error only. That no scope is opened, and what the interpreter is told, is ResolverProperties.WhileOpensNoScope, for a body of one expression statement.
- Resolver.ResolveFuncDecl: the calls the body makes to the interpreter are not stated by its contract; ResolverProperties.FunctionSeesOwnName shows an example.
- Resolver.ResolveStmts: the calls made to the interpreter are not stated, for the reason given under Resolver.Resolve.
- Resolver.Resolve: a program holding a bare `return` is rejected, but possibly with an earlier error. The calls made to the interpreter are stated for each expression, each expression or `print` statement and each `let` (Resolver.ResolveExpr, Resolver.ResolveStmt, Resolver.ResolveVarDecl), not for blocks, branches, loops, functions or whole programs, whose scope changes between their parts; those are shown by the examples of ResolverProperties.
- Strings are sequences of Unicode scalar values, while the source indexes UTF-16 code units (src/scanner.ts:16 and src/scanner.ts:330). A character outside the Basic Multilingual Plane is two characters to the source and one here, so columns, lengths and the unknown-symbol branch (which the source takes once per half of the pair) differ on such input.
