/** The comma-separated lists of the parser (src/parser.ts): the parameter names of a function
    declaration and the arguments of a call. Each is described independently of the parsing
    loop, and the loop is shown to accept exactly the lists so described. */
module CommaLists {
  import opened Wrappers
  import opened Tokens
  import opened Grammar
  import opened Parser

  // ---------------------------------------------------------------------------------------
  // Parameter names

  /** `names` are the names of a comma-separated list that starts at `pos` and ends before
      `next`: name, `,`, name, …, name, with no `,` after the last. */
  predicate NameList(ts: seq<Token>, pos: nat, names: seq<Token>, next: nat) {
    && 0 < |names|
    && next == pos + 2 * |names| - 1 <= |ts|
    && (forall i | 0 <= i < |names| ::
          names[i] == ts[pos + 2 * i] && names[i].kind == IDENT
          && (i + 1 < |names| ==> ts[pos + 2 * i + 1].kind == COMMA))
    && !Match(ts, next, {COMMA})
  }

  /** A name and a `,` in front of a list extend it. */
  lemma NameListCons(ts: seq<Token>, pos: nat, names: seq<Token>, next: nat)
    requires pos + 1 < |ts| && ts[pos].kind == IDENT && ts[pos + 1].kind == COMMA
    requires NameList(ts, pos + 2, names, next)
    ensures NameList(ts, pos, [ts[pos]] + names, next)
  {
    var all := [ts[pos]] + names;
    forall i | 0 <= i < |all|
      ensures all[i] == ts[pos + 2 * i] && all[i].kind == IDENT
      ensures i + 1 < |all| ==> ts[pos + 2 * i + 1].kind == COMMA
    {
      if i > 0 {
        assert all[i] == names[i - 1];
        assert pos + 2 * i == pos + 2 + 2 * (i - 1);
      }
    }
  }

  /** The tail of a list after its first name and `,` is a list. */
  lemma NameListTail(ts: seq<Token>, pos: nat, names: seq<Token>, next: nat)
    requires NameList(ts, pos, names, next)
    ensures Match(ts, pos, {IDENT}) && ts[pos] == names[0]
    ensures |names| == 1 ==> next == pos + 1 && !Match(ts, pos + 1, {COMMA})
    ensures 1 < |names| ==> Match(ts, pos + 1, {COMMA}) && NameList(ts, pos + 2, names[1..], next)
  {
    assert names[0] == ts[pos + 2 * 0];
    var rest := names[1..];
    forall i | 0 <= i < |rest|
      ensures rest[i] == ts[pos + 2 + 2 * i] && rest[i].kind == IDENT
      ensures i + 1 < |rest| ==> ts[pos + 2 + 2 * i + 1].kind == COMMA
    {
      assert rest[i] == names[i + 1];
      assert pos + 2 * (i + 1) == pos + 2 + 2 * i;
    }
  }

  /** A name and a `,` in front of a list read after `acc` extend it. */
  lemma NameListExtends(ts: seq<Token>, pos: nat, acc: seq<Token>, node: seq<Token>, next: nat)
    requires pos + 1 < |ts| && ts[pos].kind == IDENT && ts[pos + 1].kind == COMMA
    requires |acc| + 1 < |node| && node[..|acc| + 1] == acc + [ts[pos]]
    requires NameList(ts, pos + 2, node[|acc| + 1..], next)
    ensures |acc| < |node| && node[..|acc|] == acc && NameList(ts, pos, node[|acc|..], next)
  {
    assert node[|acc|] == (acc + [ts[pos]])[|acc|];
    assert node[|acc|..] == [ts[pos]] + node[|acc| + 1..];
    assert node[..|acc|] == (acc + [ts[pos]])[..|acc|];
    NameListCons(ts, pos, node[|acc| + 1..], next);
  }

  /** A last name read after `acc`, with no `,` after it, is a list of one. */
  lemma NameListSingle(ts: seq<Token>, pos: nat, acc: seq<Token>)
    requires pos < |ts| && ts[pos].kind == IDENT && !Match(ts, pos + 1, {COMMA})
    ensures NameList(ts, pos, (acc + [ts[pos]])[|acc|..], pos + 1)
  {
    assert (acc + [ts[pos]])[|acc|..] == [ts[pos]];
  }

  /** One turn of the parameter loop. */
  lemma ParametersStep(ts: seq<Token>, pos: nat, acc: seq<Token>)
    requires pos <= |ts| && forall i | 0 <= i < |acc| :: acc[i].kind == IDENT
    ensures Match(ts, pos, {IDENT}) ==>
              Parameters(ts, pos, acc) ==
                if Match(ts, pos + 1, {COMMA}) then Parameters(ts, pos + 2, acc + [ts[pos]])
                else Ok(Parsed(acc + [ts[pos]], pos + 1))
  {
  }

  /** A successful run of the parameter loop read a list of names. */
  lemma {:induction false} ParametersReadNameList(ts: seq<Token>, pos: nat, acc: seq<Token>)
    requires pos <= |ts| && forall i | 0 <= i < |acc| :: acc[i].kind == IDENT
    ensures Parameters(ts, pos, acc).Ok? ==>
              var r := Parameters(ts, pos, acc).value;
              |acc| < |r.node| && r.node[..|acc|] == acc && NameList(ts, pos, r.node[|acc|..], r.next)
    decreases |ts| - pos
  {
    var r := Parameters(ts, pos, acc);
    if r.Ok? {
      var first := ts[pos];
      ParametersStep(ts, pos, acc);
      if Match(ts, pos + 1, {COMMA}) {
        ParametersReadNameList(ts, pos + 2, acc + [first]);
        NameListExtends(ts, pos, acc, r.value.node, r.value.next);
      } else {
        NameListSingle(ts, pos, acc);
      }
    }
  }

  /** The parameter loop reads every list of names, and stops where the list ends. */
  lemma {:induction false} NameListParameters(ts: seq<Token>, pos: nat, names: seq<Token>, next: nat, acc: seq<Token>)
    requires NameList(ts, pos, names, next)
    requires forall i | 0 <= i < |acc| :: acc[i].kind == IDENT
    ensures Parameters(ts, pos, acc) == Ok(Parsed(acc + names, next))
    decreases |names|
  {
    NameListTail(ts, pos, names, next);
    ParametersStep(ts, pos, acc);
    if 1 < |names| {
      NameListParameters(ts, pos + 2, names[1..], next, acc + [names[0]]);
      assert acc + [names[0]] + names[1..] == acc + names;
    } else {
      assert acc + [names[0]] == acc + names;
    }
  }

  /** The parameter loop succeeds with `names` ending before `next` exactly when the tokens
      from `pos` are those names separated by commas, with no comma after the last. */
  lemma ParametersExactly(ts: seq<Token>, pos: nat, names: seq<Token>, next: nat)
    requires pos <= |ts|
    ensures Parameters(ts, pos, []) == Ok(Parsed(names, next)) <==> NameList(ts, pos, names, next)
  {
    if Parameters(ts, pos, []) == Ok(Parsed(names, next)) {
      ParametersReadNameList(ts, pos, []);
      assert names[0..] == names;
    }
    if NameList(ts, pos, names, next) {
      NameListParameters(ts, pos, names, next, []);
      assert [] + names == names;
    }
  }

  /** A parameter list `( … )` succeeds with `params` ending at `next` exactly when it is `()`
      with no parameters, or `(`, a list of those names, and `)`. */
  lemma ParameterListExactly(ts: seq<Token>, pos: nat, params: seq<Token>, next: nat)
    requires pos <= |ts|
    ensures ParameterList(ts, pos) == Ok(Parsed(params, next)) <==> Parenthesised(ts, pos, params, next)
  {
    if ParameterList(ts, pos) == Ok(Parsed(params, next)) {
      ParameterListNames(ts, pos);
    }
    if Parenthesised(ts, pos, params, next) {
      NamesInParentheses(ts, pos, params, next);
    }
  }

  /** `params` between parentheses from `pos` to `next`: `()` with no names, or `(`, a list
      of those names, and `)`. */
  predicate Parenthesised(ts: seq<Token>, pos: nat, params: seq<Token>, next: nat) {
    && Match(ts, pos, {O_PAREN})
    && (|| (params == [] && Match(ts, pos + 1, {C_PAREN}) && next == pos + 2)
        || (0 < next && NameList(ts, pos + 1, params, next - 1) && Match(ts, next - 1, {C_PAREN})))
  }

  /** A parsed parameter list is `Parenthesised`. */
  lemma ParameterListNames(ts: seq<Token>, pos: nat)
    requires pos <= |ts| && ParameterList(ts, pos).Ok?
    ensures var r := ParameterList(ts, pos).value;
            Parenthesised(ts, pos, r.node, r.next)
  {
    var r := ParameterList(ts, pos).value;
    if r.node != [] {
      ParametersExactly(ts, pos + 1, r.node, r.next - 1);
      assert NameList(ts, pos + 1, r.node, r.next - 1);
    } else {
      NoParameters(ts, pos);
    }
  }

  /** A parsed parameter list without names is `()`. */
  lemma NoParameters(ts: seq<Token>, pos: nat)
    requires pos <= |ts| && ParameterList(ts, pos).Ok? && ParameterList(ts, pos).value.node == []
    ensures Match(ts, pos + 1, {C_PAREN}) && ParameterList(ts, pos).value.next == pos + 2
  {
    assert ParameterList(ts, pos) == ParameterNames(ts, pos + 1);
  }

  /** What is `Parenthesised` parses as a parameter list of those names. */
  lemma NamesInParentheses(ts: seq<Token>, pos: nat, params: seq<Token>, next: nat)
    requires pos <= |ts| && Parenthesised(ts, pos, params, next)
    ensures ParameterList(ts, pos) == Ok(Parsed(params, next))
  {
    if params != [] {
      ParametersExactly(ts, pos + 1, params, next - 1);
      assert ts[pos + 1 + 2 * 0] == params[0];
      assert ParameterNames(ts, pos + 1) == Ok(Parsed(params, next));
    }
  }

  /** A parsed function declaration is its name, the parameter list after it, and the block
      after the `{` that follows that list. */
  lemma FuncDeclarationParts(ts: seq<Token>, pos: nat)
    requires pos <= |ts| && FuncDeclaration(ts, pos).Ok?
    ensures var r := FuncDeclaration(ts, pos).value;
            && Match(ts, pos, {IDENT})
            && ParameterList(ts, pos + 1).Ok?
            && ParameterList(ts, pos + 1).value.node == r.node.params
            && var open := ParameterList(ts, pos + 1).value.next;
               open < |ts| && ts[open].kind == O_BRACKET
               && BlockBody(ts, open + 1) == Ok(Parsed(r.node.body, r.next))
  {
  }

  // ---------------------------------------------------------------------------------------
  // Call arguments

  /** `args` are the expressions of a comma-separated list: the `i`-th is the expression that
      parses from `starts[i]`; a `,` follows each but the last, and the next one starts after
      it; no `,` follows the last, which ends at `next`. */
  predicate ArgumentChain(ts: seq<Token>, starts: seq<nat>, args: seq<Expr>, next: nat) {
    0 < |starts| == |args| && forall i | 0 <= i < |starts| :: Link(ts, starts, args, next, i)
  }

  /** The `i`-th link of an argument chain. */
  predicate Link(ts: seq<Token>, starts: seq<nat>, args: seq<Expr>, next: nat, i: nat)
    requires i < |starts| == |args|
  {
    && starts[i] <= |ts|
    && Expression(ts, starts[i]).Ok?
    && Expression(ts, starts[i]).value.node == args[i]
    && var end := Expression(ts, starts[i]).value.next;
       if i + 1 < |starts| then Match(ts, end, {COMMA}) && starts[i + 1] == end + 1
       else end == next && !Match(ts, next, {COMMA})
  }

  /** `args` are the expressions of a chain that starts at `pos` and ends at `next`. */
  ghost predicate ChainFrom(ts: seq<Token>, pos: nat, args: seq<Expr>, next: nat) {
    exists starts :: ArgumentChain(ts, starts, args, next) && starts[0] == pos
  }

  /** An expression and a `,` in front of a chain extend it. */
  lemma ChainCons(ts: seq<Token>, pos: nat, starts: seq<nat>, args: seq<Expr>, next: nat)
    requires pos <= |ts| && Expression(ts, pos).Ok?
    requires Match(ts, Expression(ts, pos).value.next, {COMMA})
    requires ArgumentChain(ts, starts, args, next) && starts[0] == Expression(ts, pos).value.next + 1
    ensures ArgumentChain(ts, [pos] + starts, [Expression(ts, pos).value.node] + args, next)
  {
    var ss := [pos] + starts;
    var es := [Expression(ts, pos).value.node] + args;
    forall i | 0 <= i < |ss|
      ensures Link(ts, ss, es, next, i)
    {
      if 0 < i {
        assert Link(ts, starts, args, next, i - 1);
        assert ss[i] == starts[i - 1] && es[i] == args[i - 1];
        assert i + 1 < |ss| ==> ss[i + 1] == starts[i];
      } else {
        assert ss[1] == starts[0];
      }
    }
  }

  /** The tail of a chain is a chain. */
  lemma ChainTail(ts: seq<Token>, starts: seq<nat>, args: seq<Expr>, next: nat)
    requires ArgumentChain(ts, starts, args, next) && 1 < |starts|
    ensures ArgumentChain(ts, starts[1..], args[1..], next) && starts[1] <= |ts|
  {
    var ss, es := starts[1..], args[1..];
    forall i | 0 <= i < |ss|
      ensures Link(ts, ss, es, next, i)
    {
      assert Link(ts, starts, args, next, i + 1);
      assert ss[i] == starts[i + 1] && es[i] == args[i + 1];
      assert i + 1 < |ss| ==> ss[i + 1] == starts[i + 2];
    }
    assert Link(ts, ss, es, next, 0);
  }

  /** One turn of the argument loop. */
  lemma ArgumentsStep(ts: seq<Token>, pos: nat, acc: seq<Expr>)
    requires pos <= |ts| && forall i | 0 <= i < |acc| :: IsExpression(acc[i])
    ensures Expression(ts, pos).Ok? ==>
              var arg := Expression(ts, pos).value;
              Arguments(ts, pos, acc) ==
                if Match(ts, arg.next, {COMMA}) then Arguments(ts, arg.next + 1, acc + [arg.node])
                else Ok(Parsed(acc + [arg.node], arg.next))
  {
  }

  /** A successful run of the argument loop read a chain of expressions from `pos`. */
  lemma {:induction false} ArgumentsReadChain(ts: seq<Token>, pos: nat, acc: seq<Expr>)
    requires pos <= |ts| && forall i | 0 <= i < |acc| :: IsExpression(acc[i])
    ensures Arguments(ts, pos, acc).Ok? ==>
              var r := Arguments(ts, pos, acc).value;
              |acc| < |r.node| && r.node[..|acc|] == acc && ChainFrom(ts, pos, r.node[|acc|..], r.next)
    decreases |ts| - pos
  {
    var r := Arguments(ts, pos, acc);
    if r.Ok? {
      var arg := Expression(ts, pos).value;
      ArgumentsStep(ts, pos, acc);
      if Match(ts, arg.next, {COMMA}) {
        ArgumentsReadChain(ts, arg.next + 1, acc + [arg.node]);
        ChainExtends(ts, pos, acc, r.value.node, r.value.next);
      } else {
        ChainSingle(ts, pos, acc);
      }
    }
  }

  /** An expression and a `,` in front of a chain read after `acc` extend it. */
  lemma ChainExtends(ts: seq<Token>, pos: nat, acc: seq<Expr>, node: seq<Expr>, next: nat)
    requires pos <= |ts| && Expression(ts, pos).Ok?
    requires Match(ts, Expression(ts, pos).value.next, {COMMA})
    requires |acc| + 1 < |node| && node[..|acc| + 1] == acc + [Expression(ts, pos).value.node]
    requires ChainFrom(ts, Expression(ts, pos).value.next + 1, node[|acc| + 1..], next)
    ensures |acc| < |node| && node[..|acc|] == acc && ChainFrom(ts, pos, node[|acc|..], next)
  {
    var rest := node[|acc| + 1..];
    var starts :| ArgumentChain(ts, starts, rest, next) && starts[0] == Expression(ts, pos).value.next + 1;
    ChainCons(ts, pos, starts, rest, next);
    assert node[|acc|] == (acc + [Expression(ts, pos).value.node])[|acc|];
    assert node[|acc|..] == [Expression(ts, pos).value.node] + rest;
    assert node[..|acc|] == (acc + [Expression(ts, pos).value.node])[..|acc|];
  }

  /** A last expression read after `acc`, with no `,` after it, is a chain of one. */
  lemma ChainSingle(ts: seq<Token>, pos: nat, acc: seq<Expr>)
    requires pos <= |ts| && Expression(ts, pos).Ok?
    requires !Match(ts, Expression(ts, pos).value.next, {COMMA})
    ensures var arg := Expression(ts, pos).value;
            ChainFrom(ts, pos, (acc + [arg.node])[|acc|..], arg.next)
  {
    var arg := Expression(ts, pos).value;
    assert (acc + [arg.node])[|acc|..] == [arg.node];
    assert Link(ts, [pos], [arg.node], arg.next, 0);
    assert ArgumentChain(ts, [pos], [arg.node], arg.next);
  }

  /** The argument loop reads every chain of expressions, and stops where the chain ends. */
  lemma {:induction false} ChainArguments(ts: seq<Token>, starts: seq<nat>, args: seq<Expr>, next: nat, acc: seq<Expr>)
    requires ArgumentChain(ts, starts, args, next) && starts[0] <= |ts|
    requires forall i | 0 <= i < |acc| :: IsExpression(acc[i])
    ensures Arguments(ts, starts[0], acc) == Ok(Parsed(acc + args, next))
    decreases |starts|
  {
    assert Link(ts, starts, args, next, 0);
    ArgumentsStep(ts, starts[0], acc);
    if 1 < |starts| {
      ChainTail(ts, starts, args, next);
      ChainArguments(ts, starts[1..], args[1..], next, acc + [args[0]]);
      assert acc + [args[0]] + args[1..] == acc + args;
    } else {
      assert acc + [args[0]] == acc + args;
    }
  }

  /** The argument loop succeeds with `args` ending at `next` exactly when a chain of those
      expressions runs from `pos` to `next`. */
  lemma ArgumentsExactly(ts: seq<Token>, pos: nat, args: seq<Expr>, next: nat)
    requires pos <= |ts|
    ensures Arguments(ts, pos, []) == Ok(Parsed(args, next)) <==> ChainFrom(ts, pos, args, next)
  {
    if Arguments(ts, pos, []) == Ok(Parsed(args, next)) {
      ArgumentsReadChain(ts, pos, []);
      assert args[0..] == args;
    }
    if ChainFrom(ts, pos, args, next) {
      var starts :| ArgumentChain(ts, starts, args, next) && starts[0] == pos;
      ChainArguments(ts, starts, args, next, []);
      assert [] + args == args;
    }
  }

  /** What may follow a callee's `(`: `()` with no arguments, or a chain of arguments from
      `pos` followed by `)`; either way `paren` is that `)`, the last token read. */
  ghost predicate CallRest(ts: seq<Token>, pos: nat, paren: Token, args: seq<Expr>, next: nat) {
    && 0 < next <= |ts| && ts[next - 1] == paren && paren.kind == C_PAREN
    && (|| (args == [] && next == pos + 1)
        || (&& !Match(ts, pos, {C_PAREN})
            && ChainFrom(ts, pos, args, next - 1)))
  }

  /** The arguments of a call, and the `)` it keeps, are exactly those described by
      `CallRest`. */
  lemma FinishCallExactly(ts: seq<Token>, pos: nat, callee: Expr, paren: Token, args: seq<Expr>, next: nat)
    requires pos <= |ts| && IsCall(callee)
    ensures FinishCall(ts, pos, callee) == Ok(Parsed(Call(callee, paren, ArgList(args)), next)) <==>
              CallRest(ts, pos, paren, args, next)
  {
    if FinishCall(ts, pos, callee) == Ok(Parsed(Call(callee, paren, ArgList(args)), next)) {
      CallReadsRest(ts, pos, callee);
    }
    if CallRest(ts, pos, paren, args, next) {
      RestMakesCall(ts, pos, callee, paren, args, next);
    }
  }

  /** A parsed argument list is described by `CallRest`. */
  lemma CallReadsRest(ts: seq<Token>, pos: nat, callee: Expr)
    requires pos <= |ts| && IsCall(callee) && FinishCall(ts, pos, callee).Ok?
    ensures var r := FinishCall(ts, pos, callee).value;
            r.node.Call? && r.node.arguments.ArgList? && CallRest(ts, pos, r.node.paren, r.node.arguments.items, r.next)
  {
    if !Match(ts, pos, {C_PAREN}) {
      var a := Arguments(ts, pos, []).value;
      ArgumentsExactly(ts, pos, a.node, a.next);
    }
  }

  /** Whatever `CallRest` describes parses as that call. */
  lemma RestMakesCall(ts: seq<Token>, pos: nat, callee: Expr, paren: Token, args: seq<Expr>, next: nat)
    requires pos <= |ts| && IsCall(callee) && CallRest(ts, pos, paren, args, next)
    ensures FinishCall(ts, pos, callee) == Ok(Parsed(Call(callee, paren, ArgList(args)), next))
  {
    if !(args == [] && next == pos + 1) {
      var starts :| ArgumentChain(ts, starts, args, next - 1) && starts[0] == pos;
      ChainThenParen(ts, callee, starts, args, next);
    }
  }

  /** A chain of arguments followed by `)` parses as a call with those arguments. */
  lemma ChainThenParen(ts: seq<Token>, callee: Expr, starts: seq<nat>, args: seq<Expr>, next: nat)
    requires IsCall(callee) && 0 < next <= |ts| && Match(ts, next - 1, {C_PAREN})
    requires ArgumentChain(ts, starts, args, next - 1) && !Match(ts, starts[0], {C_PAREN})
    ensures starts[0] <= |ts|
    ensures FinishCall(ts, starts[0], callee) == Ok(Parsed(Call(callee, ts[next - 1], ArgList(args)), next))
  {
    assert Link(ts, starts, args, next - 1, 0);
    ChainArguments(ts, starts, args, next - 1, []);
    assert [] + args == args;
  }
}
