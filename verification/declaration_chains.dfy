/** What `parse` and the loop of a block compute, stated without their loops: a program is a
    chain of declarations, each parsed where the previous one ended, from the first token to
    the last; a block body is such a chain that stops on a `}`. */
module DeclarationChains {
  import opened Wrappers
  import opened Tokens
  import opened Grammar
  import opened Parser
  import opened ParserProperties

  /** `ss` are consecutive declarations and `ps` the cursors between them: declaration `i`
      parses from `ps[i]`, a position before the end, to `ps[i + 1]`. */
  ghost predicate Chain(ts: seq<Token>, ps: seq<nat>, ss: seq<Stmt>) {
    && |ps| == |ss| + 1
    && ps[|ss|] <= |ts|
    && forall i | 0 <= i < |ss| :: ps[i] < |ts| && Declaration(ts, ps[i]) == Ok(Parsed(ss[i], ps[i + 1]))
  }

  /** A chain inside a block: none of its declarations starts at a `}`. */
  ghost predicate BlockChain(ts: seq<Token>, ps: seq<nat>, ss: seq<Stmt>) {
    && Chain(ts, ps, ss)
    && forall i | 0 <= i < |ss| :: ts[ps[i]].kind != C_BRACKET
  }

  /** Where a block chain ends when the block fails with `e`: at the end of the tokens, where
      the loop's `check` fails with `ReadPastEnd`, or at a declaration that is not a `}` and
      fails with `e`. */
  ghost predicate BlockStops(ts: seq<Token>, ps: seq<nat>, ss: seq<Stmt>, e: ParseError)
    requires |ps| == |ss| + 1 && ps[|ss|] <= |ts|
  {
    || (ps[|ss|] == |ts| && e == ReadPastEnd)
    || (ps[|ss|] < |ts| && ts[ps[|ss|]].kind != C_BRACKET && Declaration(ts, ps[|ss|]) == Err(e))
  }

  /** A chain without its first declaration is a chain. */
  lemma ChainTail(ts: seq<Token>, ps: seq<nat>, ss: seq<Stmt>)
    requires Chain(ts, ps, ss) && |ss| > 0
    ensures Chain(ts, ps[1..], ss[1..])
    ensures Declaration(ts, ps[0]) == Ok(Parsed(ss[0], ps[1]))
    ensures BlockChain(ts, ps, ss) ==> BlockChain(ts, ps[1..], ss[1..]) && ts[ps[0]].kind != C_BRACKET
  {
    assert Declaration(ts, ps[0]) == Ok(Parsed(ss[0], ps[1]));
    forall i | 0 <= i < |ss| - 1
      ensures ps[1..][i] < |ts| && Declaration(ts, ps[1..][i]) == Ok(Parsed(ss[1..][i], ps[1..][i + 1]))
    {
      assert ps[1..][i] == ps[i + 1] && ps[1..][i + 1] == ps[i + 2] && ss[1..][i] == ss[i + 1];
    }
  }

  /** A declaration parsed at `pos` in front of a chain from where it ends is a chain. */
  lemma ChainCons(ts: seq<Token>, pos: nat, s: Stmt, ps: seq<nat>, ss: seq<Stmt>)
    requires pos < |ts| && Chain(ts, ps, ss) && Declaration(ts, pos) == Ok(Parsed(s, ps[0]))
    ensures Chain(ts, [pos] + ps, [s] + ss)
    ensures BlockChain(ts, ps, ss) && ts[pos].kind != C_BRACKET ==> BlockChain(ts, [pos] + ps, [s] + ss)
  {
    var ps', ss' := [pos] + ps, [s] + ss;
    forall i | 0 <= i < |ss'|
      ensures ps'[i] < |ts| && Declaration(ts, ps'[i]) == Ok(Parsed(ss'[i], ps'[i + 1]))
    {
      if i > 0 {
        assert ps'[i] == ps[i - 1] && ps'[i + 1] == ps[i] && ss'[i] == ss[i - 1];
      }
    }
    if BlockChain(ts, ps, ss) && ts[pos].kind != C_BRACKET {
      forall i | 0 <= i < |ss'|
        ensures ts[ps'[i]].kind != C_BRACKET
      {
        if i > 0 {
          assert ps'[i] == ps[i - 1];
        }
      }
    }
  }

  // ---------------------------------------------------------------------------------------
  // The program

  /** Along a chain that reaches the end of the tokens, the loop of `parse` collects exactly
      the chain's declarations. */
  lemma {:induction false} ChainParses(ts: seq<Token>, ps: seq<nat>, ss: seq<Stmt>, acc: seq<Stmt>)
    requires Chain(ts, ps, ss) && ps[|ss|] == |ts|
    ensures Program(ts, ps[0], acc) == Ok(acc + ss)
    decreases |ss|
  {
    if |ss| == 0 {
      assert acc + ss == acc;
    } else {
      ChainTail(ts, ps, ss);
      ProgramStep(ts, ps[0], acc);
      ChainParses(ts, ps[1..], ss[1..], acc + [ss[0]]);
      assert acc + [ss[0]] + ss[1..] == acc + ss;
    }
  }

  /** A chain that stops before the end at a failing declaration makes the loop of `parse`
      fail with that declaration's error. */
  lemma {:induction false} ChainFails(ts: seq<Token>, ps: seq<nat>, ss: seq<Stmt>, acc: seq<Stmt>, e: ParseError)
    requires Chain(ts, ps, ss) && ps[|ss|] < |ts| && Declaration(ts, ps[|ss|]) == Err(e)
    ensures Program(ts, ps[0], acc) == Err(e)
    decreases |ss|
  {
    ProgramStep(ts, ps[0], acc);
    if |ss| > 0 {
      ChainTail(ts, ps, ss);
      ChainFails(ts, ps[1..], ss[1..], acc + [ss[0]], e);
    }
  }

  /** A successful loop of `parse` follows a chain to the end of the tokens. */
  lemma {:induction false} ParsedChain(ts: seq<Token>, pos: nat, acc: seq<Stmt>) returns (ps: seq<nat>, ss: seq<Stmt>)
    requires pos <= |ts| && Program(ts, pos, acc).Ok?
    ensures Chain(ts, ps, ss) && ps[0] == pos && ps[|ss|] == |ts|
    ensures Program(ts, pos, acc) == Ok(acc + ss)
    decreases |ts| - pos
  {
    if pos == |ts| {
      ps, ss := [pos], [];
      assert acc + ss == acc;
    } else {
      ProgramStep(ts, pos, acc);
      var d := Declaration(ts, pos).value;
      var ps', ss' := ParsedChain(ts, d.next, acc + [d.node]);
      ChainCons(ts, pos, d.node, ps', ss');
      ps, ss := [pos] + ps', [d.node] + ss';
      assert acc + [d.node] + ss' == acc + ss;
    }
  }

  /** A failing loop of `parse` follows a chain to a declaration that fails with its error. */
  lemma {:induction false} FailedChain(ts: seq<Token>, pos: nat, acc: seq<Stmt>) returns (ps: seq<nat>, ss: seq<Stmt>)
    requires pos <= |ts| && Program(ts, pos, acc).Err?
    ensures Chain(ts, ps, ss) && ps[0] == pos && ps[|ss|] < |ts|
    ensures Declaration(ts, ps[|ss|]) == Err(Program(ts, pos, acc).error)
    decreases |ts| - pos
  {
    ProgramStep(ts, pos, acc);
    if Declaration(ts, pos).Err? {
      ps, ss := [pos], [];
    } else {
      var d := Declaration(ts, pos).value;
      var ps', ss' := FailedChain(ts, d.next, acc + [d.node]);
      ChainCons(ts, pos, d.node, ps', ss');
      ps, ss := [pos] + ps', [d.node] + ss';
    }
  }

  /** `parse` succeeds with `ss` exactly when `ss` is a chain of declarations from the first
      token to the end. */
  lemma ParseSucceeds(ts: seq<Token>, ss: seq<Stmt>)
    ensures Parse(ts) == Ok(ss) <==> exists ps :: Chain(ts, ps, ss) && ps[0] == 0 && ps[|ss|] == |ts|
  {
    if Parse(ts) == Ok(ss) {
      var ps, ss' := ParsedChain(ts, 0, []);
      assert [] + ss' == ss';
    }
    if ps :| Chain(ts, ps, ss) && ps[0] == 0 && ps[|ss|] == |ts| {
      ChainParses(ts, ps, ss, []);
      assert [] + ss == ss;
    }
  }

  /** `parse` fails with `e` exactly when a chain of declarations from the first token stops
      before the end at a declaration that fails with `e`. */
  lemma ParseFails(ts: seq<Token>, e: ParseError)
    ensures Parse(ts) == Err(e) <==>
            exists ps, ss :: Chain(ts, ps, ss) && ps[0] == 0 && ps[|ss|] < |ts| && Declaration(ts, ps[|ss|]) == Err(e)
  {
    if Parse(ts) == Err(e) {
      var ps, ss := FailedChain(ts, 0, []);
    }
    if ps, ss :| Chain(ts, ps, ss) && ps[0] == 0 && ps[|ss|] < |ts| && Declaration(ts, ps[|ss|]) == Err(e) {
      ChainFails(ts, ps, ss, [], e);
    }
  }

  // ---------------------------------------------------------------------------------------
  // Blocks

  /** Along a block chain that reaches a `}`, the loop of a block collects exactly the
      chain's declarations and stops on the `}`. */
  lemma {:induction false} BlockChainParses(ts: seq<Token>, ps: seq<nat>, ss: seq<Stmt>, acc: seq<Stmt>)
    requires BlockChain(ts, ps, ss) && ps[|ss|] < |ts| && ts[ps[|ss|]].kind == C_BRACKET
    ensures Declarations(ts, ps[0], acc) == Ok(Parsed(acc + ss, ps[|ss|]))
    decreases |ss|
  {
    if |ss| == 0 {
      assert acc + ss == acc;
    } else {
      ChainTail(ts, ps, ss);
      DeclarationsStep(ts, ps[0], acc);
      BlockChainParses(ts, ps[1..], ss[1..], acc + [ss[0]]);
      assert acc + [ss[0]] + ss[1..] == acc + ss;
    }
  }

  /** A successful loop of a block follows a block chain to a `}`. */
  lemma {:induction false} BlockParsedChain(ts: seq<Token>, pos: nat, acc: seq<Stmt>) returns (ps: seq<nat>, ss: seq<Stmt>)
    requires pos <= |ts| && Declarations(ts, pos, acc).Ok?
    ensures BlockChain(ts, ps, ss) && ps[0] == pos && ps[|ss|] < |ts| && ts[ps[|ss|]].kind == C_BRACKET
    ensures Declarations(ts, pos, acc) == Ok(Parsed(acc + ss, ps[|ss|]))
    decreases |ts| - pos
  {
    if ts[pos].kind == C_BRACKET {
      ps, ss := [pos], [];
      assert acc + ss == acc;
    } else {
      DeclarationsStep(ts, pos, acc);
      var d := Declaration(ts, pos).value;
      var ps', ss' := BlockParsedChain(ts, d.next, acc + [d.node]);
      ChainCons(ts, pos, d.node, ps', ss');
      ps, ss := [pos] + ps', [d.node] + ss';
      assert acc + [d.node] + ss' == acc + ss;
    }
  }

  /** A block body starting at `pos` parses to `ss`, ending after the `}` at `q`, exactly
      when `ss` is a block chain from `pos` to that `}`. */
  lemma BlockBodySucceeds(ts: seq<Token>, pos: nat, ss: seq<Stmt>, q: nat)
    requires pos <= |ts|
    ensures BlockBody(ts, pos) == Ok(Parsed(ss, q + 1)) <==>
            exists ps :: BlockChain(ts, ps, ss) && ps[0] == pos && ps[|ss|] == q && q < |ts| && ts[q].kind == C_BRACKET
  {
    if BlockBody(ts, pos) == Ok(Parsed(ss, q + 1)) {
      var ps, ss' := BlockParsedChain(ts, pos, []);
      assert [] + ss' == ss';
    }
    if ps :| BlockChain(ts, ps, ss) && ps[0] == pos && ps[|ss|] == q && q < |ts| && ts[q].kind == C_BRACKET {
      BlockChainParses(ts, ps, ss, []);
      assert [] + ss == ss;
    }
  }

  /** A block chain that stops at the end of the tokens, or at a failing declaration that is
      not a `}`, makes the loop of a block fail: with `ReadPastEnd` in the first case and the
      declaration's error in the second. */
  lemma {:induction false} BlockChainFails(ts: seq<Token>, ps: seq<nat>, ss: seq<Stmt>, acc: seq<Stmt>, e: ParseError)
    requires BlockChain(ts, ps, ss) && BlockStops(ts, ps, ss, e)
    ensures Declarations(ts, ps[0], acc) == Err(e)
    decreases |ss|
  {
    if |ss| == 0 {
      if ps[0] < |ts| {
        DeclarationsStep(ts, ps[0], acc);
      }
    } else {
      ChainTail(ts, ps, ss);
      DeclarationsStep(ts, ps[0], acc);
      BlockChainFails(ts, ps[1..], ss[1..], acc + [ss[0]], e);
    }
  }

  /** A failing loop of a block follows a block chain either to the end of the tokens, where
      the error is `ReadPastEnd`, or to a failing declaration that is not a `}`. */
  lemma {:induction false} BlockFailedChain(ts: seq<Token>, pos: nat, acc: seq<Stmt>) returns (ps: seq<nat>, ss: seq<Stmt>)
    requires pos <= |ts| && Declarations(ts, pos, acc).Err?
    ensures BlockChain(ts, ps, ss) && ps[0] == pos
    ensures BlockStops(ts, ps, ss, Declarations(ts, pos, acc).error)
    decreases |ts| - pos
  {
    if pos == |ts| || Declaration(ts, pos).Err? {
      ps, ss := [pos], [];
      if pos < |ts| {
        DeclarationsStep(ts, pos, acc);
      }
    } else {
      DeclarationsStep(ts, pos, acc);
      var d := Declaration(ts, pos).value;
      var ps', ss' := BlockFailedChain(ts, d.next, acc + [d.node]);
      ChainCons(ts, pos, d.node, ps', ss');
      ps, ss := [pos] + ps', [d.node] + ss';
    }
  }

  /** A block body fails with `e` exactly when a block chain from `pos` stops at the end of
      the tokens (and `e` is `ReadPastEnd`) or at a failing declaration that is not a `}`. */
  lemma BlockBodyFails(ts: seq<Token>, pos: nat, e: ParseError)
    requires pos <= |ts|
    ensures BlockBody(ts, pos) == Err(e) <==>
            exists ps, ss :: BlockChain(ts, ps, ss) && ps[0] == pos && BlockStops(ts, ps, ss, e)
  {
    if BlockBody(ts, pos) == Err(e) {
      var ps, ss := BlockFailedChain(ts, pos, []);
    }
    if ps, ss :| BlockChain(ts, ps, ss) && ps[0] == pos && BlockStops(ts, ps, ss, e) {
      BlockChainFails(ts, ps, ss, [], e);
    }
  }
}
