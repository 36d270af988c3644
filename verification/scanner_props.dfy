/** Properties of the scanner: what each branch of `tokenize` emits, which kinds and literals
    can appear in a scan, when the scan terminates, and the effect of the unknown-symbol branch. */
module ScannerProperties {
  import opened Wrappers
  import opened Tokens
  import opened Scanner

  /** The kinds no branch of the scanner produces: there is no case for `;`, `,` or `!`, and
      `return` is no keyword. */
  predicate NeverScanned(k: TokenType) {
    k in {SEMICOLON, COMMA, NOT_EQUALS, RETURN}
  }

  /** A token the scanner can have produced from `src`: its kind is scannable and its literal,
      when present, is a contiguous piece of the source. */
  ghost predicate Faithful(src: string, tok: Token) {
    && !NeverScanned(tok.kind)
    && (tok.literal.Some? ==> IsSliceOf(tok.literal.value, src))
  }

  /** The head and tail cursors agree, as they do after every branch except the unknown symbol. */
  predicate Aligned(st: State) {
    st.head == st.tail
  }

  /** The tokens one step added. */
  function Added(st: State, r: Step): seq<Token>
    requires r.Next? && st.tokens <= r.state.tokens
  {
    r.state.tokens[|st.tokens|..]
  }

  lemma AddedOne(st: State, s: State, tok: Token)
    requires s.tokens == st.tokens + [tok]
    ensures st.tokens <= s.tokens && Added(st, Next(s)) == [tok]
  {
    assert s.tokens[|st.tokens|..] == [tok];
  }

  /** The tokens a step added are all faithful to the source. */
  ghost predicate AddsFaithful(src: string, st: State, r: Step) {
    r.Next? ==>
      && st.tokens <= r.state.tokens
      && forall i | |st.tokens| <= i < |r.state.tokens| :: Faithful(src, r.state.tokens[i])
  }

  lemma PushFaithful(src: string, st: State, kind: TokenType, literal: Option<string>)
    requires !NeverScanned(kind) && (literal.Some? ==> IsSliceOf(literal.value, src))
    ensures var s := Push(st, kind, literal);
            st.tokens <= s.tokens && forall i | |st.tokens| <= i < |s.tokens| :: Faithful(src, s.tokens[i])
  {
  }

  lemma WordFaithful(src: string, st: State)
    requires st.tail < |src|
    ensures AddsFaithful(src, st, WordStep(src, st))
  {
    var e := IdentEnd(src, st.tail + 1);
    if e.Some? {
      var lexeme := Slice(src, st.head, e.value);
      var k := Keyword(lexeme);
      if k.Some? {
        PushFaithful(src, st.(tail := e.value), k.value, None);
      } else {
        PushFaithful(src, st.(tail := e.value), IDENT, Some(lexeme));
      }
    }
  }

  lemma SlashFaithful(src: string, st: State)
    requires st.tail < |src|
    ensures AddsFaithful(src, st, SlashStep(src, st))
  {
  }

  lemma StringFaithful(src: string, st: State, q: char)
    requires st.tail < |src|
    ensures AddsFaithful(src, st, StringStep(src, st, q))
  {
  }

  lemma NumberFaithful(src: string, st: State)
    requires NotAtEnd(src, st)
    ensures AddsFaithful(src, st, NumberStep(src, st))
  {
  }

  /** `tokenize` hands each character class to its own branch. */
  lemma TokenizeDispatch(src: string, st: State)
    requires NotAtEnd(src, st)
    ensures var c := src[st.head];
            && (Classify(c).Operator? ==> Tokenize(src, st) == Next(OperatorStep(src, st, Classify(c).one, Classify(c).two)))
            && (Classify(c).Slash? ==> Tokenize(src, st) == SlashStep(src, st))
            && (Classify(c).Quote? ==> Tokenize(src, st) == StringStep(src, st, c))
            && (Classify(c).Digit? ==> Tokenize(src, st) == NumberStep(src, st))
            && (Classify(c).WordStart? ==> Tokenize(src, st) == WordStep(src, st))
  {
  }

  lemma TokenizeFaithful(src: string, st: State)
    requires NotAtEnd(src, st)
    ensures AddsFaithful(src, st, Tokenize(src, st))
  {
    TokenizeDispatch(src, st);
    match Classify(src[st.head])
    case Slash => SlashFaithful(src, st);
    case Quote => StringFaithful(src, st, src[st.head]);
    case Digit => NumberFaithful(src, st);
    case WordStart => WordFaithful(src, st);
    case Operator(one, two) => OperatorFaithful(src, st, one, two);
    case Single(kind) => PushFaithful(src, st, kind, None);
    case LineBreak =>
    case Blank =>
    case Unknown =>
  }

  lemma OperatorFaithful(src: string, st: State, one: TokenType, two: TokenType)
    requires !NeverScanned(one) && !NeverScanned(two)
    ensures AddsFaithful(src, st, Next(OperatorStep(src, st, one, two)))
  {
    var s := st.(tail := st.tail + 1);
    if At(src, st.tail + 1) == Some('=') {
      PushFaithful(src, s, two, None);
      assert OperatorStep(src, st, one, two).tokens == Push(s, two, None).tokens;
    } else {
      PushFaithful(src, s, one, None);
      assert OperatorStep(src, st, one, two).tokens == Push(s, one, None).tokens;
    }
  }

  /** Lexeme fidelity and the missing kinds: every token of a completed scan has a scannable
      kind, and its literal is a contiguous piece of the source. */
  lemma {:induction false} RunFaithful(src: string, st: State)
    requires Wf(src, st)
    requires forall i | 0 <= i < |st.tokens| :: Faithful(src, st.tokens[i])
    ensures var r := Run(src, st);
            r.Scanned? ==> forall i | 0 <= i < |r.tokens| :: Faithful(src, r.tokens[i])
    decreases |src| - st.tail, |src| - st.head
  {
    if NotAtEnd(src, st) {
      var r := Tokenize(src, st);
      TokenizeFaithful(src, st);
      if r.Next? {
        RunFaithful(src, r.state);
      }
    }
  }

  lemma ScanFaithful(src: string)
    ensures var r := Scan(src);
            r.Scanned? ==> forall i | 0 <= i < |r.tokens| :: Faithful(src, r.tokens[i])
  {
    RunFaithful(src, Initial);
  }

  /** Maximal munch: `+ - * = < >` followed by `=` give the two-character kind and consume both
      characters; otherwise the one-character kind, consuming one. */
  lemma OperatorMunch(src: string, st: State)
    requires Wf(src, st) && NotAtEnd(src, st) && Aligned(st) && Classify(src[st.head]).Operator?
    ensures var Operator(one, two) := Classify(src[st.head]);
            var r := Next(OperatorStep(src, st, one, two));
            var paired := At(src, st.head + 1) == Some('=');
            && r.Next?
            && |Added(st, r)| == 1
            && Added(st, r)[0].kind == (if paired then two else one)
            && Added(st, r)[0].literal.None?
            && r.state.head == st.head + (if paired then 2 else 1)
            && Aligned(r.state)
  {
  }

  /** `/`: a second `/` starts a comment; then `/=` is taken before `/`. */
  lemma SlashMunch(src: string, st: State)
    requires Wf(src, st) && NotAtEnd(src, st) && Aligned(st) && src[st.head] == '/'
    requires At(src, st.head + 1) != Some('/')
    ensures var r := SlashStep(src, st);
            var paired := At(src, st.head + 1) == Some('=');
            && r.Next?
            && |Added(st, r)| == 1
            && Added(st, r)[0].kind == (if paired then SLASH_EQUALS else SLASH)
            && r.state.head == st.head + (if paired then 2 else 1)
  {
  }

  /** Blanks, line breaks and unknown symbols emit nothing; scanning goes on. A line break
      raises the line counter by one; an unknown symbol moves `head` only. */
  lemma SilentCharacters(src: string, st: State)
    requires NotAtEnd(src, st)
    requires Classify(src[st.head]) in {Blank, LineBreak, Unknown}
    ensures var r := Tokenize(src, st);
            && r.Next?
            && r.state.tokens == st.tokens
            && (src[st.head] == '\n' ==> r.state.line == st.line + 1)
            && (Classify(src[st.head]).Unknown? ==> r.state.head == st.head + 1 && r.state.tail == st.tail)
  {
  }

  /** The token of a closed string: the literal runs from the opening quote through the
      closing one, and the rows span the line breaks in between. */
  ghost predicate ClosedString(src: string, st: State, q: char, r: Step)
    requires r.Next?
  {
    var end := r.state.head;
    && st.head + 2 <= end <= |src|
    && src[end - 1] == q
    && (forall i | st.head < i < end - 1 :: src[i] != q)
    && st.tokens <= r.state.tokens
    && |Added(st, r)| == 1
    && Added(st, r)[0].kind == STRING
    && Added(st, r)[0].literal == Some(src[st.head..end])
    && Added(st, r)[0].row == (st.line, st.line + Newlines(src[st.head + 1..end - 1]))
    && r.state.line == Added(st, r)[0].row.1
  }

  lemma StringClosed(src: string, st: State, q: char)
    requires Wf(src, st) && NotAtEnd(src, st) && Aligned(st) && src[st.head] == q
    requires StringStep(src, st, q).Next?
    ensures ClosedString(src, st, q, StringStep(src, st, q))
  {
    var cs := ChompString(src, q, st.tail + 1, st.lineEnd, st.colStart);
    StringStepAfter(src, st, q);
    ClosedFacts(src, st, q, cs);
    AfterStringToken(src, st, q, cs.close, cs.lineEnd, cs.colStart);
  }

  lemma StringStepAfter(src: string, st: State, q: char)
    requires st.tail < |src| && StringStep(src, st, q).Next?
    ensures var cs := ChompString(src, q, st.tail + 1, st.lineEnd, st.colStart);
            && cs.Closed?
            && StringStep(src, st, q) == Next(AfterString(src, st, cs.close, cs.lineEnd, cs.colStart))
  {
    match ChompString(src, q, st.tail + 1, st.lineEnd, st.colStart)
    case Unclosed =>
    case Closed(close, lineEnd, colStart) =>
      assert StringStep(src, st, q) == Next(AfterString(src, st, close, lineEnd, colStart));
  }

  /** The state `tokenize` reaches after a string whose closing quote is at `close`. */
  function AfterString(src: string, st: State, close: nat, lineEnd: int, colStart: int): State {
    var s := st.(tail := close + 1, lineEnd := lineEnd, colStart := colStart);
    Push(s, STRING, Some(Slice(src, st.head, close + 1))).(head := close + 1, line := lineEnd)
  }

  lemma AfterStringToken(src: string, st: State, q: char, close: nat, lineEnd: int, colStart: int)
    requires Wf(src, st) && Aligned(st)
    requires st.head + 2 <= close + 1 <= |src| && src[close] == q
    requires forall i | st.head < i < close :: src[i] != q
    requires lineEnd == st.line + Newlines(src[st.head + 1..close])
    ensures ClosedString(src, st, q, Next(AfterString(src, st, close, lineEnd, colStart)))
  {
    var lit := Slice(src, st.head, close + 1);
    assert lit == src[st.head..close + 1];
    var tok := Token(STRING, Some(lit), (st.line, lineEnd), (st.head - colStart, close + 1 - colStart));
    AddedOne(st, AfterString(src, st, close, lineEnd, colStart), tok);
  }

  /** What `chompString` promises, restated at the string's opening quote. */
  lemma ClosedFacts(src: string, st: State, q: char, cs: StringScan)
    requires Wf(src, st) && NotAtEnd(src, st) && Aligned(st)
    requires cs == ChompString(src, q, st.tail + 1, st.lineEnd, st.colStart) && cs.Closed?
    ensures st.head + 2 <= cs.close + 1 <= |src| && src[cs.close] == q
    ensures forall i | st.head < i < cs.close :: src[i] != q
    ensures cs.lineEnd == st.line + Newlines(src[st.head + 1..cs.close])
  {
  }

  /** A quoted string ends at the next identical quote, with no escapes; its literal is the
      exact source slice including both quotes, and its rows span the line breaks inside it.
      Reaching the end of input first is the unclosed-string error. */
  lemma StringLiteral(src: string, st: State, q: char)
    requires Wf(src, st) && NotAtEnd(src, st) && Aligned(st) && src[st.head] == q
    ensures var r := StringStep(src, st, q);
            && (r.Fail? <==> forall i | st.head < i < |src| :: src[i] != q)
            && (r.Fail? ==> r.error == UnclosedString)
            && !r.Diverges?
            && (r.Next? ==>
                  var end := r.state.head;
                  && src[end - 1] == q
                  && (forall i | st.head < i < end - 1 :: src[i] != q)
                  && |Added(st, r)| == 1
                  && Added(st, r)[0].kind == STRING
                  && Added(st, r)[0].literal == Some(src[st.head..end])
                  && Added(st, r)[0].row == (st.line, st.line + Newlines(src[st.head + 1..end - 1]))
                  && r.state.line == Added(st, r)[0].row.1)
  {
    if StringStep(src, st, q).Next? {
      StringClosed(src, st, q);
    }
  }

  /** A number is a digit run with at most one point; its literal is the exact source slice.
      A leading `0` not followed by a point, or a second point, is an error. */
  lemma NumberLiteral(src: string, st: State)
    requires Wf(src, st) && NotAtEnd(src, st) && Aligned(st) && IsDigit(src[st.head])
    ensures var r := NumberStep(src, st);
            var end := RunEnd(src, st.head);
            && !r.Diverges?
            && (r.Fail? <==>
                  (src[st.head] == '0' && At(src, st.head + 1) != Some('.')) || Dots(src[st.head..end]) >= 2)
            && (r.Fail? ==> r.error == InvalidNumber)
            && (r.Next? ==>
                  && r.state.head == end
                  && |Added(st, r)| == 1
                  && Added(st, r)[0].kind == NUMBER
                  && Added(st, r)[0].literal == Some(src[st.head..end]))
  {
    var end := RunEnd(src, st.head);
    assert src[st.head..end] == [src[st.head]] + src[st.head + 1..end];
  }

  /** An identifier starts with a letter or `_` and runs on over letters and digits only. A
      keyword lexeme gives the keyword kind with no literal, any other lexeme IDENT with the
      lexeme as literal. A run reaching the end of input never stops. */
  lemma WordLiteral(src: string, st: State)
    requires Wf(src, st) && NotAtEnd(src, st) && Aligned(st)
    requires src[st.head] == '_' || IsAlpha(src[st.head])
    ensures var r := WordStep(src, st);
            && !r.Fail?
            && (r.Diverges? <==> forall i | st.head < i < |src| :: IsAlphaNumeric(src[i]))
            && (r.Next? ==>
                  var end := r.state.head;
                  var lexeme := src[st.head..end];
                  && st.head < end < |src|
                  && !IsAlphaNumeric(src[end])
                  && (forall i | st.head < i < end :: IsAlphaNumeric(src[i]))
                  && |Added(st, r)| == 1
                  && (Keyword(lexeme).Some? ==>
                        Added(st, r)[0].kind == Keyword(lexeme).value && Added(st, r)[0].literal.None?)
                  && (Keyword(lexeme).None? ==>
                        Added(st, r)[0].kind == IDENT && Added(st, r)[0].literal == Some(lexeme)))
  {
  }

  /** `//` emits one SLASH_SLASH token whose literal runs up to the next line break; that line
      break is consumed without raising the line counter. With no line break ahead the
      comment loop never stops. */
  lemma CommentLiteral(src: string, st: State)
    requires Wf(src, st) && NotAtEnd(src, st) && Aligned(st)
    requires src[st.head] == '/' && At(src, st.head + 1) == Some('/')
    ensures var r := SlashStep(src, st);
            && !r.Fail?
            && (r.Diverges? <==> forall i | st.head + 2 <= i < |src| :: src[i] != '\n')
            && (r.Next? ==>
                  var brk := r.state.head - 1;
                  && st.head + 2 <= brk < |src|
                  && src[brk] == '\n'
                  && (forall i | st.head + 2 <= i < brk :: src[i] != '\n')
                  && |Added(st, r)| == 1
                  && Added(st, r)[0].kind == SLASH_SLASH
                  && Added(st, r)[0].literal == Some(src[st.head..brk])
                  && r.state.line == st.line)
  {
  }

  /** Every token's row is [line at its start, line at its end]. */
  lemma TokenRows(src: string, st: State)
    requires Wf(src, st) && NotAtEnd(src, st)
    ensures var r := Tokenize(src, st);
            r.Next? ==> forall i | |st.tokens| <= i < |r.state.tokens| ::
                          r.state.tokens[i].row == (st.line, r.state.line)
  {
  }

  /** Without the final line break, an identifier at the end of input is scanned forever. */
  lemma IdentifierAtEndLoops()
    ensures Scan("a").Loops?
  {
    assert IdentEnd("a", 1) == None;
    assert Tokenize("a", Initial) == Diverges;
  }

  /** The states of the scan of `;+`: after `;`, after the first `+`, after the second. */
  const RereadPlus1: Token := Token(PLUS, None, (1, 1), (1, 1))
  const RereadPlus2: Token := Token(PLUS, None, (1, 1), (1, 2))
  const Reread1: State := State(1, 0, 0, 1, 1, [])
  const Reread2: State := State(1, 1, 0, 1, 1, [RereadPlus1])
  const Reread3: State := State(2, 2, 0, 1, 1, [RereadPlus1, RereadPlus2])

  lemma RereadSteps()
    ensures Tokenize(";+", Initial) == Next(Reread1)
    ensures Tokenize(";+", Reread1) == Next(Reread2)
    ensures Tokenize(";+", Reread2) == Next(Reread3)
  {
    RereadFirst();
    RereadSecond();
    RereadThird();
  }

  lemma RereadFirst()
    ensures Tokenize(";+", Initial) == Next(Reread1)
  {
    assert Classify(";+"[0]) == Unknown;
  }

  lemma RereadSecond()
    ensures Tokenize(";+", Reread1) == Next(Reread2)
  {
    assert Classify(";+"[1]) == Operator(PLUS, PLUS_EQUALS);
    assert At(";+", 1) == Some('+');
    assert Tokenize(";+", Reread1) == Next(OperatorStep(";+", Reread1, PLUS, PLUS_EQUALS));
  }

  lemma RereadThird()
    ensures Tokenize(";+", Reread2) == Next(Reread3)
  {
    assert Classify(";+"[1]) == Operator(PLUS, PLUS_EQUALS);
    assert At(";+", 2) == None;
    assert Tokenize(";+", Reread2) == Next(OperatorStep(";+", Reread2, PLUS, PLUS_EQUALS));
  }

  /** The unknown-symbol branch leaves `tail` behind: after `;` the `+` is read twice, once
      through `head` and once through `tail`, so `;+` scans as two PLUS tokens. */
  lemma UnknownSymbolRereads()
    ensures Scan(";+") == Scanned([RereadPlus1, RereadPlus2])
  {
    RereadSteps();
    assert Run(";+", Reread3) == Scanned(Reread3.tokens);
    assert Run(";+", Reread2) == Run(";+", Reread3);
    assert Run(";+", Reread1) == Run(";+", Reread2);
  }
}
