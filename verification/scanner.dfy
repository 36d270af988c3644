/** The scanner of src/scanner.ts: a character string becomes a token sequence.

    The scanner keeps two cursors into the source, `head` (start of the current lexeme) and
    `tail` (the last character read). They are independent here exactly as in the source: the
    unknown-symbol branch moves `head` and leaves `tail` behind, and every later read goes
    through `tail`. Reading past the end of the source yields JavaScript's `undefined`, which
    is `None` here. */
module Scanner {
  import opened Wrappers
  import opened Tokens

  /** `source[i]`: the character at `i`, or `None` past the end. */
  function At(src: string, i: int): Option<char> {
    if 0 <= i < |src| then Some(src[i]) else None
  }

  /** `isNumber`: `/\d/` without the Unicode flag matches the ten ASCII digits only. */
  predicate IsDigit(c: char): (r: bool)
    ensures r <==> 0 <= c as int - '0' as int < 10
  {
    '0' <= c <= '9'
  }

  /** `isAlpha`: the ASCII letters, which are neither digits nor `_`. */
  predicate IsAlpha(c: char): (r: bool)
    ensures r ==> c as int < 128 && !IsDigit(c) && c != '_'
  {
    'A' <= c <= 'Z' || 'a' <= c <= 'z'
  }

  /** `isAlphaNumeric`: ASCII letters and digits. `_` may start an identifier but is not
      alphanumeric, so it cannot continue one. */
  predicate IsAlphaNumeric(c: char): (r: bool)
    ensures r ==> c as int < 128
    ensures c == '_' ==> !r
    ensures IsDigit(c) || IsAlpha(c) ==> r
  {
    IsDigit(c) || IsAlpha(c)
  }

  /** `isNumber` of a read: a regular-expression test of `undefined` tests the text
      "undefined", which holds no digit. */
  predicate IsNumberAt(o: Option<char>) {
    o.Some? && IsDigit(o.value)
  }

  /** `isAlphaNumeric` of a read: the text "undefined" does contain letters, so a read past
      the end passes the test. */
  predicate IsAlphaNumericAt(o: Option<char>) {
    o.None? || IsAlphaNumeric(o.value)
  }

  /** Is `s` a contiguous piece of `src`? */
  ghost predicate IsSliceOf(s: string, src: string) {
    exists a, b | 0 <= a <= b <= |src| :: src[a..b] == s
  }

  /** `source.slice(from, to).join('')`: clamped to the source, empty when `to <= from`. */
  function Slice(src: string, from: nat, to: nat): (r: string)
    ensures from <= to <= |src| ==> r == src[from..to]
    ensures to <= from ==> r == []
    ensures IsSliceOf(r, src)
  {
    var end := if to <= |src| then to else |src|;
    if from < end then src[from..end] else assert src[0..0] == []; []
  }

  /** Number of line breaks in a piece of source. */
  function Newlines(s: string): nat {
    multiset(s)['\n']
  }

  /** Number of decimal points in a piece of source. */
  function Dots(s: string): nat {
    multiset(s)['.']
  }

  /** Peeling the first character off a slice: it adds one to the count of the character it is. */
  lemma CountFirst(src: string, t: nat, e: nat)
    requires t < e <= |src|
    ensures Newlines(src[t..e]) == (if src[t] == '\n' then 1 else 0) + Newlines(src[t + 1..e])
    ensures Dots(src[t..e]) == (if src[t] == '.' then 1 else 0) + Dots(src[t + 1..e])
  {
    assert src[t..e] == [src[t]] + src[t + 1..e];
  }

  datatype ScanError = UnclosedString | InvalidNumber

  /** The scanner's mutable fields. `line` and `lineEnd` are the [start, end] rows of the
      current lexeme; `colStart` anchors column numbers. */
  datatype State = State(head: nat, tail: nat, colStart: int, line: int, lineEnd: int, tokens: seq<Token>)

  /** Outcome of one `tokenize` call: the next state, a thrown error, or an inner loop that
      never stops. */
  datatype Step = Next(state: State) | Fail(error: ScanError) | Diverges

  /** Outcome of `scan`: the token list, a thrown error, or no answer at all. */
  datatype Scanned = Scanned(tokens: seq<Token>) | ScanFailed(error: ScanError) | Loops

  const Initial: State := State(0, 0, 0, 1, 1, [])

  /** The loop condition of `scan`. */
  predicate NotAtEnd(src: string, st: State) {
    st.tail < |src| && st.head < |src|
  }

  /** Invariant between two `tokenize` calls: `tail` never passes `head`, neither passes the
      end of the source, and `line` and `lineEnd` agree. */
  predicate Wf(src: string, st: State) {
    st.tail <= st.head <= |src| && st.line == st.lineEnd
  }

  /** `pushToken`: the token takes the current rows and the columns of [head, tail]. */
  function Push(st: State, kind: TokenType, literal: Option<string>): State {
    var tok := Token(kind, literal, (st.line, st.lineEnd), (st.head - st.colStart, st.tail - st.colStart));
    st.(tokens := st.tokens + [tok])
  }

  /** The branches of the `switch` in `tokenize`, selected by the character at `head`. */
  datatype CharClass =
    | LineBreak
    | Blank
    | Single(kind: TokenType)                    // one-character token, no look-ahead
    | Operator(one: TokenType, two: TokenType)   // one-character kind, or two-character `=` form
    | Slash
    | Quote
    | Digit
    | WordStart
    | Unknown

  function Classify(c: char): CharClass {
    match c
    case '\n' => LineBreak
    case '\t' => Blank
    case ' ' => Blank
    case '.' => Single(DOT)
    case '(' => Single(O_PAREN)
    case ')' => Single(C_PAREN)
    case '{' => Single(O_BRACKET)
    case '}' => Single(C_BRACKET)
    case '[' => Single(O_SBRACKET)
    case ']' => Single(C_SBRACKET)
    case '+' => Operator(PLUS, PLUS_EQUALS)
    case '-' => Operator(MINUS, MINUS_EQUALS)
    case '*' => Operator(STAR, STAR_EQUALS)
    case '=' => Operator(EQUALS, EQUALS_EQUALS)
    case '<' => Operator(LT, LTE)
    case '>' => Operator(GT, GTE)
    case '/' => Slash
    case '\'' => Quote
    case '"' => Quote
    case _ =>
      if IsDigit(c) then Digit
      else if c == '_' || IsAlpha(c) then WordStart
      else Unknown
  }

  /** The blank-skipping loop: the first position at or after `t` that is not a space or tab. */
  function SkipBlanks(src: string, t: nat): (r: nat)
    requires t <= |src|
    ensures t <= r <= |src|
    ensures forall i | t <= i < r :: src[i] == ' ' || src[i] == '\t'
    ensures r == |src| || (src[r] != ' ' && src[r] != '\t')
    decreases |src| - t
  {
    if At(src, t) == Some(' ') || At(src, t) == Some('\t') then SkipBlanks(src, t + 1) else t
  }

  /** The loop of `chompKeywordsOrIdentifiers`: the first position at or after `t` holding a
      character that is not a letter or digit. When there is none the source loop never ends,
      because the read past the end passes `isAlphaNumeric`. */
  function IdentEnd(src: string, t: nat): (r: Option<nat>)
    requires t <= |src|
    ensures r.Some? ==> t <= r.value < |src| && !IsAlphaNumeric(src[r.value])
    ensures r.Some? ==> forall i | t <= i < r.value :: IsAlphaNumeric(src[i])
    ensures r.None? <==> forall i | t <= i < |src| :: IsAlphaNumeric(src[i])
    decreases |src| - t
  {
    if !IsAlphaNumericAt(At(src, t)) then Some(t)
    else if t < |src| then IdentEnd(src, t + 1)
    else None
  }

  /** The loop of a `//` comment: the first line break at or after `t`. When there is none the
      source loop never ends, because `undefined` is never a line break. */
  function CommentEnd(src: string, t: nat): (r: Option<nat>)
    requires t <= |src|
    ensures r.Some? ==> t <= r.value < |src| && src[r.value] == '\n'
    ensures r.Some? ==> forall i | t <= i < r.value :: src[i] != '\n'
    ensures r.None? <==> forall i | t <= i < |src| :: src[i] != '\n'
    decreases |src| - t
  {
    if At(src, t) == Some('\n') then Some(t)
    else if t < |src| then CommentEnd(src, t + 1)
    else None
  }

  /** Outcome of the string loop: the closing quote's position with the updated row and column
      anchor, or end of input first. */
  datatype StringScan = Closed(close: nat, lineEnd: int, colStart: int) | Unclosed

  /** The loop of `chompString` from position `t`: stops at the next `q`, counting the line
      breaks it passes; end of input first is the unclosed-string case. */
  function ChompString(src: string, q: char, t: nat, lineEnd: int, colStart: int): (r: StringScan)
    requires t <= |src|
    ensures r.Closed? ==> t <= r.close < |src| && src[r.close] == q
    ensures r.Closed? ==> forall i | t <= i < r.close :: src[i] != q
    ensures r.Closed? ==> r.lineEnd == lineEnd + Newlines(src[t..r.close])
    ensures r.Unclosed? <==> forall i | t <= i < |src| :: src[i] != q
    decreases |src| - t
  {
    if t == |src| then Unclosed
    else if src[t] == q then
      assert src[t..t] == [];
      Closed(t, lineEnd, colStart)
    else
      var r := if src[t] == '\n' then ChompString(src, q, t + 1, lineEnd + 1, t - 1)
               else ChompString(src, q, t + 1, lineEnd, colStart);
      if r.Closed? then
        CountFirst(src, t, r.close);
        r
      else r
  }

  predicate IsNumberChar(c: char) {
    IsDigit(c) || c == '.'
  }

  /** The end of the run of digits and decimal points starting at `t`. */
  function RunEnd(src: string, t: nat): (r: nat)
    requires t <= |src|
    ensures t <= r <= |src|
    ensures forall i | t <= i < r :: IsNumberChar(src[i])
    ensures r == |src| || !IsNumberChar(src[r])
    decreases |src| - t
  {
    if t < |src| && IsNumberChar(src[t]) then RunEnd(src, t + 1) else t
  }

  /** The loop of `chompNumber` from position `t`: it succeeds exactly when the run of digits
      and points holds at most one point in all (`seenDot` counts one already read), and then
      ends where the run ends. */
  function NumberEnd(src: string, t: nat, seenDot: bool): (r: Option<nat>)
    requires t <= |src|
    ensures r.Some? <==> Dots(src[t..RunEnd(src, t)]) + (if seenDot then 1 else 0) <= 1
    ensures r.Some? ==> r.value == RunEnd(src, t)
    decreases |src| - t
  {
    if IsNumberAt(At(src, t)) || At(src, t) == Some('.') then
      CountFirst(src, t, RunEnd(src, t));
      if src[t] == '.' then
        if seenDot then None else NumberEnd(src, t + 1, true)
      else NumberEnd(src, t + 1, seenDot)
    else
      assert src[t..t] == [];
      Some(t)
  }

  /** `tokenize` for an operator with a two-character `=` form: the character read through
      `tail` decides between the two kinds. */
  function OperatorStep(src: string, st: State, one: TokenType, two: TokenType): State {
    var t1 := st.tail + 1;
    if At(src, t1) == Some('=') then
      Push(st.(tail := t1), two, None).(head := t1 + 1, tail := t1 + 1)
    else
      Push(st.(tail := t1), one, None).(head := t1, tail := t1)
  }

  /** `tokenize` for `/`: a `//` comment, `/=`, or `/`. */
  function SlashStep(src: string, st: State): Step
    requires st.tail < |src|
  {
    var t1 := st.tail + 1;
    if At(src, t1) == Some('/') then
      match CommentEnd(src, t1 + 1)
      case None => Diverges
      case Some(e) =>
        Next(Push(st.(tail := e), SLASH_SLASH, Some(Slice(src, st.head, e))).(head := e + 1, tail := e + 1))
    else
      Next(OperatorStep(src, st, SLASH, SLASH_EQUALS))
  }

  /** `chompString`: the literal is the source slice from `head` through the closing quote. */
  function StringStep(src: string, st: State, q: char): Step
    requires st.tail < |src|
  {
    match ChompString(src, q, st.tail + 1, st.lineEnd, st.colStart)
    case Unclosed => Fail(UnclosedString)
    case Closed(close, lineEnd, colStart) =>
      var s := st.(tail := close + 1, lineEnd := lineEnd, colStart := colStart);
      Next(Push(s, STRING, Some(Slice(src, st.head, close + 1))).(head := close + 1, line := lineEnd))
  }

  /** `chompNumber`: a leading `0` must be followed by a point, and the digit run may hold at
      most one point. */
  function NumberStep(src: string, st: State): Step
    requires st.head < |src| && st.tail < |src|
  {
    if src[st.head] == '0' && At(src, st.head + 1) != Some('.') then Fail(InvalidNumber)
    else
      match NumberEnd(src, st.tail + 1, false)
      case None => Fail(InvalidNumber)
      case Some(e) => Next(Push(st.(tail := e), NUMBER, Some(Slice(src, st.head, e))).(head := e, tail := e))
  }

  /** `chompKeywordsOrIdentifiers`: a keyword lexeme gives its kind with no literal; any other
      lexeme is an identifier carrying itself as literal. */
  function WordStep(src: string, st: State): Step
    requires st.tail < |src|
  {
    match IdentEnd(src, st.tail + 1)
    case None => Diverges
    case Some(e) =>
      var lexeme := Slice(src, st.head, e);
      var s := st.(tail := e);
      var pushed := match Keyword(lexeme)
        case Some(k) => Push(s, k, None)
        case None => Push(s, IDENT, Some(lexeme));
      Next(pushed.(head := e, tail := e))
  }

  /** `tokenize`: one step of the scan, selected by the character at `head`. */
  function Tokenize(src: string, st: State): (r: Step)
    requires NotAtEnd(src, st)
    ensures r.Next? ==> st.tokens <= r.state.tokens && |r.state.tokens| <= |st.tokens| + 1
    ensures r.Next? && st.line <= st.lineEnd ==> r.state.line >= st.line
    ensures r.Next? && Wf(src, st) ==> Wf(src, r.state)
    ensures r.Next? && Wf(src, st) ==>
              r.state.tail > st.tail || (r.state.tail == st.tail && r.state.head > st.head)
  {
    var c := src[st.head];
    match Classify(c)
    case LineBreak =>
      Next(st.(line := st.line + 1, lineEnd := st.line + 1, head := st.head + 1,
               tail := st.head + 1, colStart := st.head))
    case Blank =>
      var t := SkipBlanks(src, st.tail + 1);
      Next(st.(head := t, tail := t))
    case Single(kind) =>
      Next(Push(st, kind, None).(head := st.head + 1, tail := st.head + 1))
    case Operator(one, two) =>
      Next(OperatorStep(src, st, one, two))
    case Slash =>
      SlashStep(src, st)
    case Quote =>
      StringStep(src, st, c)
    case Digit =>
      NumberStep(src, st)
    case WordStart =>
      WordStep(src, st)
    case Unknown =>
      Next(st.(head := st.head + 1))
  }

  /** The `scan` loop from a given state. */
  function Run(src: string, st: State): (r: Scanned)
    requires Wf(src, st)
    ensures r.Scanned? ==> st.tokens <= r.tokens
    decreases |src| - st.tail, |src| - st.head
  {
    if NotAtEnd(src, st) then
      match Tokenize(src, st)
      case Next(s) => Run(src, s)
      case Fail(e) => ScanFailed(e)
      case Diverges => Loops
    else
      Scanned(st.tokens)
  }

  /** On a source ending in a line break neither inner loop can run off the end. */
  lemma TokenizeStopsBeforeEnd(src: string, st: State)
    requires Wf(src, st) && NotAtEnd(src, st) && src[|src| - 1] == '\n'
    ensures !Tokenize(src, st).Diverges?
  {
    var c := src[st.head];
    if c == '_' || IsAlpha(c) {
      assert st.head < |src| - 1;
      assert !IsAlphaNumeric(src[|src| - 1]);
    } else if c == '/' && At(src, st.tail + 1) == Some('/') {
      assert st.tail + 1 < |src| - 1;
    }
  }

  /** From any state, the loop of `scan` on a source that ends in a line break finishes. */
  lemma {:induction false} RunTerminates(src: string, st: State)
    requires Wf(src, st)
    ensures |src| > 0 && src[|src| - 1] == '\n' ==> !Run(src, st).Loops?
    decreases |src| - st.tail, |src| - st.head
  {
    if NotAtEnd(src, st) && src[|src| - 1] == '\n' {
      TokenizeStopsBeforeEnd(src, st);
      var r := Tokenize(src, st);
      if r.Next? {
        RunTerminates(src, r.state);
      }
    }
  }

  /** `new Scanner(src).scan()`. An empty source gives no tokens, and a source that ends in a
      line break always finishes, with tokens or an error. */
  function Scan(src: string): (r: Scanned)
    ensures src == [] ==> r == Scanned([])
    ensures |src| > 0 && src[|src| - 1] == '\n' ==> !r.Loops?
  {
    RunTerminates(src, Initial);
    Run(src, Initial)
  }
}
