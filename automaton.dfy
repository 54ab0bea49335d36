/**
  The tokenizer of `src/lexer.rs` as values: the automaton's states, its
  transition table, how a token is begun and finished, and one step of the
  per-character loop of `Inner::run`. `RunFrom` folds the step over the rest of
  a line; the imperative `Inner.Run` in module Lexer is proved equal to it.

  A line is a sequence of one-byte characters, so a byte offset is an index.
 */
module Automaton {
  import opened Util
  import opened Positions
  import opened Tokens
  import opened Errors

  // ---------------------------------------------------------------------------
  // Character classes

  predicate IsIdentStart(c: char) {
    ('a' <= c <= 'z') || ('A' <= c <= 'Z') || c == '_'
  }

  predicate IsIdentChar(c: char) {
    IsIdentStart(c) || c == '$' || IsDigit(c)
  }

  /** `char::is_ascii_whitespace`: space, tab, line feed, form feed, carriage return. */
  predicate IsAsciiWhitespace(c: char) {
    c == ' ' || c == '\t' || c == '\n' || c == '\U{000C}' || c == '\r'
  }

  // ---------------------------------------------------------------------------
  // States and tables

  /** The kind of the token being accumulated (`enum State`). */
  datatype State =
    | Identifier | Parameter
    | Integer | Decimal | ScientificIncomplete | ScientificSign | Scientific
      /** A closed string literal waiting to be pushed; it never takes part in the table. */
    | String(text: string)
    | Plus | Hyphen | HyphenGreater | Asterisk | Slash | Percent | Circumflex
    | Equal | EqualGreater | DoubleEqual | Exclamation | ExclamationEqual
    | Less | DoubleLess | Greater | DoubleGreater
    | Ampersand | DoubleAmpersand | Bar | DoubleBar
    | Colon | Semicolon | Comma | Dot | Question
    | OpeningParenthesis | ClosingParenthesis
    | OpeningBracket | ClosingBracket
    | OpeningBrace | ClosingBrace

  /**
    The transitions that extend the current token (maximal munch). `None`
    means the token ends before `c`. The two `Slash` cases that start comments
    are handled by `TokenStep`, not here.
   */
  function Transition(st: State, c: char): Option<State> {
    match st
    case Identifier => if IsIdentChar(c) then Some(State.Identifier) else None
    case Parameter => if IsIdentChar(c) then Some(State.Parameter) else None
    case Integer =>
      if IsDigit(c) then Some(State.Integer)
      else if c == '.' then Some(State.Decimal)
      else if c == 'e' || c == 'E' then Some(State.ScientificIncomplete)
      else None
    case Dot => if IsDigit(c) then Some(State.Decimal) else None
    case Decimal =>
      if IsDigit(c) then Some(State.Decimal)
      else if c == 'e' || c == 'E' then Some(State.ScientificIncomplete)
      else None
    case ScientificIncomplete =>
      if c == '+' || c == '-' then Some(State.ScientificSign)
      else if IsDigit(c) then Some(State.Scientific)
      else None
    case ScientificSign => if IsDigit(c) then Some(State.Scientific) else None
    case Scientific => if IsDigit(c) then Some(State.Scientific) else None
    case Equal =>
      if c == '=' then Some(State.DoubleEqual)
      else if c == '>' then Some(State.EqualGreater)
      else None
    case Hyphen => if c == '>' then Some(State.HyphenGreater) else None
    case Exclamation => if c == '=' then Some(State.ExclamationEqual) else None
    case Ampersand => if c == '&' then Some(State.DoubleAmpersand) else None
    case Bar => if c == '|' then Some(State.DoubleBar) else None
    case Less => if c == '<' then Some(State.DoubleLess) else None
    case Greater => if c == '>' then Some(State.DoubleGreater) else None
    case _ => None
  }

  /** What `begin` does with a character when no token is open. */
  datatype Start =
    | Blank                 // whitespace: still no token
    | Quote                 // a string literal opens
    | Begins(state: State)  // a token of this kind opens
    | Unexpected            // no token starts with this character

  function Classify(c: char): Start {
    if IsIdentStart(c) then Begins(State.Identifier)
    else if c == '$' then Begins(State.Parameter)
    else if IsDigit(c) then Begins(State.Integer)
    else if c == '"' then Quote
    else if c == '+' then Begins(State.Plus)
    else if c == '-' then Begins(State.Hyphen)
    else if c == '*' then Begins(State.Asterisk)
    else if c == '/' then Begins(State.Slash)
    else if c == '%' then Begins(State.Percent)
    else if c == '^' then Begins(State.Circumflex)
    else if c == '=' then Begins(State.Equal)
    else if c == '!' then Begins(State.Exclamation)
    else if c == '<' then Begins(State.Less)
    else if c == '>' then Begins(State.Greater)
    else if c == '&' then Begins(State.Ampersand)
    else if c == '|' then Begins(State.Bar)
    else if c == ':' then Begins(State.Colon)
    else if c == ';' then Begins(State.Semicolon)
    else if c == ',' then Begins(State.Comma)
    else if c == '.' then Begins(State.Dot)
    else if c == '?' then Begins(State.Question)
    else if c == '(' then Begins(State.OpeningParenthesis)
    else if c == ')' then Begins(State.ClosingParenthesis)
    else if c == '[' then Begins(State.OpeningBracket)
    else if c == ']' then Begins(State.ClosingBracket)
    else if c == '{' then Begins(State.OpeningBrace)
    else if c == '}' then Begins(State.ClosingBrace)
    else if IsAsciiWhitespace(c) then Blank
    else Unexpected
  }

  /** The escape table applied to the character after a backslash in a string literal. */
  function Unescape(c: char): char {
    if c == 'n' then '\n'
    else if c == 'r' then '\r'
    else if c == 't' then '\t'
    else if c == '0' then '\0'
    else c
  }

  // ---------------------------------------------------------------------------
  // Finishing a token

  /**
    Rust's grammar for `f64::from_str` on unsigned finite numbers, compared
    case-insensitively: `(Digit+ | Digit+ '.' Digit* | Digit* '.' Digit+)`
    followed by an optional exponent `'e' Sign? Digit+`.
   */
  predicate Mantissa(s: string) {
    var k := IndexOf(s, '.');
    if k == |s| then |s| > 0 && AllDigits(s)
    else |s| > 1 && AllDigits(s[..k]) && AllDigits(s[k + 1..])
  }

  predicate ExponentPart(s: string) {
    |s| > 0 && if s[0] == '+' || s[0] == '-' then |s| > 1 && AllDigits(s[1..]) else AllDigits(s)
  }

  function IndexOfExponent(s: string): (k: nat)
    ensures k <= |s|
  {
    var e, E := IndexOf(s, 'e'), IndexOf(s, 'E');
    if e < E then e else E
  }

  predicate FloatSyntax(s: string) {
    var k := IndexOfExponent(s);
    if k == |s| then Mantissa(s) else Mantissa(s[..k]) && ExponentPart(s[k + 1..])
  }

  /** The states whose token needs its source text. */
  predicate HasLexeme(st: State) {
    st.Identifier? || st.Parameter? || st.Integer? || st.Decimal? || st.Scientific?
  }

  /** Identifier text becomes the matching keyword, or an identifier carrying the text. */
  function KeywordOrIdentifier(text: string): Token {
    match Keyword(text)
    case Some(k) => k
    case None => Token.Identifier(text)
  }

  /**
    The token for state `st` begun at `start` and ended by the character at
    `pos`, or the error that finishing it raises.
   */
  function Finalize(st: State, line: string, start: Pos, pos: Pos): Result<Token>
    requires Le(start, pos)
    requires HasLexeme(st) ==> start.line == pos.line && start.byte <= pos.byte <= |line|
  {
    var range := NewRange(start, pos);
    match st
    case Identifier => Ok(KeywordOrIdentifier(line[start.byte..pos.byte]))
    case Parameter => Ok(Token.Parameter(line[start.byte..pos.byte]))
    case Integer => FinalizeNumber(line[start.byte..pos.byte], range)
    case Decimal => FinalizeNumber(line[start.byte..pos.byte], range)
    case Scientific => FinalizeNumber(line[start.byte..pos.byte], range)
    case ScientificIncomplete => Err(IncompleteScientificNotation(range))
    case ScientificSign => Err(IncompleteScientificNotation(range))
    case String(text) => Ok(Token.String(text))
    case Plus => Ok(Token.Plus)
    case Hyphen => Ok(Token.Hyphen)
    case Asterisk => Ok(Token.Asterisk)
    case Slash => Ok(Token.Slash)
    case Percent => Ok(Token.Percent)
    case Circumflex => Ok(Token.Circumflex)
    case Equal => Ok(Token.Equal)
    case EqualGreater => Ok(Token.EqualGreater)
    case HyphenGreater => Ok(Token.HyphenGreater)
    case DoubleEqual => Ok(Token.DoubleEqual)
    case Exclamation => Ok(Token.Exclamation)
    case ExclamationEqual => Ok(Token.ExclamationEqual)
    case Less => Ok(Token.Less)
    case DoubleLess => Ok(Token.DoubleLess)
    case Greater => Ok(Token.Greater)
    case DoubleGreater => Ok(Token.DoubleGreater)
    case DoubleAmpersand => Ok(Token.DoubleAmpersand)
    case Bar => Ok(Token.Bar)
    case DoubleBar => Ok(Token.DoubleBar)
    case Colon => Ok(Token.Colon)
    case Semicolon => Ok(Token.Semicolon)
    case Comma => Ok(Token.Comma)
    case Question => Ok(Token.Question)
    case OpeningParenthesis => Ok(Token.OpeningParenthesis)
    case ClosingParenthesis => Ok(Token.ClosingParenthesis)
    case OpeningBracket => Ok(Token.OpeningBracket)
    case ClosingBracket => Ok(Token.ClosingBracket)
    case OpeningBrace => Ok(Token.OpeningBrace)
    case ClosingBrace => Ok(Token.ClosingBrace)
    case Ampersand => Err(SingleAmpersand(range))
    case Dot => Err(SingleDot(range))
  }

  /** `text.parse::<f64>()`, on Rust's grammar for unsigned finite decimals: it succeeds exactly on `FloatSyntax`. */
  function FinalizeNumber(text: string, range: Range): Result<Token> {
    if FloatSyntax(text) then Ok(Token.Number(text)) else Err(ParseFloatFailure(range))
  }

  // ---------------------------------------------------------------------------
  // The per-character loop of `Inner::run`

  /** The local `prev`: the token being accumulated, with its start. */
  datatype Pending = Pending(start: Pos, state: State)

  /** `Inner::string`: an open string literal, with its start and the text decoded so far. */
  datatype OpenString = OpenString(start: Pos, text: string)

  /** An entry of the token queue. */
  datatype Item = Item(range: Range, token: Token)

  /**
    Everything the loop reads and writes: the comment stack and the open
    string (fields of `Inner`), the local `prev`, and the caller's queue.
   */
  datatype Scan = Scan(comment: seq<Pos>, str: Option<OpenString>, prev: Option<Pending>, queue: seq<Item>)

  /** One step: go on at index `next`, or leave `run` with a result. */
  datatype StepResult = Continue(s: Scan, next: nat) | Stop(s: Scan, result: Result<()>)

  /** What `run` leaves behind: the final scan and its return value. */
  datatype Outcome = Outcome(s: Scan, result: Result<()>)

  /** At most one of an open block comment, an open string and a pending token. */
  predicate Exclusive(s: Scan) {
    && !(s.comment != [] && s.str.Some?)
    && ((s.comment != [] || s.str.Some?) ==> s.prev.None?)
  }

  /** The state of `Inner` allows line `lineNum` to be read next. */
  predicate Fits(comment: seq<Pos>, str: Option<OpenString>, lineNum: nat) {
    && !(comment != [] && str.Some?)
    && (str.Some? ==> str.value.start.line < lineNum)
  }

  /**
    What holds before the character at index `i` of line `lineNum`: whatever is
    open started before it, and a pending token other than a string started
    on this line.
   */
  predicate ScanInv(lineNum: nat, line: string, i: nat, s: Scan) {
    && i <= |line|
    && Exclusive(s)
    && (s.str.Some? ==> Lt(s.str.value.start, Pos(lineNum, i)))
    && (s.prev.Some? ==>
          && Lt(s.prev.value.start, Pos(lineNum, i))
          && (!s.prev.value.state.String? ==> s.prev.value.start.line == lineNum))
  }

  // Inside a block comment: `*` then `/` pops, `/` then `*` pushes, `/` then `/` ends the line,
  // and every other character is skipped.
  function CommentStep(lineNum: nat, line: string, i: nat, s: Scan): (o: StepResult)
    requires i < |line| && ScanInv(lineNum, line, i, s) && s.comment != []
    ensures o.Continue? ==> i < o.next <= |line| && ScanInv(lineNum, line, o.next, o.s)
    ensures o.Stop? ==> o.result == Ok(()) && o.s == s
    ensures o.s.queue == s.queue && o.s.str == s.str && o.s.prev == s.prev
  {
    var c := line[i];
    var peek := if i + 1 < |line| then Some(line[i + 1]) else None;
    if c == '*' && peek == Some('/') then Continue(s.(comment := s.comment[..|s.comment| - 1]), i + 2)
    else if c == '/' && peek == Some('*') then Continue(s.(comment := s.comment + [Pos(lineNum, i)]), i + 2)
    else if c == '/' && peek == Some('/') then Stop(s, Ok(()))
    else Continue(s, i + 1)
  }

  /** Inside a string literal: `"` closes it, `\` escapes the next character, the rest is kept. */
  function StringStep(lineNum: nat, line: string, i: nat, s: Scan): (o: StepResult)
    requires i < |line| && ScanInv(lineNum, line, i, s) && s.str.Some?
    ensures o.Continue? ==> i < o.next <= |line| && ScanInv(lineNum, line, o.next, o.s)
    ensures o.Stop? ==> o.s == s
    ensures o.s.queue == s.queue && o.s.comment == s.comment
  {
    var c := line[i];
    var open := s.str.value;
    if c == '"' then
      Continue(s.(str := None, prev := Some(Pending(open.start, State.String(open.text)))), i + 1)
    else if c == '\\' then
      if i + 1 == |line| then Stop(s, Err(NoCharacterAfterBackSlash(Pos(lineNum, i))))
      else Continue(s.(str := Some(open.(text := open.text + [Unescape(line[i + 1])]))), i + 2)
    else
      Continue(s.(str := Some(open.(text := open.text + [c]))), i + 1)
  }

  /** `begin`: what the character at `i` starts when no token is pending. */
  function BeginStep(lineNum: nat, line: string, i: nat, s: Scan): (o: StepResult)
    requires i < |line| && ScanInv(lineNum, line, i, s)
    requires s.comment == [] && s.str.None? && s.prev.None?
    ensures o.Continue? ==> o.next == i + 1 && ScanInv(lineNum, line, o.next, o.s)
    ensures o.Stop? ==> o.s == s
    ensures o.s.queue == s.queue && o.s.comment == s.comment
  {
    var pos := Pos(lineNum, i);
    match Classify(line[i])
    case Blank => Continue(s, i + 1)
    case Quote => Continue(s.(str := Some(OpenString(pos, ""))), i + 1)
    case Begins(st) => Continue(s.(prev := Some(Pending(pos, st))), i + 1)
    case Unexpected => Stop(s, Err(UnexpectedCharacter(pos)))
  }

  // A token is pending: after a `/`, a second `/` ends the line and a `*` opens
  // a comment; a transition extends the token; anything else finishes it,
  // pushes it, and begins anew with the same character.
  function TokenStep(lineNum: nat, line: string, i: nat, s: Scan): (o: StepResult)
    requires i < |line| && ScanInv(lineNum, line, i, s)
    requires s.comment == [] && s.str.None? && s.prev.Some?
    ensures o.Continue? ==> o.next == i + 1 && ScanInv(lineNum, line, o.next, o.s)
    ensures o.Stop? ==> Exclusive(o.s) && (o.s.str.Some? ==> o.s.str.value.start.line <= lineNum)
    ensures s.queue <= o.s.queue && |o.s.queue| <= |s.queue| + 1
  {
    var p := s.prev.value;
    var c := line[i];
    var pos := Pos(lineNum, i);
    if p.state.Slash? && c == '/' then Stop(s, Ok(()))
    else if p.state.Slash? && c == '*' then Continue(s.(comment := s.comment + [p.start], prev := None), i + 1)
    else match Transition(p.state, c)
      case Some(next) => Continue(s.(prev := Some(Pending(p.start, next))), i + 1)
      case None =>
        match Finalize(p.state, line, p.start, pos)
        case Err(e) => Stop(s, Err(e))
        case Ok(t) => BeginStep(lineNum, line, i, s.(queue := s.queue + [Item(NewRange(p.start, pos), t)], prev := None))
  }

  /** One iteration of the `while let` loop of `Inner::run`, at index `i`. */
  function Step(lineNum: nat, line: string, i: nat, s: Scan): (o: StepResult)
    requires i < |line| && ScanInv(lineNum, line, i, s)
    ensures o.Continue? ==> i < o.next <= |line| && ScanInv(lineNum, line, o.next, o.s)
    ensures o.Stop? ==> Exclusive(o.s) && (o.s.str.Some? ==> o.s.str.value.start.line <= lineNum)
    ensures s.queue <= o.s.queue && |o.s.queue| <= |s.queue| + 1
  {
    if s.comment != [] then CommentStep(lineNum, line, i, s)
    else if s.str.Some? then StringStep(lineNum, line, i, s)
    else if s.prev.None? then BeginStep(lineNum, line, i, s)
    else TokenStep(lineNum, line, i, s)
  }

  /**
    The rest of `Inner::run` from index `i`: the state it leaves and what it
    returns. At the end of the line a pending token is `NoLineFeedAtEOF`.
    Whatever happens, `run` only appends to the queue, and the state it leaves
    allows the next line.
   */
  function RunFrom(lineNum: nat, line: string, i: nat, s: Scan): (o: Outcome)
    requires ScanInv(lineNum, line, i, s)
    ensures Exclusive(o.s) && (o.s.str.Some? ==> o.s.str.value.start.line <= lineNum)
    ensures s.queue <= o.s.queue
    decreases |line| - i
  {
    if i == |line| then Outcome(s, if s.prev.Some? then Err(NoLineFeedAtEOF) else Ok(()))
    else match Step(lineNum, line, i, s)
      case Continue(s', j) => RunFrom(lineNum, line, j, s')
      case Stop(s', r) => Outcome(s', r)
  }

  /** A step that goes on leaves the rest of the run to the next index. */
  lemma RunFromContinue(lineNum: nat, line: string, i: nat, s: Scan, s': Scan, j: nat)
    requires i < |line| && ScanInv(lineNum, line, i, s)
    requires Step(lineNum, line, i, s) == Continue(s', j)
    ensures i < j <= |line| && ScanInv(lineNum, line, j, s')
    ensures RunFrom(lineNum, line, i, s) == RunFrom(lineNum, line, j, s')
  {
  }

  /** A step that stops ends the run with its own result. */
  lemma RunFromStop(lineNum: nat, line: string, i: nat, s: Scan, s': Scan, r: Result<()>)
    requires i < |line| && ScanInv(lineNum, line, i, s)
    requires Step(lineNum, line, i, s) == Stop(s', r)
    ensures RunFrom(lineNum, line, i, s) == Outcome(s', r)
  {
  }

  /**
    The same, with the step given by its mode so that a caller unfolds only
    that mode's function.
   */
  lemma ModeContinue(lineNum: nat, line: string, i: nat, s: Scan, s': Scan, j: nat)
    requires i < |line| && ScanInv(lineNum, line, i, s)
    requires s.comment != [] ==> CommentStep(lineNum, line, i, s) == Continue(s', j)
    requires s.comment == [] && s.str.Some? ==> StringStep(lineNum, line, i, s) == Continue(s', j)
    requires s.comment == [] && s.str.None? && s.prev.None? ==> BeginStep(lineNum, line, i, s) == Continue(s', j)
    requires s.comment == [] && s.str.None? && s.prev.Some? ==> TokenStep(lineNum, line, i, s) == Continue(s', j)
    ensures i < j <= |line| && ScanInv(lineNum, line, j, s')
    ensures RunFrom(lineNum, line, i, s) == RunFrom(lineNum, line, j, s')
  {
    RunFromContinue(lineNum, line, i, s, s', j);
  }

  lemma ModeStop(lineNum: nat, line: string, i: nat, s: Scan, s': Scan, r: Result<()>)
    requires i < |line| && ScanInv(lineNum, line, i, s)
    requires s.comment != [] ==> CommentStep(lineNum, line, i, s) == Stop(s', r)
    requires s.comment == [] && s.str.Some? ==> StringStep(lineNum, line, i, s) == Stop(s', r)
    requires s.comment == [] && s.str.None? && s.prev.None? ==> BeginStep(lineNum, line, i, s) == Stop(s', r)
    requires s.comment == [] && s.str.None? && s.prev.Some? ==> TokenStep(lineNum, line, i, s) == Stop(s', r)
    ensures RunFrom(lineNum, line, i, s) == Outcome(s', r)
  {
    RunFromStop(lineNum, line, i, s, s', r);
  }

  /** `Inner::run` on a whole line, from the state of `Inner` and the caller's queue. */
  function RunLine(lineNum: nat, line: string, comment: seq<Pos>, str: Option<OpenString>, queue: seq<Item>): (o: Outcome)
    requires Fits(comment, str, lineNum)
    ensures Fits(o.s.comment, o.s.str, lineNum + 1)
    ensures queue <= o.s.queue
  {
    RunFrom(lineNum, line, 0, Scan(comment, str, None, queue))
  }
}
