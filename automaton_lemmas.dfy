/**
  Properties of the tokenizer model in module Automaton: how tokens are
  finished, the comment stack, string escapes, the end-of-line rule, the
  order of the pushed ranges, and that a number the automaton accepts
  always parses.
 */
module AutomatonLemmas {
  import opened Util
  import opened Positions
  import opened Tokens
  import opened Errors
  import opened Automaton

  // ---------------------------------------------------------------------------
  // Finishing a token

  /**
    Identifier text that is a reserved word becomes the keyword token spelled
    that way; any other text becomes an identifier carrying it.
   */
  lemma FinalizeIdentifier(line: string, start: Pos, pos: Pos)
    requires start.line == pos.line && start.byte <= pos.byte <= |line|
    ensures var text := line[start.byte..pos.byte];
      var r := Finalize(State.Identifier, line, start, pos);
      && r.Ok?
      && (Keyword(text).Some? ==> r.value == Keyword(text).value)
      && (Keyword(text).Some? <==> KeywordText(r.value) == Some(text))
      && (Keyword(text).None? ==> r.value == Token.Identifier(text))
  {
    var text := line[start.byte..pos.byte];
    var r := Finalize(State.Identifier, line, start, pos);
    KeywordTableInverse(text, r.value);
  }

  /** Parameter text is never looked up in the keyword table. */
  lemma FinalizeParameter(line: string, start: Pos, pos: Pos)
    requires start.line == pos.line && start.byte <= pos.byte <= |line|
    ensures var r := Finalize(State.Parameter, line, start, pos);
      && r.Ok? && r.value.Parameter? && r.value.name == line[start.byte..pos.byte]
      && KeywordText(r.value) == None
  {
  }

  predicate IsNumberState(st: State) {
    st.Integer? || st.Decimal? || st.Scientific?
  }

  /**
    Which states fail to finish, and with which error over `[start, pos)`:
    an unfinished exponent, a lone `&`, a lone `.`, and a number outside the
    float grammar. A number inside it becomes a number token with its text.
   */
  lemma FinalizeErrors(st: State, line: string, start: Pos, pos: Pos)
    requires Le(start, pos)
    requires HasLexeme(st) ==> start.line == pos.line && start.byte <= pos.byte <= |line|
    ensures var r := Finalize(st, line, start, pos);
      var range := Range(start, pos);
      && (r == Err(IncompleteScientificNotation(range)) <==> st.ScientificIncomplete? || st.ScientificSign?)
      && (r == Err(SingleAmpersand(range)) <==> st.Ampersand?)
      && (r == Err(SingleDot(range)) <==> st.Dot?)
      && (r.Err? <==>
            || st.ScientificIncomplete? || st.ScientificSign? || st.Ampersand? || st.Dot?
            || (IsNumberState(st) && !FloatSyntax(line[start.byte..pos.byte])))
      && (IsNumberState(st) && FloatSyntax(line[start.byte..pos.byte]) ==>
            r == Ok(Token.Number(line[start.byte..pos.byte])))
      && (IsNumberState(st) && !FloatSyntax(line[start.byte..pos.byte]) ==>
            r == Err(ParseFloatFailure(range)))
  {
  }

  // ---------------------------------------------------------------------------
  // Block and line comments

  predicate PairAt(line: string, i: nat, a: char, b: char) {
    i + 1 < |line| && line[i] == a && line[i + 1] == b
  }

  /**
    Inside a block comment: `*` then `/` pops one start, `/` then `*` pushes
    the current position, `/` then `/` ends the line with the stack as it is,
    and any other character changes nothing. Nothing is pushed to the queue.
   */
  lemma CommentDiscipline(lineNum: nat, line: string, i: nat, s: Scan)
    requires i < |line| && ScanInv(lineNum, line, i, s) && s.comment != []
    ensures var o := Step(lineNum, line, i, s);
      && o.s.queue == s.queue && o.s.str == None && o.s.prev == None
      && (PairAt(line, i, '*', '/') ==> o == Continue(s.(comment := s.comment[..|s.comment| - 1]), i + 2))
      && (PairAt(line, i, '/', '*') ==> o == Continue(s.(comment := s.comment + [Pos(lineNum, i)]), i + 2))
      && (PairAt(line, i, '/', '/') ==> o == Stop(s, Ok(())))
      && (!PairAt(line, i, '*', '/') && !PairAt(line, i, '/', '*') && !PairAt(line, i, '/', '/') ==>
            o == Continue(s, i + 1))
  {
  }

  /**
    While a comment is open and the rest of the line holds no `*` then `/`,
    the stack only grows, nothing is pushed, and the line ends without error.
   */
  lemma {:induction false} CommentAbsorbs(lineNum: nat, line: string, i: nat, s: Scan)
    requires ScanInv(lineNum, line, i, s) && s.comment != []
    requires forall k :: i <= k < |line| ==> !PairAt(line, k, '*', '/')
    ensures var o := RunFrom(lineNum, line, i, s);
      && o.result == Ok(())
      && o.s.queue == s.queue && o.s.str == None && o.s.prev == None
      && s.comment <= o.s.comment
    decreases |line| - i
  {
    if i < |line| {
      CommentDiscipline(lineNum, line, i, s);
      match Step(lineNum, line, i, s)
      case Continue(s', j) =>
        CommentAbsorbs(lineNum, line, j, s');
      case Stop(_, _) =>
    }
  }

  /**
    With no token pending, `/` then `*` opens a block comment at the `/` and
    leaves no pending token; `/` then `/` ends the line.
   */
  lemma CommentOpensOutside(lineNum: nat, line: string, i: nat, s: Scan)
    requires ScanInv(lineNum, line, i, s) && s.comment == [] && s.str.None? && s.prev.None?
    ensures PairAt(line, i, '/', '*') ==>
      && ScanInv(lineNum, line, i + 2, s.(comment := [Pos(lineNum, i)]))
      && RunFrom(lineNum, line, i, s) == RunFrom(lineNum, line, i + 2, s.(comment := [Pos(lineNum, i)]))
    ensures PairAt(line, i, '/', '/') ==> RunFrom(lineNum, line, i, s) == Outcome(s.(prev := Some(Pending(Pos(lineNum, i), State.Slash))), Ok(()))
  {
    if PairAt(line, i, '/', '*') || PairAt(line, i, '/', '/') {
      var s1 := s.(prev := Some(Pending(Pos(lineNum, i), State.Slash)));
      assert Step(lineNum, line, i, s) == Continue(s1, i + 1);
      RunFromContinue(lineNum, line, i, s, s1, i + 1);
      if line[i + 1] == '*' {
        var s2 := s.(comment := [Pos(lineNum, i)]);
        assert Step(lineNum, line, i + 1, s1) == Continue(s2, i + 2);
        RunFromContinue(lineNum, line, i + 1, s1, s2, i + 2);
      } else {
        assert Step(lineNum, line, i + 1, s1) == Stop(s1, Ok(()));
        RunFromStop(lineNum, line, i + 1, s1, s1, Ok(()));
      }
    }
  }

  /**
    With a `/` pending (whatever came before it on the line), `*` opens a
    block comment at the `/` and drops the pending token; `/` ends the line
    and leaves the `/` pending.
   */
  lemma SlashPending(lineNum: nat, line: string, i: nat, s: Scan)
    requires i < |line| && ScanInv(lineNum, line, i, s)
    requires s.comment == [] && s.str.None? && s.prev.Some? && s.prev.value.state.Slash?
    ensures line[i] == '*' ==>
      && Step(lineNum, line, i, s) == Continue(s.(comment := [s.prev.value.start], prev := None), i + 1)
      && RunFrom(lineNum, line, i, s) == RunFrom(lineNum, line, i + 1, s.(comment := [s.prev.value.start], prev := None))
    ensures line[i] == '/' ==>
      && Step(lineNum, line, i, s) == Stop(s, Ok(()))
      && RunFrom(lineNum, line, i, s) == Outcome(s, Ok(()))
  {
    if line[i] == '*' {
      var s' := s.(comment := [s.prev.value.start], prev := None);
      assert Step(lineNum, line, i, s) == Continue(s', i + 1);
      RunFromContinue(lineNum, line, i, s, s', i + 1);
    } else if line[i] == '/' {
      assert Step(lineNum, line, i, s) == Stop(s, Ok(()));
      RunFromStop(lineNum, line, i, s, s, Ok(()));
    }
  }

  // ---------------------------------------------------------------------------
  // String literals

  /**
    Inside a string literal: `"` closes it and leaves it pending; `\` at the
    end of the line fails at the backslash; `\` before a character appends
    that character through the escape table; any other character, a line
    feed included, is appended as it is.
   */
  lemma StringDiscipline(lineNum: nat, line: string, i: nat, s: Scan)
    requires i < |line| && ScanInv(lineNum, line, i, s) && s.comment == [] && s.str.Some?
    ensures var o := Step(lineNum, line, i, s);
      var open := s.str.value;
      && o.s.queue == s.queue
      && (line[i] == '"' ==>
            o == Continue(s.(str := None, prev := Some(Pending(open.start, State.String(open.text)))), i + 1))
      && (line[i] == '\\' && i + 1 == |line| ==> o == Stop(s, Err(NoCharacterAfterBackSlash(Pos(lineNum, i)))))
      && (line[i] == '\\' && i + 1 < |line| ==>
            o == Continue(s.(str := Some(open.(text := open.text + [Unescape(line[i + 1])]))), i + 2))
      && (line[i] != '"' && line[i] != '\\' ==>
            o == Continue(s.(str := Some(open.(text := open.text + [line[i]]))), i + 1))
  {
  }

  /** The escape table: four letters name control characters, and every other character stands for itself. */
  lemma UnescapeTable(c: char)
    ensures Unescape(c) != c <==> c in {'n', 'r', 't', '0'}
    ensures c == 'n' ==> Unescape(c) == '\n'
    ensures c == 'r' ==> Unescape(c) == '\r'
    ensures c == 't' ==> Unescape(c) == '\t'
    ensures c == '0' ==> Unescape(c) == '\0'
  {
  }

  /** How a character is written inside a string literal so that it reads back as itself. */
  function EscapeChar(c: char): (q: string)
    ensures 0 < |q| <= 2
  {
    if c == '"' then "\\\""
    else if c == '\\' then "\\\\"
    else if c == '\n' then "\\n"
    else if c == '\r' then "\\r"
    else if c == '\t' then "\\t"
    else if c == '\0' then "\\0"
    else [c]
  }

  /** The body of a string literal for `t`. */
  function Escape(t: string): string {
    if t == [] then [] else EscapeChar(t[0]) + Escape(t[1..])
  }

  /** The characters of `Escape(u)` sit in `line` from index `i` on. */
  ghost predicate EscapedAt(line: string, i: nat, u: string)
    decreases u
  {
    u == [] ||
      var q := EscapeChar(u[0]);
      && i + |q| <= |line| && line[i] == q[0] && (|q| == 2 ==> line[i + 1] == q[1])
      && EscapedAt(line, i + |q|, u[1..])
  }

  lemma SliceSplit(line: string, i: nat, a: string, b: string)
    requires i + |a + b| <= |line| && line[i..i + |a + b|] == a + b
    ensures line[i..i + |a|] == a && line[i + |a|..i + |a| + |b|] == b
  {
    assert line[i..i + |a|] == (a + b)[..|a|];
    assert line[i + |a|..i + |a| + |b|] == (a + b)[|a|..];
  }

  lemma {:induction false} EscapeFits(line: string, i: nat, u: string)
    requires i + |Escape(u)| <= |line| && line[i..i + |Escape(u)|] == Escape(u)
    ensures EscapedAt(line, i, u)
    decreases u
  {
    if u != [] {
      var q, rest := EscapeChar(u[0]), u[1..];
      assert Escape(u) == q + Escape(rest);
      assert line[i] == Escape(u)[0];
      if |q| == 2 {
        assert line[i + 1] == Escape(u)[1];
      }
      SliceSplit(line, i, q, Escape(rest));
      EscapeFits(line, i + |q|, rest);
    }
  }

  /** Inside an open string, with nothing else open and no token pending. */
  ghost predicate InString(s: Scan) {
    s.comment == [] && s.str.Some? && s.prev.None?
  }

  /** Reading characters of an open string leads from index `i` and `s` to `j` and `t`. */
  ghost predicate StringReaches(lineNum: nat, line: string, i: nat, s: Scan, j: nat, t: Scan)
    requires ScanInv(lineNum, line, i, s) && InString(s)
    decreases |line| - i
  {
    || (i == j && s == t)
    || (i < |line| &&
        var o := StringStep(lineNum, line, i, s);
        o.Continue? && InString(o.s) && StringReaches(lineNum, line, o.next, o.s, j, t))
  }

  /** Where the string steps lead, the rest of the line runs the same. */
  lemma {:induction false} StringReachesRunFrom(lineNum: nat, line: string, i: nat, s: Scan, j: nat, t: Scan)
    requires ScanInv(lineNum, line, i, s) && InString(s) && StringReaches(lineNum, line, i, s, j, t)
    ensures ScanInv(lineNum, line, j, t) && RunFrom(lineNum, line, i, s) == RunFrom(lineNum, line, j, t)
    decreases |line| - i
  {
    if !(i == j && s == t) {
      var o := StringStep(lineNum, line, i, s);
      assert Step(lineNum, line, i, s) == o;
      RunFromContinue(lineNum, line, i, s, o.s, o.next);
      StringReachesRunFrom(lineNum, line, o.next, o.s, j, t);
    }
  }

  /** Reading the escaped form of `u` inside an open string appends `u` to it. */
  lemma {:induction false} ScanEscaped(lineNum: nat, line: string, i: nat, s: Scan, u: string) returns (j: nat, t: Scan)
    requires ScanInv(lineNum, line, i, s) && InString(s) && EscapedAt(line, i, u)
    ensures j == i + |Escape(u)| && t == s.(str := Some(s.str.value.(text := s.str.value.text + u)))
    ensures StringReaches(lineNum, line, i, s, j, t)
    decreases u
  {
    var open := s.str.value;
    if u == [] {
      assert open.text + u == open.text;
      return i, s;
    }
    var q, rest := EscapeChar(u[0]), u[1..];
    var s1 := s.(str := Some(open.(text := open.text + [u[0]])));
    assert StringStep(lineNum, line, i, s) == Continue(s1, i + |q|);
    j, t := ScanEscaped(lineNum, line, i + |q|, s1, rest);
    assert open.text + [u[0]] + rest == open.text + u;
  }

  /** The layout of a line holding the literal for `t`: quote, escaped text, quote, line feed. */
  lemma LiteralLayout(t: string, line: string)
    requires line == "\"" + Escape(t) + "\"\n"
    ensures |line| == |Escape(t)| + 3 && line[0] == '"' && EscapedAt(line, 1, t)
    ensures line[|line| - 2] == '"' && line[|line| - 1] == '\n'
  {
    assert line[1..1 + |Escape(t)|] == Escape(t);
    EscapeFits(line, 1, t);
  }

  /** With nothing open, a `"` opens a string literal at its own position. */
  lemma OpenQuote(lineNum: nat, line: string, i: nat, s: Scan)
    requires i < |line| && line[i] == '"' && ScanInv(lineNum, line, i, s)
    requires s.comment == [] && s.str.None? && s.prev.None?
    ensures var s' := s.(str := Some(OpenString(Pos(lineNum, i), "")));
      ScanInv(lineNum, line, i + 1, s') && RunFrom(lineNum, line, i, s) == RunFrom(lineNum, line, i + 1, s')
  {
    var s' := s.(str := Some(OpenString(Pos(lineNum, i), "")));
    assert Step(lineNum, line, i, s) == Continue(s', i + 1);
    RunFromContinue(lineNum, line, i, s, s', i + 1);
  }

  /** A `"` inside a string literal closes it; the literal waits as the pending token. */
  lemma CloseQuote(lineNum: nat, line: string, i: nat, s: Scan)
    requires i < |line| && line[i] == '"' && ScanInv(lineNum, line, i, s) && InString(s)
    ensures var s' := s.(str := None, prev := Some(Pending(s.str.value.start, State.String(s.str.value.text))));
      ScanInv(lineNum, line, i + 1, s') && RunFrom(lineNum, line, i, s) == RunFrom(lineNum, line, i + 1, s')
  {
    var s' := s.(str := None, prev := Some(Pending(s.str.value.start, State.String(s.str.value.text))));
    assert Step(lineNum, line, i, s) == Continue(s', i + 1);
    RunFromContinue(lineNum, line, i, s, s', i + 1);
  }

  /** The final line feed pushes a pending string literal and ends the line. */
  lemma PushLiteralAtEnd(lineNum: nat, line: string, i: nat, s: Scan)
    requires i + 1 == |line| && line[i] == '\n' && ScanInv(lineNum, line, i, s)
    requires s.comment == [] && s.str.None? && s.prev.Some? && s.prev.value.state.String?
    ensures var p := s.prev.value;
      RunFrom(lineNum, line, i, s)
        == Outcome(s.(prev := None, queue := s.queue + [Item(Range(p.start, Pos(lineNum, i)), Token.String(p.state.text))]), Ok(()))
  {
    var p := s.prev.value;
    var s' := s.(prev := None, queue := s.queue + [Item(Range(p.start, Pos(lineNum, i)), Token.String(p.state.text))]);
    assert Step(lineNum, line, i, s) == Continue(s', i + 1);
    RunFromContinue(lineNum, line, i, s, s', i + 1);
  }

  lemma LiteralRun(lineNum: nat, line: string, t: string, queue: seq<Item>)
    requires |line| == |Escape(t)| + 3 && line[0] == '"' && EscapedAt(line, 1, t)
    requires line[|line| - 2] == '"' && line[|line| - 1] == '\n'
    ensures RunLine(lineNum, line, [], None, queue)
      == Outcome(Scan([], None, None, queue + [Item(Range(Pos(lineNum, 0), Pos(lineNum, |line| - 1)), Token.String(t))]), Ok(()))
  {
    var s0 := Scan([], None, None, queue);
    OpenQuote(lineNum, line, 0, s0);
    var s1 := s0.(str := Some(OpenString(Pos(lineNum, 0), "")));
    var j, s2 := ScanEscaped(lineNum, line, 1, s1, t);
    StringReachesRunFrom(lineNum, line, 1, s1, j, s2);
    assert "" + t == t;
    LiteralClose(lineNum, line, j, s2);
  }

  /** A `"` then the final line feed close an open literal and push it. */
  lemma LiteralClose(lineNum: nat, line: string, i: nat, s: Scan)
    requires i + 2 == |line| && line[i] == '"' && line[i + 1] == '\n'
    requires ScanInv(lineNum, line, i, s) && InString(s)
    ensures var open := s.str.value;
      RunFrom(lineNum, line, i, s)
        == Outcome(s.(str := None, queue := s.queue + [Item(Range(open.start, Pos(lineNum, i + 1)), Token.String(open.text))]), Ok(()))
  {
    CloseQuote(lineNum, line, i, s);
    var s' := s.(str := None, prev := Some(Pending(s.str.value.start, State.String(s.str.value.text))));
    PushLiteralAtEnd(lineNum, line, i + 1, s');
  }

  /**
    A line holding one string literal written with `Escape` pushes exactly one
    string token carrying the original text, over the whole literal.
   */
  lemma StringLiteralRoundTrip(lineNum: nat, t: string, queue: seq<Item>)
    ensures var line := "\"" + Escape(t) + "\"\n";
      RunLine(lineNum, line, [], None, queue)
        == Outcome(Scan([], None, None, queue + [Item(Range(Pos(lineNum, 0), Pos(lineNum, |Escape(t)| + 2)), Token.String(t))]), Ok(()))
  {
    var line := "\"" + Escape(t) + "\"\n";
    LiteralLayout(t, line);
    LiteralRun(lineNum, line, t, queue);
  }

  // ---------------------------------------------------------------------------
  // Operators and identifiers

  /**
    A token pending from byte 0 that the blank at `|text|` ends is pushed
    over `[0, |text|)`; the final line feed is skipped.
   */
  lemma FinishBeforeBlank(lineNum: nat, text: string, st: State, t: Token, queue: seq<Item>)
    requires 0 < |text| && !st.String?
    requires Transition(st, ' ') == None
    requires Finalize(st, text + " \n", Pos(lineNum, 0), Pos(lineNum, |text|)) == Ok(t)
    ensures var s := Scan([], None, Some(Pending(Pos(lineNum, 0), st)), queue);
      && ScanInv(lineNum, text + " \n", |text|, s)
      && RunFrom(lineNum, text + " \n", |text|, s)
         == Outcome(Scan([], None, None, queue + [Item(Range(Pos(lineNum, 0), Pos(lineNum, |text|)), t)]), Ok(()))
  {
    var line := text + " \n";
    var i := |text|;
    var s := Scan([], None, Some(Pending(Pos(lineNum, 0), st)), queue);
    var s' := Scan([], None, None, queue + [Item(Range(Pos(lineNum, 0), Pos(lineNum, i)), t)]);
    assert line[i] == ' ' && line[i + 1] == '\n';
    assert Step(lineNum, line, i, s) == Continue(s', i + 1);
    RunFromContinue(lineNum, line, i, s, s', i + 1);
    assert Step(lineNum, line, i + 1, s') == Continue(s', i + 2);
    RunFromContinue(lineNum, line, i + 1, s', s', i + 2);
  }

  /** `c` begins `st`, which nothing extends by a blank and which finishes as `t`. */
  predicate SingleCharEntry(lineNum: nat, c: char, st: State, t: Token) {
    && Classify(c) == Begins(st) && !st.String?
    && Transition(st, ' ') == None
    && Finalize(st, [c] + " \n", Pos(lineNum, 0), Pos(lineNum, 1)) == Ok(t)
  }

  /** `c` begins `first`, `d` extends it to `st`, which finishes as `t`. */
  predicate DoubleCharEntry(lineNum: nat, c: char, d: char, first: State, st: State, t: Token) {
    && Classify(c) == Begins(first) && !first.Slash? && Transition(first, d) == Some(st)
    && !st.String? && Transition(st, ' ') == None
    && Finalize(st, [c, d] + " \n", Pos(lineNum, 0), Pos(lineNum, 2)) == Ok(t)
  }

  /** A one-character operator followed by a blank is one token. */
  lemma SingleCharOperator(lineNum: nat, c: char, st: State, t: Token, queue: seq<Item>)
    requires SingleCharEntry(lineNum, c, st, t)
    ensures RunLine(lineNum, [c] + " \n", [], None, queue)
      == Outcome(Scan([], None, None, queue + [Item(Range(Pos(lineNum, 0), Pos(lineNum, 1)), t)]), Ok(()))
  {
    var line := [c] + " \n";
    var s0 := Scan([], None, None, queue);
    var s1 := Scan([], None, Some(Pending(Pos(lineNum, 0), st)), queue);
    assert Step(lineNum, line, 0, s0) == Continue(s1, 1);
    RunFromContinue(lineNum, line, 0, s0, s1, 1);
    FinishBeforeBlank(lineNum, [c], st, t, queue);
  }

  /** A two-character operator followed by a blank is one token, not two. */
  lemma DoubleCharOperator(lineNum: nat, c: char, d: char, first: State, st: State, t: Token, queue: seq<Item>)
    requires DoubleCharEntry(lineNum, c, d, first, st, t)
    ensures RunLine(lineNum, [c, d] + " \n", [], None, queue)
      == Outcome(Scan([], None, None, queue + [Item(Range(Pos(lineNum, 0), Pos(lineNum, 2)), t)]), Ok(()))
  {
    var line := [c, d] + " \n";
    var s0 := Scan([], None, None, queue);
    var s1 := Scan([], None, Some(Pending(Pos(lineNum, 0), first)), queue);
    var s2 := Scan([], None, Some(Pending(Pos(lineNum, 0), st)), queue);
    assert Step(lineNum, line, 0, s0) == Continue(s1, 1);
    RunFromContinue(lineNum, line, 0, s0, s1, 1);
    assert Step(lineNum, line, 1, s1) == Continue(s2, 2);
    RunFromContinue(lineNum, line, 1, s1, s2, 2);
    FinishBeforeBlank(lineNum, [c, d], st, t, queue);
  }

  /**
    The automaton's entry for operator `t`: its first character begins a
    state, a second character (if any) extends that state, and the state
    reached finishes as `t`.
   */
  predicate OperatorEntry(lineNum: nat, t: Token)
    requires OperatorText(t).Some?
  {
    var text := OperatorText(t).value;
    && 0 < |text| <= 2
    && Classify(text[0]).Begins?
    && (|text| == 1 ==> SingleCharEntry(lineNum, text[0], Classify(text[0]).state, t))
    && (|text| == 2 ==>
          && Transition(Classify(text[0]).state, text[1]).Some?
          && DoubleCharEntry(lineNum, text[0], text[1], Classify(text[0]).state,
                             Transition(Classify(text[0]).state, text[1]).value, t))
  }

  /** The entries of the arithmetic operators and `->`. */
  lemma ArithmeticEntries(lineNum: nat, t: Token)
    ensures t.Plus? ==> OperatorText(t).Some? && OperatorEntry(lineNum, t)
    ensures t.Hyphen? ==> OperatorText(t).Some? && OperatorEntry(lineNum, t)
    ensures t.HyphenGreater? ==> OperatorText(t).Some? && OperatorEntry(lineNum, t)
    ensures t.Asterisk? ==> OperatorText(t).Some? && OperatorEntry(lineNum, t)
    ensures t.Slash? ==> OperatorText(t).Some? && OperatorEntry(lineNum, t)
    ensures t.Percent? ==> OperatorText(t).Some? && OperatorEntry(lineNum, t)
    ensures t.Circumflex? ==> OperatorText(t).Some? && OperatorEntry(lineNum, t)
  {
  }

  /** The entries of `=`, `=>`, `==`, `!` and `!=`. */
  lemma EqualityEntries(lineNum: nat, t: Token)
    ensures t.Equal? ==> OperatorText(t).Some? && OperatorEntry(lineNum, t)
    ensures t.EqualGreater? ==> OperatorText(t).Some? && OperatorEntry(lineNum, t)
    ensures t.DoubleEqual? ==> OperatorText(t).Some? && OperatorEntry(lineNum, t)
    ensures t.Exclamation? ==> OperatorText(t).Some? && OperatorEntry(lineNum, t)
    ensures t.ExclamationEqual? ==> OperatorText(t).Some? && OperatorEntry(lineNum, t)
  {
  }

  /** The entries of `<` and `<<`. */
  lemma LessEntries(lineNum: nat, t: Token)
    ensures t.Less? ==> OperatorText(t).Some? && OperatorEntry(lineNum, t)
    ensures t.DoubleLess? ==> OperatorText(t).Some? && OperatorEntry(lineNum, t)
  {
  }

  /** The entries of `>` and `>>`. */
  lemma GreaterEntries(lineNum: nat, t: Token)
    ensures t.Greater? ==> OperatorText(t).Some? && OperatorEntry(lineNum, t)
    ensures t.DoubleGreater? ==> OperatorText(t).Some? && OperatorEntry(lineNum, t)
  {
  }

  /** The entry of `&&`. */
  lemma AmpersandEntries(lineNum: nat, t: Token)
    ensures t.DoubleAmpersand? ==> OperatorText(t).Some? && OperatorEntry(lineNum, t)
  {
  }

  /** The entries of `|` and `||`. */
  lemma BarEntries(lineNum: nat, t: Token)
    ensures t.Bar? ==> OperatorText(t).Some? && OperatorEntry(lineNum, t)
    ensures t.DoubleBar? ==> OperatorText(t).Some? && OperatorEntry(lineNum, t)
  {
  }

  /** The entries of `:` and `;`. */
  lemma ColonSemicolonEntries(lineNum: nat, t: Token)
    ensures t.Colon? ==> OperatorText(t).Some? && OperatorEntry(lineNum, t)
    ensures t.Semicolon? ==> OperatorText(t).Some? && OperatorEntry(lineNum, t)
  {
  }

  /** The entries of `,` and `?`. */
  lemma CommaQuestionEntries(lineNum: nat, t: Token)
    ensures t.Comma? ==> OperatorText(t).Some? && OperatorEntry(lineNum, t)
    ensures t.Question? ==> OperatorText(t).Some? && OperatorEntry(lineNum, t)
  {
  }

  /** The entries of the parentheses. */
  lemma ParenthesisEntries(lineNum: nat, t: Token)
    ensures t.OpeningParenthesis? ==> OperatorText(t).Some? && OperatorEntry(lineNum, t)
    ensures t.ClosingParenthesis? ==> OperatorText(t).Some? && OperatorEntry(lineNum, t)
  {
  }

  /** The entries of the square brackets. */
  lemma SquareBracketEntries(lineNum: nat, t: Token)
    ensures t.OpeningBracket? ==> OperatorText(t).Some? && OperatorEntry(lineNum, t)
    ensures t.ClosingBracket? ==> OperatorText(t).Some? && OperatorEntry(lineNum, t)
  {
  }

  /** The entries of the braces. */
  lemma BraceEntries(lineNum: nat, t: Token)
    ensures t.OpeningBrace? ==> OperatorText(t).Some? && OperatorEntry(lineNum, t)
    ensures t.ClosingBrace? ==> OperatorText(t).Some? && OperatorEntry(lineNum, t)
  {
  }

  /**
    Every operator, written out and followed by a blank, is read back as
    exactly that token over its own spelling: `&&` is one `DoubleAmpersand`,
    not two ampersands.
   */
  lemma OperatorRoundTrip(lineNum: nat, t: Token, queue: seq<Item>)
    ensures OperatorText(t).Some? ==>
      var text := OperatorText(t).value;
      RunLine(lineNum, text + " \n", [], None, queue)
        == Outcome(Scan([], None, None, queue + [Item(Range(Pos(lineNum, 0), Pos(lineNum, |text|)), t)]), Ok(()))
  {
    if OperatorText(t).Some? {
      ArithmeticEntries(lineNum, t);
      EqualityEntries(lineNum, t);
      LessEntries(lineNum, t);
      GreaterEntries(lineNum, t);
      AmpersandEntries(lineNum, t);
      BarEntries(lineNum, t);
      ColonSemicolonEntries(lineNum, t);
      CommaQuestionEntries(lineNum, t);
      ParenthesisEntries(lineNum, t);
      SquareBracketEntries(lineNum, t);
      BraceEntries(lineNum, t);
      var text := OperatorText(t).value;
      var first := Classify(text[0]).state;
      if |text| == 1 {
        assert text == [text[0]];
        SingleCharOperator(lineNum, text[0], first, t, queue);
      } else {
        assert text == [text[0], text[1]];
        DoubleCharOperator(lineNum, text[0], text[1], first, Transition(first, text[1]).value, t, queue);
      }
    }
  }

  /** A word of identifier characters is one token from its first character to its last. */
  lemma {:induction false} IdentifierRun(lineNum: nat, w: string, i: nat, queue: seq<Item>)
    requires 1 <= i <= |w| && forall k :: 0 <= k < |w| ==> IsIdentChar(w[k])
    ensures var s := Scan([], None, Some(Pending(Pos(lineNum, 0), State.Identifier)), queue);
      && ScanInv(lineNum, w + " \n", i, s)
      && RunFrom(lineNum, w + " \n", i, s) == RunFrom(lineNum, w + " \n", |w|, s)
    decreases |w| - i
  {
    if i < |w| {
      var line := w + " \n";
      var s := Scan([], None, Some(Pending(Pos(lineNum, 0), State.Identifier)), queue);
      assert line[i] == w[i];
      assert Step(lineNum, line, i, s) == Continue(s, i + 1);
      RunFromContinue(lineNum, line, i, s, s, i + 1);
      IdentifierRun(lineNum, w, i + 1, queue);
    }
  }

  /**
    A word `[A-Za-z_][A-Za-z0-9_$]*` followed by a blank is read back as one
    token over the word: the keyword it spells, or `Identifier(w)`.
   */
  lemma IdentifierRoundTrip(lineNum: nat, w: string, queue: seq<Item>)
    requires 0 < |w| && IsIdentStart(w[0]) && forall k :: 0 <= k < |w| ==> IsIdentChar(w[k])
    ensures RunLine(lineNum, w + " \n", [], None, queue)
      == Outcome(Scan([], None, None, queue + [Item(Range(Pos(lineNum, 0), Pos(lineNum, |w|)), KeywordOrIdentifier(w))]), Ok(()))
  {
    var line := w + " \n";
    var s0 := Scan([], None, None, queue);
    var s1 := Scan([], None, Some(Pending(Pos(lineNum, 0), State.Identifier)), queue);
    assert line[0] == w[0];
    assert Step(lineNum, line, 0, s0) == Continue(s1, 1);
    RunFromContinue(lineNum, line, 0, s0, s1, 1);
    IdentifierRun(lineNum, w, 1, queue);
    assert line[0..|w|] == w;
    FinishBeforeBlank(lineNum, w, State.Identifier, KeywordOrIdentifier(w), queue);
  }

  // ---------------------------------------------------------------------------
  // The end of the line

  /** A step never stops with `NoLineFeedAtEOF`: only the end of the line raises it. */
  lemma StopIsNotEndOfLine(lineNum: nat, line: string, i: nat, s: Scan)
    requires i < |line| && ScanInv(lineNum, line, i, s)
    ensures var o := Step(lineNum, line, i, s);
      o.Stop? ==> o.result != Err(NoLineFeedAtEOF)
  {
  }

  /** A step that consumes a final line feed leaves no token pending. */
  lemma LineFeedSettles(lineNum: nat, line: string, i: nat, s: Scan)
    requires i < |line| && ScanInv(lineNum, line, i, s) && line[|line| - 1] == '\n'
    ensures var o := Step(lineNum, line, i, s);
      o.Continue? && o.next == |line| ==> o.s.prev.None?
  {
  }

  /** On a line that ends in a line feed, the rest of the run never fails with `NoLineFeedAtEOF`. */
  lemma {:induction false} LineFeedRunFrom(lineNum: nat, line: string, i: nat, s: Scan)
    requires ScanInv(lineNum, line, i, s) && 0 < |line| && line[|line| - 1] == '\n'
    requires i == |line| ==> s.prev.None?
    ensures RunFrom(lineNum, line, i, s).result != Err(NoLineFeedAtEOF)
    decreases |line| - i
  {
    if i < |line| {
      StopIsNotEndOfLine(lineNum, line, i, s);
      LineFeedSettles(lineNum, line, i, s);
      match Step(lineNum, line, i, s)
      case Continue(s', j) =>
        RunFromContinue(lineNum, line, i, s, s', j);
        LineFeedRunFrom(lineNum, line, j, s');
      case Stop(s', r) =>
        RunFromStop(lineNum, line, i, s, s', r);
    }
  }

  /**
    `run` reports `NoLineFeedAtEOF` only for a token still pending after the
    last character, so never on a line that ends in a line feed.
   */
  lemma LineFeedEndsTokens(lineNum: nat, line: string, comment: seq<Pos>, str: Option<OpenString>, queue: seq<Item>)
    requires Fits(comment, str, lineNum)
    ensures RunLine(lineNum, line, comment, str, queue).result == Err(NoLineFeedAtEOF) ==>
      0 < |line| && line[|line| - 1] != '\n'
  {
    if 0 < |line| && line[|line| - 1] == '\n' {
      LineFeedRunFrom(lineNum, line, 0, Scan(comment, str, None, queue));
    }
  }

  // ---------------------------------------------------------------------------
  // The order of the queue

  /** Every range is non-empty, and each ends no later than the next one starts. */
  predicate Ordered(items: seq<Item>) {
    && (forall k :: 0 <= k < |items| ==> Lt(items[k].range.start, items[k].range.end))
    && (forall k :: 0 < k < |items| ==> Le(items[k - 1].range.end, items[k].range.start))
  }

  /** The last range ends no later than `p`. */
  predicate EndsBy(items: seq<Item>, p: Pos) {
    items == [] || Le(items[|items| - 1].range.end, p)
  }

  /**
    The items from index `from` on end on line `lineNum`, and all but string
    literals also start there.
   */
  predicate OnLine(items: seq<Item>, from: nat, lineNum: nat) {
    forall k :: from <= k < |items| ==>
      items[k].range.end.line == lineNum && (items[k].range.start.line == lineNum || items[k].token.String?)
  }

  /** The queue ends before index `i` and before whatever is still open. */
  predicate Tidy(lineNum: nat, i: nat, s: Scan) {
    && Ordered(s.queue) && EndsBy(s.queue, Pos(lineNum, i))
    && (s.str.Some? ==> EndsBy(s.queue, s.str.value.start))
    && (s.prev.Some? ==> EndsBy(s.queue, s.prev.value.start))
  }

  lemma OrderedSnoc(items: seq<Item>, x: Item)
    requires Ordered(items) && EndsBy(items, x.range.start) && Lt(x.range.start, x.range.end)
    ensures Ordered(items + [x]) && EndsBy(items + [x], x.range.end)
  {
    var all := items + [x];
    forall k | 0 < k < |all|
      ensures Le(all[k - 1].range.end, all[k].range.start)
    {
      if k < |items| {
        assert all[k - 1] == items[k - 1] && all[k] == items[k];
      }
    }
  }

  /** Beginning a token keeps the queue in order. */
  lemma BeginTidy(lineNum: nat, line: string, i: nat, s: Scan)
    requires i < |line| && ScanInv(lineNum, line, i, s) && Tidy(lineNum, i, s)
    requires s.comment == [] && s.str.None? && s.prev.None?
    ensures var o := BeginStep(lineNum, line, i, s);
      && o.s.queue == s.queue
      && (o.Continue? ==> Tidy(lineNum, o.next, o.s))
      && (o.Stop? ==> Tidy(lineNum, i, o.s))
  {
  }

  /** Finishing or extending a pending token keeps the queue in order; a push lands on this line. */
  lemma TokenTidy(lineNum: nat, line: string, i: nat, s: Scan, from: nat)
    requires i < |line| && ScanInv(lineNum, line, i, s) && Tidy(lineNum, i, s) && OnLine(s.queue, from, lineNum)
    requires s.comment == [] && s.str.None? && s.prev.Some?
    ensures var o := TokenStep(lineNum, line, i, s);
      && OnLine(o.s.queue, from, lineNum)
      && (o.Continue? ==> Tidy(lineNum, o.next, o.s))
      && (o.Stop? ==> Tidy(lineNum, i, o.s))
  {
    var p := s.prev.value;
    var c := line[i];
    var pos := Pos(lineNum, i);
    if !(p.state.Slash? && (c == '/' || c == '*')) && Transition(p.state, c).None? {
      var r := Finalize(p.state, line, p.start, pos);
      if r.Ok? {
        var x := Item(NewRange(p.start, pos), r.value);
        OrderedSnoc(s.queue, x);
        var s' := s.(queue := s.queue + [x], prev := None);
        assert OnLine(s'.queue, from, lineNum) by {
          assert forall k :: from <= k < |s.queue| ==> s'.queue[k] == s.queue[k];
        }
        BeginTidy(lineNum, line, i, s');
      }
    }
  }

  /** Every step keeps the queue in order, and what it pushes lands on this line. */
  lemma StepTidy(lineNum: nat, line: string, i: nat, s: Scan, from: nat)
    requires i < |line| && ScanInv(lineNum, line, i, s) && Tidy(lineNum, i, s) && OnLine(s.queue, from, lineNum)
    ensures var o := Step(lineNum, line, i, s);
      && OnLine(o.s.queue, from, lineNum)
      && (o.Continue? ==> Tidy(lineNum, o.next, o.s))
      && (o.Stop? ==> Tidy(lineNum, i, o.s))
  {
    if s.comment == [] && s.str.None? {
      if s.prev.None? {
        BeginTidy(lineNum, line, i, s);
      } else {
        TokenTidy(lineNum, line, i, s, from);
      }
    }
  }

  lemma {:induction false} RunFromTidy(lineNum: nat, line: string, i: nat, s: Scan, from: nat)
    requires ScanInv(lineNum, line, i, s) && Tidy(lineNum, i, s) && OnLine(s.queue, from, lineNum)
    ensures var o := RunFrom(lineNum, line, i, s);
      && Ordered(o.s.queue) && EndsBy(o.s.queue, Pos(lineNum, |line|))
      && (o.s.str.Some? ==> EndsBy(o.s.queue, o.s.str.value.start))
      && OnLine(o.s.queue, from, lineNum)
    decreases |line| - i
  {
    if i < |line| {
      StepTidy(lineNum, line, i, s, from);
      match Step(lineNum, line, i, s)
      case Continue(s', j) =>
        RunFromContinue(lineNum, line, i, s, s', j);
        RunFromTidy(lineNum, line, j, s', from);
      case Stop(s', r) =>
        RunFromStop(lineNum, line, i, s, s', r);
    }
  }

  /**
    `run` keeps the queue in source order: each pushed range is non-empty,
    starts no earlier than the previous one ends and ends on the current line,
    and every token but a string literal also starts there. The order carries
    over to the next line, an open string included.
   */
  lemma RunLineOrdered(lineNum: nat, line: string, comment: seq<Pos>, str: Option<OpenString>, queue: seq<Item>)
    requires Fits(comment, str, lineNum)
    requires Ordered(queue) && EndsBy(queue, Pos(lineNum, 0)) && (str.Some? ==> EndsBy(queue, str.value.start))
    ensures var o := RunLine(lineNum, line, comment, str, queue);
      && Ordered(o.s.queue) && EndsBy(o.s.queue, Pos(lineNum + 1, 0))
      && (o.s.str.Some? ==> EndsBy(o.s.queue, o.s.str.value.start))
      && OnLine(o.s.queue, |queue|, lineNum)
  {
    RunFromTidy(lineNum, line, 0, Scan(comment, str, None, queue), |queue|);
  }

  // ---------------------------------------------------------------------------
  // Numbers always parse

  predicate IsExponentMark(c: char) {
    c == 'e' || c == 'E'
  }

  /**
    The text a state can have accumulated: digits for `Integer`, a mantissa
    for `Decimal`, a mantissa and an exponent mark, then a sign, for the two
    incomplete states, and a mantissa with its exponent for `Scientific`.
   */
  predicate NumberLexeme(st: State, text: string) {
    match st
    case Integer => |text| > 0 && AllDigits(text)
    case Dot => text == "."
    case Decimal => Mantissa(text)
    case ScientificIncomplete => |text| > 0 && Mantissa(text[..|text| - 1]) && IsExponentMark(text[|text| - 1])
    case ScientificSign =>
      && |text| > 1 && Mantissa(text[..|text| - 2]) && IsExponentMark(text[|text| - 2])
      && (text[|text| - 1] == '+' || text[|text| - 1] == '-')
    case Scientific =>
      var k := IndexOfExponent(text);
      k < |text| && Mantissa(text[..k]) && ExponentPart(text[k + 1..])
    case _ => true
  }

  /** A mantissa holds digits and at most one dot, so no exponent mark. */
  lemma MantissaHasNoMark(m: string)
    requires Mantissa(m)
    ensures forall j :: 0 <= j < |m| ==> !IsExponentMark(m[j])
  {
    var k := IndexOf(m, '.');
    forall j | 0 <= j < |m|
      ensures !IsExponentMark(m[j])
    {
      if k < |m| {
        if j < k {
          assert m[j] == m[..k][j];
        } else if j > k {
          assert m[j] == m[k + 1..][j - k - 1];
        }
      }
    }
  }

  /** The exponent mark after a mantissa is the first one. */
  lemma MarkAfterMantissa(m: string, e: char, x: string)
    requires Mantissa(m) && IsExponentMark(e)
    ensures IndexOfExponent(m + [e] + x) == |m|
  {
    MantissaHasNoMark(m);
    var s := m + [e] + x;
    assert s[|m|] == e;
    assert forall j :: 0 <= j < |m| ==> s[j] == m[j];
    IndexOfAfter(m, e, x);
  }

  lemma DigitsMantissa(t: string)
    requires |t| > 0 && AllDigits(t)
    ensures Mantissa(t) && IndexOfExponent(t) == |t|
  {
  }

  /** A mantissa extended by a digit is still one. */
  lemma MantissaSnoc(t: string, d: char)
    requires Mantissa(t) && IsDigit(d)
    ensures Mantissa(t + [d])
  {
    IndexOfSnoc(t, '.', d);
    var k := IndexOf(t, '.');
    if k < |t| {
      assert (t + [d])[..k] == t[..k];
      assert (t + [d])[k + 1..] == t[k + 1..] + [d];
    } else {
      assert forall j :: 0 <= j < |t| ==> (t + [d])[j] == t[j];
    }
  }

  lemma IntegerLexeme(text: string, c: char)
    requires NumberLexeme(State.Integer, text) && Transition(State.Integer, c).Some?
    ensures NumberLexeme(Transition(State.Integer, c).value, text + [c])
  {
    var t := text + [c];
    DigitsMantissa(text);
    assert t[..|text|] == text;
    if c == '.' {
      IndexOfSnoc(text, '.', c);
      assert t[|text| + 1..] == [];
    }
  }

  lemma DotLexeme(text: string, c: char)
    requires NumberLexeme(State.Dot, text) && Transition(State.Dot, c).Some?
    ensures NumberLexeme(Transition(State.Dot, c).value, text + [c])
  {
    var t := text + [c];
    assert t == ['.', c];
    assert t[..0] == [] && t[1..] == [c];
  }

  lemma DecimalLexeme(text: string, c: char)
    requires NumberLexeme(State.Decimal, text) && Transition(State.Decimal, c).Some?
    ensures NumberLexeme(Transition(State.Decimal, c).value, text + [c])
  {
    assert (text + [c])[..|text|] == text;
    if IsDigit(c) {
      MantissaSnoc(text, c);
    }
  }

  lemma IncompleteLexeme(text: string, c: char)
    requires NumberLexeme(State.ScientificIncomplete, text) && Transition(State.ScientificIncomplete, c).Some?
    ensures NumberLexeme(Transition(State.ScientificIncomplete, c).value, text + [c])
  {
    var t := text + [c];
    var m := text[..|text| - 1];
    if IsDigit(c) {
      assert t == m + [text[|text| - 1]] + [c];
      MarkAfterMantissa(m, text[|text| - 1], [c]);
      assert t[..|m|] == m && t[|m| + 1..] == [c];
    } else {
      assert t[..|t| - 2] == m;
    }
  }

  lemma SignLexeme(text: string, c: char)
    requires NumberLexeme(State.ScientificSign, text) && Transition(State.ScientificSign, c).Some?
    ensures NumberLexeme(Transition(State.ScientificSign, c).value, text + [c])
  {
    var t := text + [c];
    var m := text[..|text| - 2];
    assert t == m + [text[|text| - 2]] + [text[|text| - 1], c];
    MarkAfterMantissa(m, text[|text| - 2], [text[|text| - 1], c]);
    assert t[..|m|] == m && t[|m| + 1..] == [text[|text| - 1], c];
  }

  lemma ScientificLexeme(text: string, c: char)
    requires NumberLexeme(State.Scientific, text) && Transition(State.Scientific, c).Some?
    ensures NumberLexeme(Transition(State.Scientific, c).value, text + [c])
  {
    var t := text + [c];
    var k := IndexOfExponent(text);
    IndexOfSnoc(text, 'e', c);
    IndexOfSnoc(text, 'E', c);
    assert IndexOfExponent(t) == k;
    assert t[..k] == text[..k];
    assert t[k + 1..] == text[k + 1..] + [c];
  }

  /** Every transition out of a number state keeps its text a valid prefix of a number. */
  lemma TransitionLexeme(st: State, text: string, c: char)
    requires NumberLexeme(st, text) && Transition(st, c).Some?
    ensures NumberLexeme(Transition(st, c).value, text + [c])
  {
    match st
    case Integer => IntegerLexeme(text, c);
    case Dot => DotLexeme(text, c);
    case Decimal => DecimalLexeme(text, c);
    case ScientificIncomplete => IncompleteLexeme(text, c);
    case ScientificSign => SignLexeme(text, c);
    case Scientific => ScientificLexeme(text, c);
    case _ =>
  }

  /** The text of a finished number state is in the float grammar. */
  lemma LexemeParses(st: State, text: string)
    requires IsNumberState(st) && NumberLexeme(st, text)
    ensures FloatSyntax(text)
  {
    if !st.Scientific? {
      if st.Integer? {
        DigitsMantissa(text);
      }
      MantissaHasNoMark(text);
      if IndexOfExponent(text) < |text| {
        assert IsExponentMark(text[IndexOfExponent(text)]);
      }
    }
  }

  /** What a pending token has accumulated so far is a lexeme of its state. */
  predicate PendingLexeme(line: string, i: nat, s: Scan) {
    s.prev.Some? && !s.prev.value.state.String? ==>
      var p := s.prev.value;
      p.start.byte <= i <= |line| && NumberLexeme(p.state, line[p.start.byte..i])
  }

  /** A failure that is not `ParseFloatFailure`, or success. */
  predicate NotParseFailure(r: Result<()>) {
    !(r.Err? && r.error.ParseFloatFailure?)
  }

  lemma BeginLexeme(lineNum: nat, line: string, i: nat, s: Scan)
    requires i < |line| && ScanInv(lineNum, line, i, s)
    requires s.comment == [] && s.str.None? && s.prev.None?
    ensures var o := BeginStep(lineNum, line, i, s);
      && (o.Continue? ==> PendingLexeme(line, o.next, o.s))
      && (o.Stop? ==> NotParseFailure(o.result))
  {
    assert line[i..i + 1] == [line[i]];
  }

  lemma TokenLexeme(lineNum: nat, line: string, i: nat, s: Scan)
    requires i < |line| && ScanInv(lineNum, line, i, s) && PendingLexeme(line, i, s)
    requires s.comment == [] && s.str.None? && s.prev.Some?
    ensures var o := TokenStep(lineNum, line, i, s);
      && (o.Continue? ==> PendingLexeme(line, o.next, o.s))
      && (o.Stop? ==> NotParseFailure(o.result))
  {
    var p := s.prev.value;
    var c := line[i];
    var pos := Pos(lineNum, i);
    if !(p.state.Slash? && (c == '/' || c == '*')) {
      if !p.state.String? {
        var text := line[p.start.byte..i];
        match Transition(p.state, c)
        case Some(next) =>
          TransitionLexeme(p.state, text, c);
          assert line[p.start.byte..i + 1] == text + [c];
        case None =>
          if IsNumberState(p.state) {
            LexemeParses(p.state, text);
          }
          var r := Finalize(p.state, line, p.start, pos);
          if r.Ok? {
            BeginLexeme(lineNum, line, i, s.(queue := s.queue + [Item(NewRange(p.start, pos), r.value)], prev := None));
          }
      } else {
        var r := Finalize(p.state, line, p.start, pos);
        BeginLexeme(lineNum, line, i, s.(queue := s.queue + [Item(NewRange(p.start, pos), r.value)], prev := None));
      }
    }
  }

  lemma StepLexeme(lineNum: nat, line: string, i: nat, s: Scan)
    requires i < |line| && ScanInv(lineNum, line, i, s) && PendingLexeme(line, i, s)
    ensures var o := Step(lineNum, line, i, s);
      && (o.Continue? ==> PendingLexeme(line, o.next, o.s))
      && (o.Stop? ==> NotParseFailure(o.result))
  {
    if s.comment == [] && s.str.None? {
      if s.prev.None? {
        BeginLexeme(lineNum, line, i, s);
      } else {
        TokenLexeme(lineNum, line, i, s);
      }
    }
  }

  lemma {:induction false} RunFromLexeme(lineNum: nat, line: string, i: nat, s: Scan)
    requires ScanInv(lineNum, line, i, s) && PendingLexeme(line, i, s)
    ensures NotParseFailure(RunFrom(lineNum, line, i, s).result)
    decreases |line| - i
  {
    if i < |line| {
      StepLexeme(lineNum, line, i, s);
      match Step(lineNum, line, i, s)
      case Continue(s', j) =>
        RunFromContinue(lineNum, line, i, s, s', j);
        RunFromLexeme(lineNum, line, j, s');
      case Stop(s', r) =>
        RunFromStop(lineNum, line, i, s, s', r);
    }
  }

  /**
    The automaton only finishes a number whose text is in the float grammar,
    so `run` never fails with `ParseFloatFailure`.
   */
  lemma NumbersAlwaysParse(lineNum: nat, line: string, comment: seq<Pos>, str: Option<OpenString>, queue: seq<Item>)
    requires Fits(comment, str, lineNum)
    ensures NotParseFailure(RunLine(lineNum, line, comment, str, queue).result)
  {
    RunFromLexeme(lineNum, line, 0, Scan(comment, str, None, queue));
  }

  // ---------------------------------------------------------------------------
  // Examples

  /** A token pushed before a failing character stays queued. */
  lemma PushedTokenSurvivesError(lineNum: nat, queue: seq<Item>)
    ensures RunLine(lineNum, "a#\n", [], None, queue)
      == Outcome(Scan([], None, None, queue + [Item(Range(Pos(lineNum, 0), Pos(lineNum, 1)), Token.Identifier("a"))]),
                 Err(UnexpectedCharacter(Pos(lineNum, 1))))
  {
    var line := "a#\n";
    var s0 := Scan([], None, None, queue);
    var s1 := s0.(prev := Some(Pending(Pos(lineNum, 0), State.Identifier)));
    assert Step(lineNum, line, 0, s0) == Continue(s1, 1);
    RunFromContinue(lineNum, line, 0, s0, s1, 1);
    assert line[0..1] == "a";
    var s2 := s0.(queue := queue + [Item(Range(Pos(lineNum, 0), Pos(lineNum, 1)), Token.Identifier("a"))]);
    assert Step(lineNum, line, 1, s1) == Stop(s2, Err(UnexpectedCharacter(Pos(lineNum, 1))));
    RunFromStop(lineNum, line, 1, s1, s2, Err(UnexpectedCharacter(Pos(lineNum, 1))));
  }

  /** A token still open when a line without a line feed ends is `NoLineFeedAtEOF`. */
  lemma MissingLineFeed(lineNum: nat, queue: seq<Item>)
    ensures RunLine(lineNum, "x", [], None, queue)
      == Outcome(Scan([], None, Some(Pending(Pos(lineNum, 0), State.Identifier)), queue), Err(NoLineFeedAtEOF))
  {
    var s0 := Scan([], None, None, queue);
    var s1 := s0.(prev := Some(Pending(Pos(lineNum, 0), State.Identifier)));
    assert Step(lineNum, "x", 0, s0) == Continue(s1, 1);
    RunFromContinue(lineNum, "x", 0, s0, s1, 1);
  }

  /** Block comments nest: closing the inner one leaves the outer one open on the next line. */
  lemma NestedComment(lineNum: nat, queue: seq<Item>)
    ensures RunLine(lineNum, "/*/**/\n", [], None, queue) == Outcome(Scan([Pos(lineNum, 0)], None, None, queue), Ok(()))
  {
    var line := "/*/**/\n";
    var s0 := Scan([], None, None, queue);
    CommentOpensOutside(lineNum, line, 0, s0);
    var s1 := s0.(comment := [Pos(lineNum, 0)]);
    var s2 := s0.(comment := [Pos(lineNum, 0), Pos(lineNum, 2)]);
    assert Step(lineNum, line, 2, s1) == Continue(s2, 4);
    RunFromContinue(lineNum, line, 2, s1, s2, 4);
    assert [Pos(lineNum, 0), Pos(lineNum, 2)][..1] == [Pos(lineNum, 0)];
    assert Step(lineNum, line, 4, s2) == Continue(s1, 6);
    RunFromContinue(lineNum, line, 4, s2, s1, 6);
    assert Step(lineNum, line, 6, s1) == Continue(s1, 7);
    RunFromContinue(lineNum, line, 6, s1, s1, 7);
  }

  /** A slash and a star right after a token push the token and open a comment at the slash. */
  lemma CommentAfterToken(lineNum: nat, queue: seq<Item>)
    ensures RunLine(lineNum, "a/*\n", [], None, queue)
      == Outcome(Scan([Pos(lineNum, 1)], None, None, queue + [Item(Range(Pos(lineNum, 0), Pos(lineNum, 1)), Token.Identifier("a"))]),
                 Ok(()))
  {
    var line := "a/*\n";
    var s0 := Scan([], None, None, queue);
    var s1 := s0.(prev := Some(Pending(Pos(lineNum, 0), State.Identifier)));
    assert Step(lineNum, line, 0, s0) == Continue(s1, 1);
    RunFromContinue(lineNum, line, 0, s0, s1, 1);
    assert line[0..1] == "a";
    var q := queue + [Item(Range(Pos(lineNum, 0), Pos(lineNum, 1)), Token.Identifier("a"))];
    var s2 := Scan([], None, Some(Pending(Pos(lineNum, 1), State.Slash)), q);
    assert Step(lineNum, line, 1, s1) == Continue(s2, 2);
    RunFromContinue(lineNum, line, 1, s1, s2, 2);
    SlashPending(lineNum, line, 2, s2);
    var s3 := Scan([Pos(lineNum, 1)], None, None, q);
    assert Step(lineNum, line, 3, s3) == Continue(s3, 4);
    RunFromContinue(lineNum, line, 3, s3, s3, 4);
  }
}
