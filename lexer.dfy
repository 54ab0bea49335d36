/**
  The stateful side of `src/lexer.rs`: `Inner`, whose `Run` walks one line
  and pushes tokens, and the pull driver `Lexer` with `Read`, `Next` and `Ask`.

  The reader is modelled as the sequence of lines `read_line` would deliver
  (each non-empty, each but possibly the last ending in a line feed) and a
  cursor into it. The caller's log of raw lines and the token queue that `run`
  borrows mutably are passed in and handed back.
 */
module Lexer {
  import opened Util
  import opened Positions
  import opened Tokens
  import opened Errors
  import opened Automaton
  import AutomatonLemmas

  class Inner {
    /** The start of every open block comment, innermost last; non-empty inside a comment. */
    var comment: seq<Pos>
    /** An open string literal, with its start and the text decoded so far. */
    var str: Option<OpenString>

    /** At most one of a comment and a string is open, and an open string began before line `lineNum`. */
    ghost predicate Fits(lineNum: nat)
      reads this
    {
      Automaton.Fits(comment, str, lineNum)
    }

    constructor ()
      ensures comment == [] && str == None
    {
      comment := [];
      str := None;
    }

    /** `begin`: a `"` opens a string; otherwise the token the character starts, if any. */
    method Begin(pos: Pos, c: char) returns (r: Result<Option<Pending>>)
      modifies this
      ensures comment == old(comment)
      ensures match Classify(c)
        case Blank => str == old(str) && r == Ok(None)
        case Quote => str == Some(OpenString(pos, "")) && r == Ok(None)
        case Begins(st) => str == old(str) && r == Ok(Some(Pending(pos, st)))
        case Unexpected => str == old(str) && r == Err(UnexpectedCharacter(pos))
    {
      match Classify(c)
      case Quote =>
        str := Some(OpenString(pos, ""));
        return Ok(None);
      case Blank =>
        return Ok(None);
      case Begins(st) =>
        return Ok(Some(Pending(pos, st)));
      case Unexpected =>
        return Err(UnexpectedCharacter(pos));
    }

    /**
      `run`: tokenizes line `lineNum`, appending to `queue`. The new state of
      `Inner`, the queue handed back and the result are those of `RunLine`.
     */
    method Run(lineNum: nat, line: string, queue: seq<Item>) returns (q: seq<Item>, r: Result<()>)
      requires Fits(lineNum)
      modifies this
      ensures Fits(lineNum + 1)
      ensures var o := RunLine(lineNum, line, old(comment), old(str), queue);
        comment == o.s.comment && str == o.s.str && q == o.s.queue && r == o.result
    {
      ghost var outcome := RunLine(lineNum, line, comment, str, queue);
      q := queue;
      var prev: Option<Pending> := None;
      var i := 0;
      while i < |line|
        invariant ScanInv(lineNum, line, i, Scan(comment, str, prev, q))
        invariant RunFrom(lineNum, line, i, Scan(comment, str, prev, q)) == outcome
        decreases |line| - i
      {
        ghost var s := Scan(comment, str, prev, q);
        var index, c := i, line[i];
        i := i + 1;
        var pos := Pos(lineNum, index);
        if comment != [] {
          // inside a block comment
          if c == '*' {
            if i < |line| && line[i] == '/' {
              i := i + 1;
              comment := comment[..|comment| - 1];
            }
          } else if c == '/' {
            if i < |line| && line[i] == '*' {
              i := i + 1;
              comment := comment + [pos];
            } else if i < |line| && line[i] == '/' {
              ModeStop(lineNum, line, index, s, s, Ok(()));
              return q, Ok(());
            }
          }
          ModeContinue(lineNum, line, index, s, Scan(comment, str, prev, q), i);
          continue;
        }
        if str.Some? {
          if c == '"' {
            // the literal ends; it is pushed when the next character is seen
            prev := Some(Pending(str.value.start, State.String(str.value.text)));
            str := None;
          } else {
            var d := c;
            if c == '\\' {
              if i == |line| {
                ModeStop(lineNum, line, index, s, s, Err(NoCharacterAfterBackSlash(pos)));
                return q, Err(NoCharacterAfterBackSlash(pos));
              }
              d := Unescape(line[i]);
              i := i + 1;
            }
            str := Some(str.value.(text := str.value.text + [d]));
          }
          ModeContinue(lineNum, line, index, s, Scan(comment, str, prev, q), i);
          continue;
        }
        match prev
        case None =>
          var b := Begin(pos, c);
          if b.Err? {
            ModeStop(lineNum, line, index, s, s, Err(b.error));
            return q, Err(b.error);
          }
          prev := b.value;
          ModeContinue(lineNum, line, index, s, Scan(comment, str, prev, q), i);
        case Some(p) =>
          if p.state.Slash? && c == '/' {
            // a line comment: the `/` is dropped with the rest of the line
            ModeStop(lineNum, line, index, s, s, Ok(()));
            return q, Ok(());
          } else if p.state.Slash? && c == '*' {
            comment := comment + [p.start];
            prev := None;
            ModeContinue(lineNum, line, index, s, Scan(comment, str, prev, q), i);
          } else {
            var next := Transition(p.state, c);
            if next.Some? {
              prev := Some(Pending(p.start, next.value));
              ModeContinue(lineNum, line, index, s, Scan(comment, str, prev, q), i);
            } else {
              var t := Finalize(p.state, line, p.start, pos);
              if t.Err? {
                ModeStop(lineNum, line, index, s, s, Err(t.error));
                return q, Err(t.error);
              }
              q := q + [Item(NewRange(p.start, pos), t.value)];
              prev := None;
              ghost var pushed := Scan(comment, str, prev, q);
              var b := Begin(pos, c);
              if b.Err? {
                ModeStop(lineNum, line, index, s, pushed, Err(b.error));
                return q, Err(b.error);
              }
              prev := b.value;
              ModeContinue(lineNum, line, index, s, Scan(comment, str, prev, q), i);
            }
          }
      }
      r := if prev.Some? then Err(NoLineFeedAtEOF) else Ok(());
    }
  }

  /** What the reader guarantees: every line is non-empty, has a line feed only as its last character, and all but the last line end in one. */
  ghost predicate WellFormedInput(input: seq<string>) {
    forall k :: 0 <= k < |input| ==>
      && |input[k]| > 0
      && (k + 1 < |input| ==> input[k][|input[k]| - 1] == '\n')
      && (forall j :: 0 <= j < |input[k]| - 1 ==> input[k][j] != '\n')
  }

  /** What the lexer and its caller hold between calls: the cursor, `Inner`, the queue and the log. */
  datatype Reader = Reader(cursor: nat, comment: seq<Pos>, str: Option<OpenString>, queue: seq<Item>, log: seq<string>)

  ghost predicate ReaderFits(input: seq<string>, st: Reader) {
    st.cursor <= |input| && Automaton.Fits(st.comment, st.str, |st.log|)
  }

  /**
    One `read` as a value: the next line is run as line `|log|` and logged,
    or at the end of input an open comment, then an open string, is reported.
   */
  ghost function ReadStep(input: seq<string>, st: Reader): (o: (Reader, Result<bool>))
    requires ReaderFits(input, st)
    ensures ReaderFits(input, o.0)
    ensures st.cursor <= o.0.cursor && st.queue <= o.0.queue
    ensures o.0.log == st.log + input[st.cursor..o.0.cursor]
    ensures o.1 == Ok(true) ==> o.0.cursor == st.cursor + 1
  {
    if st.cursor < |input| then
      var line := input[st.cursor];
      var run := RunLine(|st.log|, line, st.comment, st.str, st.queue);
      assert input[st.cursor..st.cursor + 1] == [line];
      (Reader(st.cursor + 1, run.s.comment, run.s.str, run.s.queue, st.log + [line]),
       if run.result.Ok? then Ok(true) else Err(run.result.error))
    else if st.comment != [] then
      (st.(comment := st.comment[..|st.comment| - 1]), Err(UnterminatedComment(st.comment[|st.comment| - 1])))
    else if st.str.Some? then
      (st.(str := None), Err(UnterminatedStringLiteral(st.str.value.start)))
    else
      (st, Ok(false))
  }

  /**
    The loop of `next` and `ask`: read lines while the queue is empty, until a
    line queues a token (`Ok(true)`), a read fails, or the input is exhausted
    with nothing open (`Ok(false)`).
   */
  ghost function Pull(input: seq<string>, st: Reader): (o: (Reader, Result<bool>))
    requires ReaderFits(input, st)
    ensures ReaderFits(input, o.0)
    ensures st.cursor <= o.0.cursor && st.queue <= o.0.queue
    ensures o.0.log == st.log + input[st.cursor..o.0.cursor]
    ensures st.queue != [] ==> o == (st, Ok(true))
    ensures o.1 == Ok(true) ==> o.0.queue != []
    ensures o.1 == Ok(false) ==>
      o.0.queue == [] && o.0.cursor == |input| && o.0.comment == [] && o.0.str == None
    decreases |input| - st.cursor
  {
    if st.queue != [] then (st, Ok(true))
    else
      var (st', r) := ReadStep(input, st);
      if r == Ok(true) then
        var o := Pull(input, st');
        assert input[st.cursor..o.0.cursor] == input[st.cursor..st'.cursor] + input[st'.cursor..o.0.cursor];
        o
      else (st', r)
  }

  /** A read on an empty queue either hands the loop on to the state it leaves or ends it. */
  lemma PullRead(input: seq<string>, st: Reader, st': Reader, r: Result<bool>)
    requires ReaderFits(input, st) && st.queue == [] && ReadStep(input, st) == (st', r)
    ensures ReaderFits(input, st')
    ensures r == Ok(true) ==> Pull(input, st) == Pull(input, st')
    ensures r != Ok(true) ==> Pull(input, st) == (st', r)
  {
  }

  class Lexer {
    /** The lines of the reader, in order. */
    const input: seq<string>
    /** Whether a prompt is echoed before each read (output only). */
    const prompt: bool
    /** How many lines have been read. */
    var cursor: nat
    const inner: Inner
    var queue: seq<Item>
    /** Every token ever pushed, in order; `queue` is what has not been taken yet. */
    ghost var emitted: seq<Item>
    /** How many tokens `Next` has taken. */
    ghost var taken: nat

    /** Nothing is queued, the reader is exhausted and nothing is left open. */
    ghost predicate Drained(q: seq<Item>, at: nat, comment: seq<Pos>, str: Option<OpenString>)
      reads this
    {
      q == [] && at == |input| && comment == [] && str == None
    }

    ghost predicate Valid()
      reads this
    {
      && WellFormedInput(input)
      && cursor <= |input|
      && taken <= |emitted|
      && queue == emitted[taken..]
    }

    constructor (input: seq<string>, prompt: bool)
      requires WellFormedInput(input)
      ensures Valid() && fresh(inner)
      ensures this.input == input && this.prompt == prompt && cursor == 0
      ensures queue == [] && emitted == [] && taken == 0
      ensures inner.comment == [] && inner.str == None
    {
      this.input := input;
      this.prompt := prompt;
      cursor := 0;
      inner := new Inner();
      queue := [];
      emitted := [];
      taken := 0;
    }

    /**
      `read`: runs the next line of the reader with line number `|log|` and
      appends it to the log whatever the result. At the end of input it reports
      an open comment (popping its innermost start), else an open string
      (taking it), else `false`.
     */
    method Read(log: seq<string>) returns (log': seq<string>, r: Result<bool>)
      requires Valid() && inner.Fits(|log|)
      modifies this, inner
      ensures Valid() && inner.Fits(|log'|)
      ensures taken == old(taken) && old(emitted) <= emitted
      ensures old(cursor) < |input| ==>
        var line := input[old(cursor)];
        var o := RunLine(|log|, line, old(inner.comment), old(inner.str), old(queue));
        && cursor == old(cursor) + 1 && log' == log + [line]
        && inner.comment == o.s.comment && inner.str == o.s.str
        && queue == o.s.queue
        && r == (if o.result.Ok? then Ok(true) else Err(o.result.error))
      ensures old(cursor) == |input| ==>
        && cursor == old(cursor) && log' == log && queue == old(queue) && emitted == old(emitted)
        && if old(inner.comment) != [] then
             && r == Err(UnterminatedComment(old(inner.comment)[|old(inner.comment)| - 1]))
             && inner.comment == old(inner.comment)[..|old(inner.comment)| - 1] && inner.str == old(inner.str)
           else if old(inner.str).Some? then
             && r == Err(UnterminatedStringLiteral(old(inner.str).value.start))
             && inner.comment == old(inner.comment) && inner.str == None
           else
             && r == Ok(false)
             && inner.comment == old(inner.comment) && inner.str == old(inner.str)
      ensures r.Err? ==> !r.error.ParseFloatFailure?
      ensures r == Err(NoLineFeedAtEOF) ==> cursor == |input|
      ensures ReadStep(input, Reader(old(cursor), old(inner.comment), old(inner.str), old(queue), log))
        == (Reader(cursor, inner.comment, inner.str, queue, log'), r)
    {
      if cursor < |input| {
        var line := input[cursor];
        cursor := cursor + 1;
        AutomatonLemmas.NumbersAlwaysParse(|log|, line, inner.comment, inner.str, queue);
        AutomatonLemmas.LineFeedEndsTokens(|log|, line, inner.comment, inner.str, queue);
        var q, result := inner.Run(|log|, line, queue);
        emitted := emitted + q[|queue|..];
        queue := q;
        log' := log + [line];
        r := if result.Ok? then Ok(true) else Err(result.error);
      } else if inner.comment != [] {
        var pos := inner.comment[|inner.comment| - 1];
        inner.comment := inner.comment[..|inner.comment| - 1];
        log', r := log, Err(UnterminatedComment(pos));
      } else if inner.str.Some? {
        var pos := inner.str.value.start;
        inner.str := None;
        log', r := log, Err(UnterminatedStringLiteral(pos));
      } else {
        log', r := log, Ok(false);
      }
    }

    /**
      The loop shared by `next` and `ask`: reads lines while the queue is
      empty, until one queues a token (`true`), a read fails, or the reader is
      exhausted with nothing left open (`false`).
     */
    method Fill(log: seq<string>) returns (log': seq<string>, r: Result<bool>)
      requires Valid() && inner.Fits(|log|)
      modifies this, inner
      ensures Valid() && inner.Fits(|log'|)
      ensures taken == old(taken) && old(emitted) <= emitted
      ensures (Reader(cursor, inner.comment, inner.str, queue, log'), r)
        == Pull(input, Reader(old(cursor), old(inner.comment), old(inner.str), old(queue), log))
      ensures r.Err? ==> !r.error.ParseFloatFailure?
    {
      log' := log;
      ghost var target := Pull(input, Reader(cursor, inner.comment, inner.str, queue, log));
      while queue == []
        invariant Valid() && inner.Fits(|log'|)
        invariant taken == old(taken) && old(emitted) <= emitted
        invariant Pull(input, Reader(cursor, inner.comment, inner.str, queue, log')) == target
        decreases |input| - cursor
      {
        ghost var st := Reader(cursor, inner.comment, inner.str, queue, log');
        var more;
        log', more := Read(log');
        PullRead(input, st, Reader(cursor, inner.comment, inner.str, queue, log'), more);
        if more != Ok(true) {
          return log', more;
        }
      }
      r := Ok(true);
    }

    /**
      `next`: the next token in the order they were pushed, reading lines only
      while the queue is empty; `None` once the reader is exhausted with
      nothing left open.
     */
    method Next(log: seq<string>) returns (log': seq<string>, r: Result<Option<Item>>)
      requires Valid() && inner.Fits(|log|)
      modifies this, inner
      ensures Valid() && inner.Fits(|log'|)
      ensures old(emitted) <= emitted && old(cursor) <= cursor
      ensures log' == log + input[old(cursor)..cursor]
      ensures old(queue) != [] ==>
        && r == Ok(Some(old(queue)[0])) && queue == old(queue)[1..]
        && cursor == old(cursor) && emitted == old(emitted)
        && inner.comment == old(inner.comment) && inner.str == old(inner.str)
      ensures r.Ok? && r.value.Some? ==>
        old(taken) < |emitted| && r.value.value == emitted[old(taken)] && taken == old(taken) + 1
      ensures r.Ok? && r.value.None? ==>
        && old(queue) == [] && queue == [] && taken == old(taken)
        && cursor == |input| && inner.comment == [] && inner.str == None
      ensures Drained(old(queue), old(cursor), old(inner.comment), old(inner.str)) ==> r == Ok(None)
      ensures r.Err? ==> old(queue) == [] && taken == old(taken) && !r.error.ParseFloatFailure?
      ensures var p := Pull(input, Reader(old(cursor), old(inner.comment), old(inner.str), old(queue), log));
        && cursor == p.0.cursor && inner.comment == p.0.comment && inner.str == p.0.str && log' == p.0.log
        && (p.1 == Ok(true) ==> r == Ok(Some(p.0.queue[0])) && queue == p.0.queue[1..])
        && (p.1 == Ok(false) ==> r == Ok(None) && queue == p.0.queue)
        && (p.1.Err? ==> r == Err(p.1.error) && queue == p.0.queue)
    {
      var more;
      log', more := Fill(log);
      if more.Err? {
        return log', Err(more.error);
      }
      if !more.value {
        return log', Ok(None);
      }
      var item := queue[0];
      queue := queue[1..];
      taken := taken + 1;
      r := Ok(Some(item));
    }

    /**
      `ask`: applies `fnc` to the front token without taking it, reading lines
      only while the queue is empty; `false` once the reader is exhausted.
     */
    method Ask(fnc: Token -> bool, log: seq<string>) returns (log': seq<string>, r: Result<bool>)
      requires Valid() && inner.Fits(|log|)
      modifies this, inner
      ensures Valid() && inner.Fits(|log'|)
      ensures taken == old(taken) && old(emitted) <= emitted && old(queue) <= queue
      ensures old(cursor) <= cursor && log' == log + input[old(cursor)..cursor]
      ensures old(queue) != [] ==>
        && r == Ok(fnc(old(queue)[0].token)) && queue == old(queue)
        && cursor == old(cursor) && emitted == old(emitted)
        && inner.comment == old(inner.comment) && inner.str == old(inner.str)
      ensures r.Ok? && queue != [] ==> r.value == fnc(queue[0].token)
      ensures r.Ok? && queue == [] ==>
        && r == Ok(false) && cursor == |input| && inner.comment == [] && inner.str == None
      ensures Drained(old(queue), old(cursor), old(inner.comment), old(inner.str)) ==>
        r == Ok(false) && Drained(queue, cursor, inner.comment, inner.str)
      ensures r.Err? ==> old(queue) == [] && !r.error.ParseFloatFailure?
      ensures var p := Pull(input, Reader(old(cursor), old(inner.comment), old(inner.str), old(queue), log));
        && cursor == p.0.cursor && inner.comment == p.0.comment && inner.str == p.0.str
        && log' == p.0.log && queue == p.0.queue
        && r == (if p.1 == Ok(true) then Ok(fnc(p.0.queue[0].token)) else p.1)
    {
      var more;
      log', more := Fill(log);
      if more == Ok(true) {
        r := Ok(fnc(queue[0].token));
      } else {
        r := more;
      }
    }
  }

  /**
    Asking about the front token and then taking it sees the same token:
    `front` is the token `Ask` looked at, if any, and `Next` returns exactly it.
   */
  method AskThenNext(lexer: Lexer, fnc: Token -> bool, log: seq<string>)
    returns (answer: Result<bool>, item: Result<Option<Item>>, log': seq<string>, ghost front: Option<Item>)
    requires lexer.Valid() && lexer.inner.Fits(|log|)
    modifies lexer, lexer.inner
    ensures answer.Ok? ==> item.Ok? && item.value == front
    ensures old(lexer.emitted) <= lexer.emitted
    ensures old(lexer.queue) != [] ==> answer.Ok? && front == Some(old(lexer.queue)[0])
    ensures front.Some? ==> answer == Ok(fnc(front.value.token))
    ensures front.Some? ==>
      old(lexer.taken) < |lexer.emitted| && front.value == lexer.emitted[old(lexer.taken)]
    ensures answer.Ok? && front.None? ==> answer == Ok(false) && item == Ok(None)
    ensures answer.Err? ==> front.None? && item == Err(answer.error)
  {
    log' := log;
    log', answer := lexer.Ask(fnc, log');
    if answer.Err? {
      return answer, Err(answer.error), log', None;
    }
    front := if lexer.queue != [] then Some(lexer.queue[0]) else None;
    log', item := lexer.Next(log');
  }

  /** Two questions in a row are asked of the same front token. */
  method AskTwice(lexer: Lexer, f: Token -> bool, g: Token -> bool, log: seq<string>)
    returns (first: Result<bool>, second: Result<bool>, log': seq<string>)
    requires lexer.Valid() && lexer.inner.Fits(|log|)
    modifies lexer, lexer.inner
    ensures first.Ok? ==> second.Ok?
    ensures first.Ok? && lexer.queue != [] ==>
      first.value == f(lexer.queue[0].token) && second.value == g(lexer.queue[0].token)
  {
    log', first := lexer.Ask(f, log);
    if first.Err? {
      second := first;
      return;
    }
    log', second := lexer.Ask(g, log');
  }
}
