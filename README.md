# A verified model of the line-oriented tokenizer and source positions

This project is a Dafny model of the tokenizer of a small scripting
language. The tokenizer reads its input one line at a time
(`src/lexer.rs`), and the project also models the position and range values
that it attaches to tokens and diagnostics (`src/pos.rs`).

- **Positions** (`pos.dfy`, module `Positions`).
  - `Pos` is a 0-indexed line and byte. Its derived order is lexicographic.
  - `Range` is a half-open span with `start <= end`. Spans are joined by `Add`.
  - The `Display` and `Debug` renderings are modelled with readers that
    invert them.
  - `Pos::print` and `Range::print` rebuild the offending source lines from
    the log, with the ` !-> ` and ` <-! ` markers. They are modelled as
    functions returning the written text.
- **Tokens and errors** (`token.dfy`, `error.dfy`).
  - The token type holds the variants the tokenizer produces, including the
    keyword table.
  - The error type holds the nine lexical failures.
- **The automaton** (`automaton.dfy`, module `Automaton`). This is the
  functional specification of `Inner::run`:
  - the token states and the maximal-munch transition table;
  - `begin` (`Classify`/`BeginStep`) and token finalization (`Finalize`);
  - one iteration of the per-character loop, in four modes: inside a block
    comment, inside a string literal, no token pending, and a token pending;
  - `RunFrom`/`RunLine`, which fold that step over a line.
- **Properties of the automaton** (`automaton_lemmas.dfy`):
  - keyword and parameter finalization;
  - the error states;
  - the block-comment stack discipline;
  - the escape table, and a round trip from text through an escaped literal
    back to a string token;
  - the end-of-line rule;
  - the order of the pushed ranges;
  - a number the automaton accepts always parses;
  - a few concrete lines.
- **The stateful lexer** (`lexer.dfy`, module `Lexer`).
  - The class `Inner` has the comment stack and the open string as fields.
    Its `Run` is a `while` loop proved equal to `RunLine`.
  - The class `Lexer` is the pull driver, with `Read`, `Next` (FIFO) and
    `Ask` (peek without consuming). The read loop that `next` and `ask` share
    is the method `Fill`.
  - `ReadStep` and `Pull` state one `read` and that loop as functions of the
    cursor, `Inner`, the queue and the log. `Read`, `Fill`, `Next` and `Ask`
    are proved to leave exactly the state and result they compute.
  - The reader is the sequence of lines that `read_line` would return, plus a
    cursor.
  - The caller's log is passed in and handed back.

Behaviour of the code that is easy to misread, and that the model follows:

- At end of input, `read` reports the **innermost** open block comment:
  `Vec::pop` returns the most recently pushed start (`src/lexer.rs:393`), not
  the outermost one.
- The keyword table has **nine** entries (`src/lexer.rs:150-158`): `if else while for let def break continue return`.
- A string token may span lines. Its range starts at the opening quote, which
  can be on an earlier line. Every other token starts and ends on the line
  being read (`RunLineOrdered`).
- `src/error.rs:14` names the float-parse variant `ParseFloatError`, while
  `src/lexer.rs:168` constructs `ParseFloatFailure`. The model has one
  variant, `ParseFloatFailure`.
- `ParseFloatFailure` can never occur. The automaton only finishes a number
  whose text is in the float grammar, so the parse at `src/lexer.rs:165`
  never fails (`NumbersAlwaysParse`).

## Model

| member | source | states |
|---|---|---|
| Positions.DisplayPos | src/pos.rs:40-45 | Display `Pos` as `line+1:byte+1`. Its contract is `DisplayPosOneIndexed`. |
| Positions.DebugPos | src/pos.rs:46-51 | Debug `Pos` as `line:byte`. Its contract is `DebugPosRoundTrip`. |
| Positions.DisplayRange | src/pos.rs:52-64 | Display `Range`. Its contracts are `DisplayRangeOneIndexed` and `DisplayRangeClosed`. |
| Positions.DebugRange | src/pos.rs:65-70 | Debug `Range` as `[start, end)`. Its contract is `DebugRangeRoundTrip`. |
| Positions.PrintPos | src/pos.rs:72-82 | `Pos::print` as the text it writes. Its contract is `PrintPosMarks`. |
| Positions.PrintRange | src/pos.rs:83-120 | `Range::print` as the text it writes. Its contracts are `PrintRangeMarks`, `PrintRangeOneLine` and `PrintRangeSeveralLines`. |
| Positions.PosOrder | src/pos.rs:9-15 | `Le` coincides with lexicographic order on `[line, byte]`. It is reflexive, antisymmetric, transitive and total. `Lt` is strictly smaller line, or the same line and a smaller byte. |
| Positions.NewRange | src/pos.rs:33-36 | Constructing a range needs `start <= end`. The result is a valid range with exactly those ends. |
| Positions.Add | src/pos.rs:122-151 | All four `Add` impls need `a.end <= b.start`. The result is a valid range. A position lies in it iff it lies in `a`, in the gap between `a` and `b`, or in `b`. |
| Positions.AddAssociative | src/pos.rs:122-151 | Joining three spans in source order gives the same span under either grouping. |
| Positions.NatToStringRoundTrip | src/pos.rs:43 | The decimal rendering of a number reads back as that number. |
| Positions.DebugPosRoundTrip | src/pos.rs:46-51 | Debug `Pos` is `line:byte`, 0-indexed, and parses back to the same position. |
| Positions.DisplayPosOneIndexed | src/pos.rs:40-45 | Display `Pos` shows `line+1:byte+1`. |
| Positions.DisplayRangeOneIndexed | src/pos.rs:52-64 | Display `Range` shows `sl+1:sb+1-el+1:eb`. The end byte is not incremented. |
| Positions.DisplayRangeClosed | src/pos.rs:52-64 | For an end byte above 0, Display `Range` is the Display of the start and of the last byte inside the range. This makes it a 1-indexed closed span. |
| Positions.DebugRangeRoundTrip | src/pos.rs:65-70 | Debug `Range` is `[start, end)` and parses back to the same range. |
| Positions.PrintPosMarks | src/pos.rs:72-82 | The printed line is the log line with the marker at `byte`. Deleting the marker gives back the line. |
| Positions.PrintRangeOneLine | src/pos.rs:92-100 | On one line, the output is prefix, open marker, covered text, close marker, suffix. Together they make that line. |
| Positions.PrintRangeSeveralLines | src/pos.rs:101-118 | Over several lines, the output is the first line split at the start byte, the middle lines verbatim, and the last line split at the end byte. |
| Positions.PrintRangeMarks | src/pos.rs:83-120 | The output is `Concat(log[start.line..=end.line])` with the open marker at the start byte and the close marker at the end. Deleting both markers gives that text back. |
| Tokens.Keyword | src/lexer.rs:149-160 | The keyword table, from spelling to token. Its contract is `KeywordTableInverse`. |
| Automaton.Transition | src/lexer.rs:107-145 | The maximal-munch transition table of the token states. Its contracts are `TransitionLexeme` for the numeric states, `OperatorRoundTrip` for the operators and `IdentifierRoundTrip` for identifiers. |
| Automaton.Classify | src/lexer.rs:236-274 | What a character begins with nothing pending. Its contracts are `Lexer.Inner.Begin` and `Automaton.BeginStep`. |
| Automaton.Unescape | src/lexer.rs:90-101 | The escape table. Its contract is `UnescapeTable`. |
| Automaton.Finalize | src/lexer.rs:146-216 | Finishing a pending token. Its contracts are `FinalizeIdentifier`, `FinalizeParameter` and `FinalizeErrors`. |
| Automaton.KeywordOrIdentifier | src/lexer.rs:149-160 | Identifier text through the keyword table. Its contract is `FinalizeIdentifier`. |
| Automaton.FinalizeNumber | src/lexer.rs:165-173 | A number's text through `f64::from_str`. Its contracts are `FinalizeErrors` and `LexemeParses`. |
| Tokens.OperatorText | src/lexer.rs:543-575 | The spelling of each operator and punctuation token, as listed by the `operators` test. Its contract is `OperatorRoundTrip`. |
| Tokens.KeywordTableInverse | src/lexer.rs:149-160 | A text maps to a keyword token iff that token's spelling is the text. |
| Automaton.CommentStep | src/lexer.rs:55-80 | Inside a comment, a step never touches the queue, the string or the pending token. It only stops on `//`, with `Ok`, leaving everything as it was. |
| Automaton.StringStep | src/lexer.rs:81-104 | Inside a string, a step never touches the queue or the comment stack. A stop leaves the state as it was. |
| Automaton.BeginStep | src/lexer.rs:236-274 | `begin` consumes one character. It never touches the queue or the comment stack, and a failure leaves the state as it was. |
| Automaton.TokenStep | src/lexer.rs:105-227 | With a token pending, a step only appends to the queue, at most one item, and keeps the loop invariant. |
| Automaton.Step | src/lexer.rs:53-227 | One iteration moves forward, keeps the loop invariant and appends at most one item. |
| Automaton.RunFrom | src/lexer.rs:51-233 | The rest of `run` only appends to the queue. It leaves at most one of a comment and a string open. |
| Automaton.RunLine | src/lexer.rs:45-234 | `run` only appends to the queue. It leaves `Inner` fit to read the next line. |
| AutomatonLemmas.FinalizeIdentifier | src/lexer.rs:149-160 | Identifier text in the nine-word table becomes the keyword spelled that way. Any other text becomes `Identifier(text)`. |
| AutomatonLemmas.FinalizeParameter | src/lexer.rs:161-163 | Parameter text always becomes `Parameter(text)` and is never a keyword. |
| AutomatonLemmas.FinalizeErrors | src/lexer.rs:164-215 | `IncompleteScientificNotation` iff the state is `ScientificIncomplete` or `ScientificSign`. `SingleAmpersand` iff `Ampersand`. `SingleDot` iff `Dot`. A number state gives `Number(text)` when the text is in the float grammar, else `ParseFloatFailure`. No other state fails. |
| AutomatonLemmas.CommentDiscipline | src/lexer.rs:55-80 | Inside a comment, `*/` pops one start and `/*` pushes the current position, each consuming two characters. `//` stops with the stack unchanged. Any other character changes nothing. |
| AutomatonLemmas.CommentAbsorbs | src/lexer.rs:55-80 | With a comment open and no `*/` in the rest of the line, the line ends with `Ok`. Nothing is pushed or opened, and the stack only grows. |
| AutomatonLemmas.CommentOpensOutside | src/lexer.rs:131-145 | With no token pending, `/*` opens a comment at the `/` and leaves no pending token. `//` ends the line with `Ok`. |
| AutomatonLemmas.SlashPending | src/lexer.rs:131-145 | With a `/` pending, even right after another token, `*` opens a comment at the `/` and drops the pending token. A second `/` ends the line with `Ok` and leaves everything as it was. |
| AutomatonLemmas.CommentAfterToken | src/lexer.rs:131-145 | On `a/*` and a line feed, the identifier `a` over `[0, 1)` is pushed, and a comment opens at byte 1 and stays open. |
| AutomatonLemmas.StringDiscipline | src/lexer.rs:81-104 | Inside a string, `"` closes it as the pending token. A backslash at the end of the line fails at its position. A backslash before a character appends its unescaped form. Anything else, including a line feed, is appended verbatim. |
| AutomatonLemmas.UnescapeTable | src/lexer.rs:90-101 | `n`, `r`, `t` and `0` become LF, CR, TAB and NUL. Every other character stands for itself. |
| AutomatonLemmas.ScanEscaped | src/lexer.rs:88-103 | Reading the escaped form of a text inside a string appends exactly that text. |
| AutomatonLemmas.OpenQuote | src/lexer.rs:241-246 | With nothing open, `"` opens an empty string at its own position. |
| AutomatonLemmas.CloseQuote | src/lexer.rs:81-87 | `"` inside a string closes it and leaves it pending as a string token. |
| AutomatonLemmas.LiteralClose | src/lexer.rs:81-87 | A closing `"` followed by the final line feed pushes the string token. Its range ends after the quote. |
| AutomatonLemmas.StringLiteralRoundTrip | src/lexer.rs:81-104 | The line `"` + `Escape(t)` + `"\n` pushes exactly one `String(t)` token over the literal, and leaves nothing open. |
| AutomatonLemmas.FinishBeforeBlank | src/lexer.rs:218-223 | A token pending from byte 0 that no transition extends by a blank is finished at the blank and pushed over `[0, |text|)`. The blank and the final line feed push nothing, and the line ends with `Ok`. |
| AutomatonLemmas.SingleCharOperator | src/lexer.rs:236-274 | A character that begins a state which a blank does not extend is one token over `[0, 1)`, followed by a blank and a line feed. |
| AutomatonLemmas.DoubleCharOperator | src/lexer.rs:123-130 | A character that begins a state which the second character extends is read as one token over `[0, 2)`, not two. |
| AutomatonLemmas.OperatorRoundTrip | src/lexer.rs:543-575 | Every operator and punctuation token, spelled out and followed by a blank and a line feed, is read back as exactly that token over its spelling, with nothing left open. `&&`, `==`, `=>`, `->`, `!=`, `||`, `<<` and `>>` are one token each. |
| AutomatonLemmas.IdentifierRun | src/lexer.rs:108-110 | While the characters are identifier characters, the pending identifier keeps its start and only grows. |
| AutomatonLemmas.IdentifierRoundTrip | src/lexer.rs:108-160 | A word `[A-Za-z_][A-Za-z0-9_$]*` followed by a blank and a line feed is read as one token over the whole word: the keyword it spells, else `Identifier(w)`. |
| AutomatonLemmas.StopIsNotEndOfLine | src/lexer.rs:229-233 | No step stops with `NoLineFeedAtEOF`. Only the end of the line raises it. |
| AutomatonLemmas.LineFeedSettles | src/lexer.rs:270 | A step that consumes a final line feed leaves no token pending. |
| AutomatonLemmas.LineFeedRunFrom | src/lexer.rs:229-233 | On a line ending in a line feed, the rest of the run never yields `NoLineFeedAtEOF`. |
| AutomatonLemmas.LineFeedEndsTokens | src/lexer.rs:229-233 | `run` fails with `NoLineFeedAtEOF` only on a non-empty line whose last character is not a line feed. |
| AutomatonLemmas.MissingLineFeed | src/lexer.rs:229-233 | The line `x`, without a line feed, fails with `NoLineFeedAtEOF`, with the identifier still pending. |
| AutomatonLemmas.StepTidy | src/lexer.rs:218 | A step keeps the queue ordered and ending before the pending token, the open string and the current index. What it pushes ends on the current line. |
| AutomatonLemmas.RunFromTidy | src/lexer.rs:218 | The rest of the run keeps the queue ordered. Every item it pushes ends on the current line, and starts there too unless it is a string. |
| AutomatonLemmas.RunLineOrdered | src/lexer.rs:218 | `run` keeps the queue in source order. Each range is non-empty and starts no earlier than the previous one ends. New ranges end on the current line. The order carries over to the next line. |
| AutomatonLemmas.PushedTokenSurvivesError | src/lexer.rs:218-220 | On `a#\n`, the identifier `a` over `[0, 1)` stays queued when `#` fails with `UnexpectedCharacter` at byte 1. |
| AutomatonLemmas.NestedComment | src/lexer.rs:55-80 | On `/*/**/\n`, the inner comment closes and the outer one stays open on the stack. |
| AutomatonLemmas.TransitionLexeme | src/lexer.rs:114-122 | Every transition out of a numeric state extends its text to a valid prefix of a number of the next state. |
| AutomatonLemmas.LexemeParses | src/lexer.rs:164-174 | The text accumulated in `Integer`, `Decimal` or `Scientific` is in the float grammar. |
| AutomatonLemmas.RunFromLexeme | src/lexer.rs:164-174 | The rest of the run never fails with `ParseFloatFailure`. |
| AutomatonLemmas.NumbersAlwaysParse | src/lexer.rs:164-174 | `run` never fails with `ParseFloatFailure`. |
| Lexer.Inner.constructor | src/lexer.rs:22-27 | A new `Inner` has no open comment and no open string. |
| Lexer.Inner.Begin | src/lexer.rs:236-274 | `begin` opens a string on `"` and returns nothing. On whitespace it returns nothing. On a token-start character it returns that token's state at `pos`. Otherwise it fails with `UnexpectedCharacter(pos)`. The comment stack is unchanged. |
| Lexer.Inner.Run | src/lexer.rs:45-234 | The comment stack, the open string, the queue and the result after `run` are exactly those of `RunLine`. The state is fit for the next line. |
| Lexer.Lexer.constructor | src/lexer.rs:364-371 | A new lexer is at the first line with an empty queue and a fresh `Inner`. |
| Lexer.Lexer.Read | src/lexer.rs:375-400 | With a line left, it runs that line as line `|log|`, appends the line to the log whatever the result, and returns `true` or the error. At the end of input it pops the innermost comment start for `UnterminatedComment`, else takes the string for `UnterminatedStringLiteral`, else returns `false`. It never fails with `ParseFloatFailure`. `NoLineFeedAtEOF` only comes from the last line. |
| Lexer.WellFormedInput | src/lexer.rs:383-388 | What `read_line` can return: every line is non-empty, a line feed can only be a line's last character, and every line but the last ends in one. |
| Lexer.ReadStep | src/lexer.rs:375-400 | One `read` as a value. It keeps `Inner` fit for the next line, only appends to the queue, and logs exactly the lines it reads. `true` means exactly one line was read. |
| Lexer.Pull | src/lexer.rs:409-437 | The read loop of `next` and `ask` as a value. A non-empty queue is returned as it is, with `true`. `true` means the queue is non-empty. `false` means the queue is empty, the input is exhausted and nothing is open. The log grows by exactly the lines read. |
| Lexer.PullRead | src/lexer.rs:409-437 | On an empty queue, a `read` that returns `true` hands the loop on to the state it leaves. Any other result ends the loop with that state and result. |
| Lexer.Lexer.Fill | src/lexer.rs:409-437 | The loop shared by `next` and `ask` leaves exactly the cursor, `Inner`, queue and log that `Pull` computes, and returns its result. It never fails with `ParseFloatFailure`. |
| Lexer.Lexer.Next | src/lexer.rs:409-420 | The new state and the result are those of `Pull` from the old state, with the front token popped when `Pull` says `true`. So it returns the queued tokens in the order they were pushed, and reads lines only while the queue is empty. The log grows by the lines read. `None` only when the queue is empty, the input is exhausted and nothing is open. Always `None` once drained. An error only comes from a read on an empty queue. |
| Lexer.Lexer.Ask | src/lexer.rs:422-437 | The new state is that of `Pull` from the old state. The result is `fnc` of the front token when `Pull` says `true`, and `Pull`'s own result otherwise. So it applies `fnc` to the front token without removing it, and reads lines only while the queue is empty. It returns `false` at end of input, and stays drained. |
| Lexer.AskThenNext | src/lexer.rs:409-437 | After a successful `ask`, `next` succeeds and returns exactly the token `ask` looked at (`front`). That token is the next one in push order. `answer` is `fnc` of it. When the queue was non-empty, `ask` succeeds and that token is the old front. Tokens already pushed are kept. When there was no such token, `ask` said `false` and `next` says `None`. |
| Lexer.AskTwice | src/lexer.rs:422-437 | Two successive `ask`s see the same front token. |

## Left out

- The prompt echo, the stdout flush and `BufRead::read_line` (`src/lexer.rs:377-388`) are left out. They are I/O. The reader is the sequence of its lines plus a cursor: each line non-empty, with a line feed only as its last character, and each but possibly the last ending in one. The `prompt` flag is kept as a constant that changes nothing.
- The `f64` value of a number is not modelled, nor the `ParseFloatError` payload. `Number` keeps its text. `f64::from_str` is modelled by its grammar on unsigned finite decimals (`FloatSyntax`).
- UTF-8 is not modelled. A line is a sequence of one-byte characters, so a byte offset is an index and `char_indices` yields consecutive indices.
- `Error::print` (`src/error.rs`) is left out: it only prints, and it does not match the signature of `Pos::print`.
- `Pos::new` and `Pos::byte` are the datatype constructor and field of `Pos`. They need no separate member.
- Integer widths are not modelled. `usize` line and byte numbers are mathematical naturals, since no arithmetic in the core can overflow before a line that long exists.
- `Range::new` and `Add` check `start <= end` only with `debug_assert!`. Here that check is a precondition.
- Lexer.Lexer.Read: requires that the line number `|log|` comes after the line where an open string began, and that a comment and a string are never open together. Both always hold for a log that grows with every line read. The code checks the first only through the `debug_assert!` in `Range::new` (`src/pos.rs:34`); a release build would produce an inverted range otherwise.
- Lexer.Lexer.Next: the queue order proved by `RunLineOrdered` is not carried into the lexer's own invariant, because `Read` may be called with any log.
- Using the lexer again after an error is not specified, because the code defines no recovery.
- `src/function.rs` is not part of this model. It holds floating-point evaluation and WAV output through a foreign crate.
- The floating-point unit tests (`src/lexer.rs:465-515`) are not part of this model, because they are about `f64` values.
