/**
  Source positions and half-open ranges, their renderings, and the excerpt
  printer used by diagnostics (`src/pos.rs`).
 */
module Positions {
  import opened Util

  /** A point in the source: 0-indexed line number and 0-indexed byte offset in that line. */
  datatype Pos = Pos(line: nat, byte: nat)

  /** The order Rust derives for `Pos`: compare `line`, then `byte`. */
  predicate Le(a: Pos, b: Pos) {
    a.line < b.line || (a.line == b.line && a.byte <= b.byte)
  }

  predicate Lt(a: Pos, b: Pos) {
    Le(a, b) && a != b
  }

  /** Lexicographic order on sequences of naturals: the reference for a derived `Ord` over fields. */
  predicate SeqLe(s: seq<nat>, t: seq<nat>) {
    s == [] || (t != [] && (s[0] < t[0] || (s[0] == t[0] && SeqLe(s[1..], t[1..]))))
  }

  /** `Le` is the field-by-field lexicographic order, and it is a total order. */
  lemma PosOrder(a: Pos, b: Pos, c: Pos)
    ensures Le(a, b) <==> SeqLe([a.line, a.byte], [b.line, b.byte])
    ensures Lt(a, b) <==> a.line < b.line || (a.line == b.line && a.byte < b.byte)
    ensures Le(a, a)
    ensures Le(a, b) && Le(b, a) ==> a == b
    ensures Le(a, b) && Le(b, c) ==> Le(a, c)
    ensures Le(a, b) || Le(b, a)
  {
    assert [a.line, a.byte][1..] == [a.byte];
    assert [b.line, b.byte][1..] == [b.byte];
    assert [a.byte][1..] == [] && [b.byte][1..] == [];
    assert SeqLe([a.byte], [b.byte]) <==> a.byte <= b.byte;
  }

  /** A half-open span `[start, end)` of the source. */
  datatype Range = Range(start: Pos, end: Pos) {
    /** The invariant `Range::new` asserts: the span is not inverted. */
    predicate Valid() {
      Le(start, end)
    }

    predicate Contains(p: Pos) {
      Le(start, p) && Lt(p, end)
    }
  }

  /** `Range::new`: the debug assertion `start <= end` becomes a precondition. */
  function NewRange(start: Pos, end: Pos): (r: Range)
    requires Le(start, end)
    ensures r.Valid() && r.start == start && r.end == end
  {
    Range(start, end)
  }

  /**
    The four `Add` impls (by value and by reference on either side) all compute
    this: the span from the start of `a` to the end of `b`, for `a` before `b`.
   */
  function Add(a: Range, b: Range): (r: Range)
    requires a.Valid() && b.Valid() && Le(a.end, b.start)
    ensures r.Valid()
    ensures forall p :: r.Contains(p) <==> a.Contains(p) || Range(a.end, b.start).Contains(p) || b.Contains(p)
  {
    NewRange(a.start, b.end)
  }

  /** Concatenating three spans in source order does not depend on the grouping. */
  lemma AddAssociative(a: Range, b: Range, c: Range)
    requires a.Valid() && b.Valid() && c.Valid()
    requires Le(a.end, b.start) && Le(b.end, c.start)
    ensures Le(Add(a, b).end, c.start) && Le(a.end, Add(b, c).start)
    ensures Add(Add(a, b), c) == Add(a, Add(b, c))
  {
  }

  // ---------------------------------------------------------------------------
  // Decimal rendering of naturals (what `{}` does for a `usize`)

  function DigitChar(d: nat): (c: char)
    requires d < 10
    ensures IsDigit(c) && c as int - '0' as int == d
  {
    (('0' as int) + d) as char
  }

  function NatToString(n: nat): (s: string)
    ensures |s| > 0 && AllDigits(s)
    decreases n
  {
    if n < 10 then [DigitChar(n)] else NatToString(n / 10) + [DigitChar(n % 10)]
  }

  /** The value of a string of decimal digits. */
  function DigitsValue(s: string): nat
    requires AllDigits(s)
  {
    if s == [] then 0 else 10 * DigitsValue(s[..|s| - 1]) + (s[|s| - 1] as int - '0' as int)
  }

  function ParseNat(s: string): Option<nat> {
    if |s| > 0 && AllDigits(s) then Some(DigitsValue(s)) else None
  }

  lemma {:induction false} NatToStringRoundTrip(n: nat)
    ensures ParseNat(NatToString(n)) == Some(n)
    decreases n
  {
    var s := NatToString(n);
    if n >= 10 {
      NatToStringRoundTrip(n / 10);
      assert s[..|s| - 1] == NatToString(n / 10);
      assert DigitsValue(s) == 10 * (n / 10) + n % 10;
    }
  }

  // ---------------------------------------------------------------------------
  // Renderings

  /** `Display for Pos`: 1-indexed `line:byte`. */
  function DisplayPos(p: Pos): string {
    NatToString(p.line + 1) + ":" + NatToString(p.byte + 1)
  }

  /** `Debug for Pos`: 0-indexed `line:byte`. */
  function DebugPos(p: Pos): string {
    NatToString(p.line) + ":" + NatToString(p.byte)
  }

  /** `Display for Range`: 1-indexed closed span; the end byte is not incremented. */
  function DisplayRange(r: Range): string {
    NatToString(r.start.line + 1) + ":" + NatToString(r.start.byte + 1) + "-"
    + NatToString(r.end.line + 1) + ":" + NatToString(r.end.byte)
  }

  /** `Debug for Range`: 0-indexed half-open span `[start, end)`. */
  function DebugRange(r: Range): string {
    "[" + DebugPos(r.start) + ", " + DebugPos(r.end) + ")"
  }

  /** Reads back `line:byte` as rendered by `DebugPos`. */
  function ParsePos(s: string): Option<Pos> {
    var k := IndexOf(s, ':');
    if k == |s| then None
    else match (ParseNat(s[..k]), ParseNat(s[k + 1..]))
      case (Some(line), Some(byte)) => Some(Pos(line, byte))
      case _ => None
  }

  /** Reads back the two `line:byte` halves of a `DisplayRange` text. */
  function ParseDisplayRange(s: string): Option<(Pos, Pos)> {
    var k := IndexOf(s, '-');
    if k == |s| then None
    else match (ParsePos(s[..k]), ParsePos(s[k + 1..]))
      case (Some(a), Some(b)) => Some((a, b))
      case _ => None
  }

  /** Reads back a `DebugRange` text. */
  function ParseDebugRange(s: string): Option<Range> {
    if |s| < 2 || s[0] != '[' || s[|s| - 1] != ')' then None
    else
      var inner := s[1..|s| - 1];
      var k := IndexOf(inner, ',');
      if k + 1 >= |inner| || inner[k + 1] != ' ' then None
      else match (ParsePos(inner[..k]), ParsePos(inner[k + 2..]))
        case (Some(a), Some(b)) => Some(Range(a, b))
        case _ => None
  }

  lemma NoSeparatorInDigits(s: string, c: char)
    requires AllDigits(s) && !IsDigit(c)
    ensures forall j :: 0 <= j < |s| ==> s[j] != c
  {
  }

  /** `ParsePos` inverts the `a:b` shape for any two naturals. */
  lemma ParseColonPair(a: nat, b: nat)
    ensures ParsePos(NatToString(a) + ":" + NatToString(b)) == Some(Pos(a, b))
  {
    var x, y := NatToString(a), NatToString(b);
    var s := x + ":" + y;
    NoSeparatorInDigits(x, ':');
    IndexOfAfter(x, ':', y);
    assert s[..|x|] == x;
    assert s[|x| + 1..] == y;
    NatToStringRoundTrip(a);
    NatToStringRoundTrip(b);
  }

  /** The debug rendering of a position is 0-indexed and can be read back. */
  lemma DebugPosRoundTrip(p: Pos)
    ensures ParsePos(DebugPos(p)) == Some(p)
  {
    ParseColonPair(p.line, p.byte);
  }

  /** The display rendering of a position shows both coordinates 1-indexed. */
  lemma DisplayPosOneIndexed(p: Pos)
    ensures ParsePos(DisplayPos(p)) == Some(Pos(p.line + 1, p.byte + 1))
  {
    ParseColonPair(p.line + 1, p.byte + 1);
  }

  lemma DigitsColonDigits(a: nat, b: nat, c: char)
    requires !IsDigit(c) && c != ':'
    ensures forall j :: 0 <= j < |NatToString(a) + ":" + NatToString(b)| ==> (NatToString(a) + ":" + NatToString(b))[j] != c
  {
    var x, y := NatToString(a), NatToString(b);
    var s := x + ":" + y;
    forall j | 0 <= j < |s| ensures s[j] != c {
      if j < |x| {
        assert s[j] == x[j];
      } else if j > |x| {
        assert s[j] == y[j - |x| - 1];
      }
    }
  }

  /**
    The display rendering of a range shows the start 1-indexed and the end line
    1-indexed with the end byte as is.
   */
  lemma DisplayRangeOneIndexed(r: Range)
    ensures ParseDisplayRange(DisplayRange(r))
         == Some((Pos(r.start.line + 1, r.start.byte + 1), Pos(r.end.line + 1, r.end.byte)))
  {
    var x := NatToString(r.start.line + 1) + ":" + NatToString(r.start.byte + 1);
    var y := NatToString(r.end.line + 1) + ":" + NatToString(r.end.byte);
    var s := DisplayRange(r);
    assert s == x + "-" + y;
    DigitsColonDigits(r.start.line + 1, r.start.byte + 1, '-');
    IndexOfAfter(x, '-', y);
    assert IndexOf(s, '-') == |x|;
    assert s[..|x|] == x;
    assert s[|x| + 1..] == y;
    ParseColonPair(r.start.line + 1, r.start.byte + 1);
    ParseColonPair(r.end.line + 1, r.end.byte);
  }

  /**
    Leaving the end byte as is turns the half-open span into a closed one: when
    the range ends after the first byte of its last line, the end shown is the
    1-indexed position of the last byte inside the range.
   */
  lemma DisplayRangeClosed(r: Range)
    requires r.end.byte > 0
    ensures DisplayRange(r) == DisplayPos(r.start) + "-" + DisplayPos(Pos(r.end.line, r.end.byte - 1))
  {
    var last := Pos(r.end.line, r.end.byte - 1);
    assert DisplayPos(last) == NatToString(r.end.line + 1) + ":" + NatToString(r.end.byte);
  }

  /** `ParseDebugRange` reads `[x, y)` back when `x` holds no comma and both halves parse. */
  lemma ParseBracketed(x: string, y: string, a: Pos, b: Pos)
    requires forall j :: 0 <= j < |x| ==> x[j] != ','
    requires ParsePos(x) == Some(a) && ParsePos(y) == Some(b)
    ensures ParseDebugRange("[" + x + ", " + y + ")") == Some(Range(a, b))
  {
    var s := "[" + x + ", " + y + ")";
    var inner := x + ", " + y;
    assert s[1..|s| - 1] == inner;
    IndexOfAfter(x, ',', " " + y);
    assert inner == x + [','] + (" " + y);
    assert inner[..|x|] == x;
    assert inner[|x| + 2..] == y;
  }

  /** The debug rendering of a range is `[start, end)` with 0-indexed ends and can be read back. */
  lemma DebugRangeRoundTrip(r: Range)
    ensures ParseDebugRange(DebugRange(r)) == Some(r)
  {
    DigitsColonDigits(r.start.line, r.start.byte, ',');
    DebugPosRoundTrip(r.start);
    DebugPosRoundTrip(r.end);
    ParseBracketed(DebugPos(r.start), DebugPos(r.end), r.start, r.end);
  }

  // ---------------------------------------------------------------------------
  // Excerpts of the log with markers (`Pos::print`, `Range::print`)

  const OpenMarker: string := " !-> "
  const CloseMarker: string := " <-! "

  /** `Pos::print`: the line of the log holding `p`, with the marker inserted at `p`. */
  function PrintPos(p: Pos, log: seq<string>): string
    requires p.line < |log| && p.byte <= |log[p.line]|
  {
    log[p.line][..p.byte] + OpenMarker + log[p.line][p.byte..]
  }

  /**
    `Range::print`: the lines of the log that `r` covers, with an opening marker
    at the start and a closing marker at the end. A range over several lines
    prints the first line split at the start, the lines in between as they are,
    and the last line split at the end.
   */
  function PrintRange(r: Range, log: seq<string>): string
    requires r.Valid() && r.end.line < |log|
    requires r.start.byte <= |log[r.start.line]| && r.end.byte <= |log[r.end.line]|
  {
    var s, e := r.start, r.end;
    if s.line == e.line then
      log[s.line][..s.byte] + OpenMarker + log[s.line][s.byte..e.byte] + CloseMarker + log[e.line][e.byte..]
    else
      log[s.line][..s.byte] + OpenMarker + log[s.line][s.byte..]
      + Concat(log[s.line + 1..e.line])
      + log[e.line][..e.byte] + CloseMarker + log[e.line][e.byte..]
  }

  /** Deleting the marker from a printed position gives back the source line. */
  lemma PrintPosMarks(p: Pos, log: seq<string>)
    requires p.line < |log| && p.byte <= |log[p.line]|
    ensures var out := PrintPos(p, log);
      && |out| == |log[p.line]| + |OpenMarker|
      && out[p.byte..p.byte + |OpenMarker|] == OpenMarker
      && out[..p.byte] + out[p.byte + |OpenMarker|..] == log[p.line]
  {
    var out := PrintPos(p, log);
    var a, b := log[p.line][..p.byte], log[p.line][p.byte..];
    assert out == a + OpenMarker + b;
    assert out[..p.byte] == a;
    assert out[p.byte + |OpenMarker|..] == b;
    assert a + b == log[p.line];
  }

  lemma SliceThree(x: string, y: string, z: string, i: nat, j: nat)
    requires i <= |x| && j <= |z|
    ensures var t, k := x + y + z, |x| + |y| + j;
      && t[..i] == x[..i] && t[i..k] == x[i..] + y + z[..j] && t[k..] == z[j..]
  {
    var t, k := x + y + z, |x| + |y| + j;
    assert t[..i] == x[..i];
    assert t[i..k] == x[i..] + y + z[..j];
    assert t[k..] == z[j..];
  }

  /**
    A printed range is the text of the lines it covers, `log[start.line..=end.line]`
    concatenated, with the opening marker inserted at the start byte and the
    closing marker at the end: so deleting both markers gives that text back.
   */
  lemma PrintRangeMarks(r: Range, log: seq<string>)
    requires r.Valid() && r.end.line < |log|
    requires r.start.byte <= |log[r.start.line]| && r.end.byte <= |log[r.end.line]|
    ensures var text := Concat(log[r.start.line..r.end.line + 1]);
      var k := |Concat(log[r.start.line..r.end.line])| + r.end.byte;
      && r.start.byte <= k <= |text|
      && PrintRange(r, log) == text[..r.start.byte] + OpenMarker + text[r.start.byte..k] + CloseMarker + text[k..]
  {
    if r.start.line == r.end.line {
      PrintRangeOneLine(r, log);
    } else {
      PrintRangeSeveralLines(r, log);
    }
  }

  lemma PrintRangeOneLine(r: Range, log: seq<string>)
    requires r.Valid() && r.end.line < |log| && r.start.line == r.end.line
    requires r.start.byte <= |log[r.start.line]| && r.end.byte <= |log[r.end.line]|
    ensures var text := Concat(log[r.start.line..r.end.line + 1]);
      var k := |Concat(log[r.start.line..r.end.line])| + r.end.byte;
      && r.start.byte <= k <= |text|
      && PrintRange(r, log) == text[..r.start.byte] + OpenMarker + text[r.start.byte..k] + CloseMarker + text[k..]
  {
    var s, e := r.start, r.end;
    var first := log[s.line];
    assert log[s.line..e.line] == [];
    assert log[s.line..e.line + 1] == [first];
    assert Concat([first]) == first + Concat([]);
  }

  lemma PrintRangeSeveralLines(r: Range, log: seq<string>)
    requires r.Valid() && r.end.line < |log| && r.start.line < r.end.line
    requires r.start.byte <= |log[r.start.line]| && r.end.byte <= |log[r.end.line]|
    ensures var text := Concat(log[r.start.line..r.end.line + 1]);
      var k := |Concat(log[r.start.line..r.end.line])| + r.end.byte;
      && r.start.byte <= k <= |text|
      && PrintRange(r, log) == text[..r.start.byte] + OpenMarker + text[r.start.byte..k] + CloseMarker + text[k..]
  {
    var s, e := r.start, r.end;
    var first, last := log[s.line], log[e.line];
    var mid := Concat(log[s.line + 1..e.line]);
    assert log[s.line..e.line][1..] == log[s.line + 1..e.line];
    assert Concat(log[s.line..e.line]) == first + mid;
    assert log[s.line..e.line + 1] == log[s.line..e.line] + [last];
    ConcatSnoc(log[s.line..e.line], last);
    SliceThree(first, mid, last, s.byte, e.byte);
  }
}
