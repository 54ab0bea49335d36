/** Small value helpers shared by the position model and the lexer. */
module Util {

  datatype Option<T> = None | Some(value: T)

  predicate IsDigit(c: char) {
    '0' <= c <= '9'
  }

  predicate AllDigits(s: string) {
    forall k :: 0 <= k < |s| ==> IsDigit(s[k])
  }

  /** The rows written one after another, in order. */
  function Concat(rows: seq<string>): string
  {
    if rows == [] then "" else rows[0] + Concat(rows[1..])
  }

  lemma {:induction false} ConcatSnoc(rows: seq<string>, last: string)
    ensures Concat(rows + [last]) == Concat(rows) + last
  {
    if rows == [] {
      assert rows + [last] == [last];
    } else {
      assert (rows + [last])[1..] == rows[1..] + [last];
      ConcatSnoc(rows[1..], last);
    }
  }

  /** Index of the first occurrence of `c` in `s`, or `|s|` when `c` does not occur. */
  function IndexOf(s: string, c: char): (k: nat)
    ensures k <= |s|
    ensures forall j :: 0 <= j < k ==> s[j] != c
    ensures k < |s| ==> s[k] == c
  {
    if s == [] then 0
    else if s[0] == c then 0
    else 1 + IndexOf(s[1..], c)
  }

  /** The first `c` in `a + [c] + b` is the one right after `a` when `a` holds none. */
  lemma IndexOfAfter(a: string, c: char, b: string)
    requires forall j :: 0 <= j < |a| ==> a[j] != c
    ensures IndexOf(a + [c] + b, c) == |a|
  {
    var s := a + [c] + b;
    assert s[|a|] == c;
  }

  /** Appending a character moves the first occurrence of `c` only when there was none. */
  lemma {:induction false} IndexOfSnoc(s: string, c: char, d: char)
    ensures IndexOf(s + [d], c) == if IndexOf(s, c) < |s| then IndexOf(s, c) else if d == c then |s| else |s| + 1
  {
    if s != [] && s[0] != c {
      assert (s + [d])[1..] == s[1..] + [d];
      IndexOfSnoc(s[1..], c, d);
    }
  }
}
