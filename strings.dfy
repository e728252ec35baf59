/** The few JavaScript string operations the listening loop relies on:
    `trim`, `toLowerCase`, `lastIndexOf`, `includes`, `startsWith`,
    `Array.prototype.join` and, as its partner, `split`. Strings are
    `seq<char>`, a sequence of Unicode scalar values, where JavaScript
    counts UTF-16 code units: a character outside the Basic Multilingual
    Plane is one element here and two code units there, so lengths and
    indices agree only on text within that plane. */
module JsString {

  /** White space and line terminators as `String.prototype.trim` removes
      them: the ECMAScript WhiteSpace set (TAB, VT, FF, SP, NBSP, ZWNBSP and
      every space separator) and the LineTerminator set (LF, CR, LS, PS). */
  predicate IsSpace(c: char) {
    c == '\t' || c == '\n' || c == '\U{000B}' || c == '\U{000C}' || c == '\r' ||
    c == ' ' || c == '\U{00A0}' || c == '\U{1680}' ||
    ('\U{2000}' <= c <= '\U{200A}') ||
    c == '\U{2028}' || c == '\U{2029}' || c == '\U{202F}' || c == '\U{205F}' ||
    c == '\U{3000}' || c == '\U{FEFF}'
  }

  predicate AllSpace(s: string) {
    forall k :: 0 <= k < |s| ==> IsSpace(s[k])
  }

  /** `i..j` are the bounds of the trimmed part of `s`: nothing outside them
      but white space, and no white space at either end inside them. */
  ghost predicate TrimmedAt(s: string, i: int, j: int) {
    0 <= i <= j <= |s| && AllSpace(s[..i]) && AllSpace(s[j..]) &&
    (i < j ==> !IsSpace(s[i]) && !IsSpace(s[j - 1]))
  }

  /** Index of the first character of `s` at or after `i` that is not white space. */
  function SkipSpace(s: string, i: nat): (r: nat)
    requires i <= |s|
    ensures i <= r <= |s|
    ensures forall k :: i <= k < r ==> IsSpace(s[k])
    ensures r < |s| ==> !IsSpace(s[r])
    decreases |s| - i
  {
    if i < |s| && IsSpace(s[i]) then SkipSpace(s, i + 1) else i
  }

  /** End of the part of `s[..j]` that is left after white space is dropped from its end. */
  function SkipSpaceBack(s: string, j: nat): (r: nat)
    requires j <= |s|
    ensures r <= j
    ensures forall k :: r <= k < j ==> IsSpace(s[k])
    ensures 0 < r ==> !IsSpace(s[r - 1])
  {
    if 0 < j && IsSpace(s[j - 1]) then SkipSpaceBack(s, j - 1) else j
  }

  /** `String.prototype.trim`. */
  function Trim(s: string): (r: string)
    ensures |r| <= |s|
    ensures forall i, j :: TrimmedAt(s, i, j) ==> r == s[i..j]
    ensures r == [] <==> AllSpace(s)
  {
    var i := SkipSpace(s, 0);
    if i == |s| then []
    else
      var j := SkipSpaceBack(s, |s|);
      assert i < j by { assert !IsSpace(s[i]); }
      assert TrimmedAt(s, i, j) by {
        assert AllSpace(s[..i]) by { forall k | 0 <= k < i ensures IsSpace(s[..i][k]) { assert s[..i][k] == s[k]; } }
        assert AllSpace(s[j..]) by { forall k | 0 <= k < |s| - j ensures IsSpace(s[j..][k]) { assert s[j..][k] == s[j + k]; } }
      }
      TrimmedAtUnique(s, i, j);
      s[i..j]
  }

  /** Trimming bounds are unique, except that an all-space string may be cut anywhere. */
  lemma TrimmedAtUnique(s: string, i: int, j: int)
    requires TrimmedAt(s, i, j) && i < j
    ensures forall i', j' :: TrimmedAt(s, i', j') ==> i' == i && j' == j
  {
    forall i', j' | TrimmedAt(s, i', j') ensures i' == i && j' == j {
    }
  }

  /** The trimmed part of `s`, and nothing else, survives: every non-space
      character of `s` lies inside it and the text before and after it is white space. */
  lemma TrimBounds(s: string) returns (i: nat, j: nat)
    ensures TrimmedAt(s, i, j) && Trim(s) == s[i..j]
  {
    i := SkipSpace(s, 0);
    j := if i == |s| then i else SkipSpaceBack(s, |s|);
    assert AllSpace(s[..i]) by { forall k | 0 <= k < i ensures IsSpace(s[..i][k]) { assert s[..i][k] == s[k]; } }
    assert AllSpace(s[j..]) by { forall k | 0 <= k < |s| - j ensures IsSpace(s[j..][k]) { assert s[j..][k] == s[j + k]; } }
  }

  /** A trimmed suffix is a slice of the whole string. */
  lemma TrimSuffix(s: string, a: nat) returns (x: nat, y: nat)
    requires a <= |s|
    ensures a <= x <= y <= |s| && Trim(s[a..]) == s[x..y]
  {
    var i, j := TrimBounds(s[a..]);
    assert s[a..][i..j] == s[a + i..a + j];
    x, y := a + i, a + j;
  }

  /** Trimming twice is trimming once. */
  lemma TrimIdempotent(s: string)
    ensures Trim(Trim(s)) == Trim(s)
  {
    var t := Trim(s);
    assert TrimmedAt(t, 0, |t|) by {
      var i, j := TrimBounds(s);
      assert t[..0] == [] && t[|t|..] == [];
    }
  }

  /** `toLowerCase` on the ASCII range; other characters are left as they are. */
  function LowerChar(c: char): char {
    if 'A' <= c <= 'Z' then (c as int + 32) as char else c
  }

  /** `String.prototype.toLowerCase`, length-preserving (ASCII case mapping). */
  function ToLower(s: string): (r: string)
    ensures |r| == |s|
    ensures forall k :: 0 <= k < |s| ==> r[k] == LowerChar(s[k])
  {
    seq(|s|, k requires 0 <= k < |s| => LowerChar(s[k]))
  }

  lemma LowerCharFacts(c: char)
    ensures LowerChar(LowerChar(c)) == LowerChar(c)
    ensures IsSpace(LowerChar(c)) == IsSpace(c)
    ensures !('A' <= LowerChar(c) <= 'Z')
  {
  }

  /** Lower-casing is idempotent and keeps white space where it was. */
  lemma ToLowerFacts(s: string)
    ensures ToLower(ToLower(s)) == ToLower(s)
    ensures forall k :: 0 <= k < |s| ==> IsSpace(ToLower(s)[k]) == IsSpace(s[k])
  {
    forall k | 0 <= k < |s| ensures ToLower(ToLower(s))[k] == ToLower(s)[k] && IsSpace(ToLower(s)[k]) == IsSpace(s[k]) {
      LowerCharFacts(s[k]);
    }
  }

  /** `k` occurs in `s` at index `i`. */
  predicate Occurs(s: string, k: string, i: int) {
    0 <= i && i + |k| <= |s| && s[i..i + |k|] == k
  }

  /** Searches `s` for `k` at `i`, `i - 1`, ..., `0`. */
  function LastIndexFrom(s: string, k: string, i: int): (r: int)
    requires i + |k| <= |s|
    ensures r == -1 || (0 <= r <= i && Occurs(s, k, r))
    ensures forall p :: r < p <= i ==> !Occurs(s, k, p)
    decreases i + 1
  {
    if i < 0 then -1
    else if s[i..i + |k|] == k then i
    else LastIndexFrom(s, k, i - 1)
  }

  /** `k` occurs nowhere in `s`. */
  ghost predicate Absent(s: string, k: string) {
    forall p :: !Occurs(s, k, p)
  }

  /** `k` occurs in `s` at `i` and at no later index. */
  ghost predicate LastOccurrence(s: string, k: string, i: int) {
    Occurs(s, k, i) && forall p :: Occurs(s, k, p) ==> p <= i
  }

  /** There is only one last occurrence. */
  lemma LastOccurrenceUnique(s: string, k: string, i: int, j: int)
    requires LastOccurrence(s, k, i) && LastOccurrence(s, k, j)
    ensures i == j
  {
  }

  /** `String.prototype.lastIndexOf(k)`: the largest index at which `k`
      occurs in `s`, or -1. (For the empty `k` it is `|s|`, as in JavaScript.) */
  function LastIndexOf(s: string, k: string): (r: int)
    ensures r == -1 <==> Absent(s, k)
    ensures r != -1 ==> LastOccurrence(s, k, r)
  {
    if |k| > |s| then -1 else LastIndexFrom(s, k, |s| - |k|)
  }

  /** `String.prototype.includes(k)`. */
  function Includes(s: string, k: string): (r: bool)
    ensures r <==> exists p :: Occurs(s, k, p)
  {
    LastIndexOf(s, k) != -1
  }

  /** `String.prototype.startsWith(p)`. */
  predicate StartsWith(s: string, p: string) {
    |p| <= |s| && s[..|p|] == p
  }

  /** `Array.prototype.join(sep)` on an array of strings. */
  function Join(xs: seq<string>, sep: string): string
  {
    if |xs| == 0 then []
    else if |xs| == 1 then xs[0]
    else xs[0] + sep + Join(xs[1..], sep)
  }

  /** `String.prototype.split(c)` for a one-character separator. */
  function Split(s: string, c: char): (r: seq<string>)
    ensures |r| >= 1
    ensures forall i :: 0 <= i < |r| ==> c !in r[i]
  {
    if c !in s then [s]
    else
      var i := FirstIndex(s, c);
      [s[..i]] + Split(s[i + 1..], c)
  }

  /** The first index of `c` in `s`. */
  function FirstIndex(s: string, c: char): (i: nat)
    requires c in s
    ensures i < |s| && s[i] == c && c !in s[..i]
  {
    if s[0] == c then 0
    else
      var i := FirstIndex(s[1..], c);
      assert s[1..][..i] == s[1..i + 1];
      assert s[..i + 1] == [s[0]] + s[1..i + 1];
      i + 1
  }

  /** In `a + [c] + b` with no `c` in `a`, the first `c` is the one after `a`. */
  lemma FirstIndexAfter(a: string, c: char, b: string)
    requires c !in a
    ensures c in a + [c] + b && FirstIndex(a + [c] + b, c) == |a|
  {
    var s := a + [c] + b;
    assert s[|a|] == c;
    var i := FirstIndex(s, c);
  }

  /** Splitting at the first separator leaves the line before it in front. */
  lemma SplitFirst(x: string, c: char, rest: string)
    requires c !in x
    ensures Split(x + [c] + rest, c) == [x] + Split(rest, c)
  {
    var s := x + [c] + rest;
    FirstIndexAfter(x, c, rest);
    assert s[..|x|] == x && s[|x| + 1..] == rest;
  }

  /** Splitting on the separator recovers the joined lines, provided no line
      contains the separator and there is at least one line. */
  lemma {:induction false} SplitJoin(xs: seq<string>, c: char)
    requires |xs| >= 1
    requires forall i :: 0 <= i < |xs| ==> c !in xs[i]
    ensures Split(Join(xs, [c]), c) == xs
  {
    if |xs| > 1 {
      SplitFirst(xs[0], c, Join(xs[1..], [c]));
      SplitJoin(xs[1..], c);
      assert xs == [xs[0]] + xs[1..];
    }
  }
}
