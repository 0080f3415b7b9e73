/**
 * Building blocks for the hand-coded regular expressions: maximal runs of a
 * character class, the `\.?/[^\s(){}]+` path shape, the rightmost occurrence
 * of a short string, and the peeling of surplus close parentheses.
 */
module Scan {
  import opened PyStr

  /** The character classes the patterns repeat with `+`. */
  datatype CharClass = Digits | PathChars | NotNewline | Spaces

  predicate InClass(c: char, k: CharClass) {
    match k
    case Digits => IsDigit(c)
    case PathChars => IsPathChar(c)
    case NotNewline => c != '\n'
    case Spaces => IsSpace(c)
  }

  /** All of `s[i..j]` is in class `k`. */
  predicate AllIn(s: String, i: nat, j: nat, k: CharClass)
    requires i <= j <= |s|
  {
    forall m :: i <= m < j ==> InClass(s[m], k)
  }

  /** `s[i] == c`, false past the end. */
  predicate At(s: String, i: nat, c: char) {
    i < |s| && s[i] == c
  }

  /** Where a greedy `[k]*` starting at `i` stops. */
  function SpanEnd(s: String, i: nat, k: CharClass): (j: nat)
    requires i <= |s|
    ensures i <= j <= |s| && AllIn(s, i, j, k)
    ensures j < |s| ==> !InClass(s[j], k)
    decreases |s| - i
  {
    if i < |s| && InClass(s[i], k) then SpanEnd(s, i + 1, k) else i
  }

  /** A greedy run is the longest one: no longer run of the class starts at `i`. */
  lemma SpanEndIsLongest(s: String, i: nat, j: nat, k: CharClass)
    requires i <= j <= |s| && AllIn(s, i, j, k)
    ensures j <= SpanEnd(s, i, k)
  {
  }

  /**
   * `\.?/[^\s(){}]+` at `q`: the end of the path, or None. The optional dot is
   * taken when present, and then the slash must follow it.
   */
  function DotSlashPathEnd(s: String, q: nat): (r: Option<nat>)
    requires q <= |s|
    ensures r.Some? ==> q < r.value <= |s| && IsDotSlashPath(s[q..r.value])
    ensures r.Some? ==> r.value == |s| || !IsPathChar(s[r.value])
  {
    if At(s, q, '.') then
      if At(s, q + 1, '/') then
        var e := SpanEnd(s, q + 2, PathChars);
        if e > q + 2 then
          Some(e)
        else None
      else None
    else if At(s, q, '/') then
      var e := SpanEnd(s, q + 1, PathChars);
      if e > q + 1 then
        Some(e)
      else None
    else None
  }

  /**
   * A path the patterns accept: "/" or "./" and then at least one character
   * that is neither whitespace nor a parenthesis or brace.
   */
  predicate IsDotSlashPath(p: String) {
    (forall i :: 0 <= i < |p| ==> IsPathChar(p[i]))
    && ((|p| >= 2 && p[0] == '/') || (|p| >= 3 && p[0] == '.' && p[1] == '/'))
  }

  /** The largest `m` in `[lo, hi)` where `word` occurs in `s`. */
  function LastAt(s: String, lo: nat, hi: nat, word: String): (r: Option<nat>)
    ensures r.Some? ==> lo <= r.value < hi && OccursAt(s, word, r.value)
    ensures r.Some? ==> forall m :: r.value < m < hi ==> !OccursAt(s, word, m)
    ensures r.None? ==> forall m :: lo <= m < hi ==> !OccursAt(s, word, m)
    decreases hi
  {
    if hi <= lo then None
    else if OccursAt(s, word, hi - 1) then Some(hi - 1)
    else LastAt(s, lo, hi - 1, word)
  }

  /**
   * The end of `(?: \(.*\))?>` following a path run `s[runStart..runEnd]` that is
   * at least one character long and maximal. The group is tried first and its
   * `.*` reaches the last `)>` before a newline; failing that, the run gives
   * characters back until a `>` (itself a path character) can close the match.
   */
  function ImageTailEnd(s: String, runStart: nat, runEnd: nat): (r: Option<nat>)
    requires runStart < runEnd <= |s|
    ensures r.Some? ==> runStart + 2 <= r.value <= |s| && s[r.value - 1] == '>'
  {
    var lineEnd := SpanEnd(s, if runEnd + 2 <= |s| then runEnd + 2 else |s|, NotNewline);
    var group := if OccursAt(s, " (", runEnd) then LastAt(s, runEnd + 2, lineEnd, ")>") else None;
    if group.Some? then
      Some(group.value + 2)
    else
      match LastAt(s, runStart + 1, runEnd, ">")
      case Some(k) => Some(k + 1)
      case None => None
  }

  /** The condition of the peeling loops: `s.endswith(")") and s.count("(") < s.count(")")`. */
  predicate PeelCond(s: String) {
    EndsWith(s, ")") && Count(s, '(') < Count(s, ')')
  }

  /**
   * Drops trailing ")" one at a time while `PeelCond` holds; returns what is left
   * and how many were dropped.
   */
  function Peel(s: String): (r: (String, nat))
    ensures r.0 + Parens(r.1) == s
    ensures !PeelCond(r.0)
    decreases |s|
  {
    if PeelCond(s) then
      var r := Peel(s[..|s| - 1]);
      PeelStep(s, r.0, r.1);
      (r.0, r.1 + 1)
    else (s, 0)
  }

  lemma PeelStep(s: String, rest: String, n: nat)
    requires EndsWith(s, ")") && rest + Parens(n) == s[..|s| - 1]
    ensures rest + Parens(n + 1) == s
  {
    assert Parens(n + 1) == Parens(n) + ")";
    assert s == s[..|s| - 1] + ")";
  }

  /** `s[..j]`, named so that quantifiers over prefixes have a trigger. */
  function Prefix(s: String, j: nat): String
    requires j <= |s|
  {
    s[..j]
  }

  /** Every ")" that `Peel` drops was dropped while the loop condition held. */
  lemma {:induction false} PeelWhileCond(s: String)
    ensures forall j :: |Peel(s).0| < j <= |s| ==> PeelCond(Prefix(s, j))
    decreases |s|
  {
    if PeelCond(s) {
      var t := s[..|s| - 1];
      PeelWhileCond(t);
      forall j | |Peel(s).0| < j <= |s|
        ensures PeelCond(Prefix(s, j))
      {
        assert Peel(s).0 == Peel(t).0;
        if j < |s| {
          assert Prefix(s, j) == Prefix(t, j);
        } else {
          assert Prefix(s, j) == s;
        }
      }
    }
  }

  /** `")" * n`. */
  function Parens(n: nat): (r: String)
    ensures |r| == n && forall i :: 0 <= i < n ==> r[i] == ')'
  {
    if n == 0 then [] else Parens(n - 1) + ")"
  }

  /** Peeling keeps a non-empty text non-empty when it does not start with ")". */
  lemma PeelKeepsHead(s: String)
    requires s != [] && s[0] != ')'
    ensures Peel(s).0 != [] && Peel(s).0[0] == s[0]
  {
    var (rest, n) := Peel(s);
    if rest != [] {
      assert s[0] == (rest + Parens(n))[0];
    }
  }
}
