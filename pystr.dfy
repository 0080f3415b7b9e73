/** Python string operations and character classes, as the rewrites use them. */
module PyStr {

  /** Python's `None` or a value. */
  datatype Option<+T> = None | Some(value: T)

  type String = seq<char>

  /** Python's `\s` in a `str` pattern, which is the set `str.isspace` accepts. */
  predicate IsSpace(c: char) {
    c == ' ' || ('\t' <= c <= '\r') || ('\U{1C}' <= c <= '\U{1F}') || c == '\U{85}' || c == '\U{A0}'
    || c == '\U{1680}' || ('\U{2000}' <= c <= '\U{200A}') || c == '\U{2028}' || c == '\U{2029}'
    || c == '\U{202F}' || c == '\U{205F}' || c == '\U{3000}'
  }

  /** `\d`, restricted to the ASCII digits. */
  predicate IsDigit(c: char) {
    '0' <= c <= '9'
  }

  /** `[^\s(){}]`: a character allowed in a file path by every path pattern here. */
  predicate IsPathChar(c: char) {
    !IsSpace(c) && c != '(' && c != ')' && c != '{' && c != '}'
  }

  /** The characters `str.splitlines` breaks at. */
  predicate IsLineBreak(c: char) {
    ('\n' <= c <= '\r') || ('\U{1C}' <= c <= '\U{1E}') || c == '\U{85}' || c == '\U{2028}' || c == '\U{2029}'
  }

  /** Python's truth value of an optional string: present and not empty. */
  predicate Truthy(s: Option<String>) {
    s.Some? && s.value != ""
  }

  predicate StartsWith(s: String, prefix: String) {
    |prefix| <= |s| && s[..|prefix|] == prefix
  }

  predicate EndsWith(s: String, suffix: String) {
    |suffix| <= |s| && s[|s| - |suffix|..] == suffix
  }

  /** `word in s`. */
  predicate Contains(s: String, word: String) {
    exists i :: 0 <= i <= |s| - |word| && OccursAt(s, word, i)
  }

  /** `word` occurs in `s` starting at index `i`. */
  predicate OccursAt(s: String, word: String, i: int) {
    0 <= i && i + |word| <= |s| && s[i..i + |word|] == word
  }

  /** Two adjacent slices make up the slice they cover. */
  lemma SliceSplit(s: String, i: nat, j: nat)
    requires i <= j <= |s|
    ensures s[i..j] + s[j..] == s[i..]
  {
  }

  /** A prefix of `whole`, followed by two parts that make up the rest, gives back `whole`. */
  lemma JoinParts(a: String, b: String, c: String, whole: String, n: nat)
    requires n <= |whole| && a == whole[..n] && b + c == whole[n..]
    ensures (a + b) + c == whole
  {
    assert (a + b) + c == a + (b + c);
    assert whole[..n] + whole[n..] == whole;
  }

  /** `s.count(c)` for a one-character `c`. */
  function Count(s: String, c: char): (n: nat)
    ensures n <= |s|
  {
    if s == [] then 0 else Count(s[..|s| - 1], c) + (if s[|s| - 1] == c then 1 else 0)
  }

  lemma CountAppend(a: String, b: String, c: char)
    ensures Count(a + b, c) == Count(a, c) + Count(b, c)
  {
    if b != [] {
      assert (a + b)[..|a + b| - 1] == a + b[..|b| - 1];
      CountAppend(a, b[..|b| - 1], c);
    } else {
      assert a + b == a;
    }
  }

  /** `s.lower()` on ASCII letters; every other character is left as it is. */
  function AsciiLower(s: String): (r: String)
    ensures |r| == |s|
    ensures forall i :: 0 <= i < |s| ==> r[i] == LowerChar(s[i])
  {
    seq(|s|, i requires 0 <= i < |s| => LowerChar(s[i]))
  }

  /** One character lowered: `A`-`Z` become `a`-`z`, everything else stays. */
  function LowerChar(c: char): char {
    if 'A' <= c <= 'Z' then (c as int + 32) as char else c
  }

  /** `s.lstrip(chars)`. */
  function LStrip(s: String, chars: set<char>): String {
    if s != [] && s[0] in chars then LStrip(s[1..], chars) else s
  }

  /** `s.rstrip(chars)`. */
  function RStrip(s: String, chars: set<char>): (r: String)
    ensures StartsWith(s, r)
    ensures r == [] || r[|r| - 1] !in chars
    ensures forall i :: |r| <= i < |s| ==> s[i] in chars
  {
    if s != [] && s[|s| - 1] in chars then RStrip(s[..|s| - 1], chars) else s
  }

  /** `s.strip(chars)`. */
  function Strip(s: String, chars: set<char>): String {
    RStrip(LStrip(s, chars), chars)
  }

  /** `lstrip` of a concatenation: the tail survives whole unless the head strips away entirely. */
  lemma {:induction false} LStripAppend(s: String, t: String, chars: set<char>)
    ensures LStrip(s + t, chars) == if LStrip(s, chars) == [] then LStrip(t, chars) else LStrip(s, chars) + t
    decreases |s|
  {
    if s == [] {
      assert s + t == t;
    } else if s[0] in chars {
      assert (s + t)[1..] == s[1..] + t;
      LStripAppend(s[1..], t, chars);
    }
  }

  /** A string made only of stripped characters strips to nothing. */
  lemma {:induction false} LStripAll(t: String, chars: set<char>)
    requires forall i :: 0 <= i < |t| ==> t[i] in chars
    ensures LStrip(t, chars) == []
    decreases |t|
  {
    if t != [] {
      LStripAll(t[1..], chars);
    }
  }

  /** Trailing stripped characters make no difference to `rstrip`. */
  lemma {:induction false} RStripDropsTail(u: String, t: String, chars: set<char>)
    requires forall i :: 0 <= i < |t| ==> t[i] in chars
    ensures RStrip(u + t, chars) == RStrip(u, chars)
    decreases |t|
  {
    if t == [] {
      assert u + t == u;
    } else {
      assert (u + t)[..|u + t| - 1] == u + t[..|t| - 1];
      RStripDropsTail(u, t[..|t| - 1], chars);
    }
  }

  /** Trailing stripped characters make no difference to `strip`. */
  lemma StripIgnoresTail(s: String, t: String, chars: set<char>)
    requires forall i :: 0 <= i < |t| ==> t[i] in chars
    ensures Strip(s + t, chars) == Strip(s, chars)
  {
    LStripAppend(s, t, chars);
    if LStrip(s, chars) == [] {
      LStripAll(t, chars);
    } else {
      RStripDropsTail(LStrip(s, chars), t, chars);
    }
  }

  /** The first step of `lstrip`: a leading character in `chars` goes, any other stops it. */
  lemma LStripStep(s: String, chars: set<char>)
    requires s != []
    ensures s[0] in chars ==> LStrip(s, chars) == LStrip(s[1..], chars)
    ensures s[0] !in chars ==> LStrip(s, chars) == s
  {
  }

  /** The first step of `rstrip`. */
  lemma RStripStep(s: String, chars: set<char>)
    requires s != []
    ensures s[|s| - 1] in chars ==> RStrip(s, chars) == RStrip(s[..|s| - 1], chars)
    ensures s[|s| - 1] !in chars ==> RStrip(s, chars) == s
  {
  }

  /** `s.lstrip()`: drops leading whitespace. */
  function LStripSpace(s: String): String {
    if s != [] && IsSpace(s[0]) then LStripSpace(s[1..]) else s
  }

  /** `s.rstrip()`: drops trailing whitespace. */
  function RStripSpace(s: String): String {
    if s != [] && IsSpace(s[|s| - 1]) then RStripSpace(s[..|s| - 1]) else s
  }

  /** `s.strip()`. */
  function StripSpace(s: String): String {
    RStripSpace(LStripSpace(s))
  }

  /** A string `int()` accepts, restricted to ASCII digits with whitespace around them. */
  predicate IsIntText(t: String) {
    var d := StripSpace(t);
    d != [] && forall i :: 0 <= i < |d| ==> IsDigit(d[i])
  }

  /** `int(t)` on such a string. */
  function IntValue(t: String): nat
    requires IsIntText(t)
  {
    DigitsValue(StripSpace(t))
  }

  /** `"".join(parts)`. */
  function Concat(parts: seq<String>): (r: String)
    ensures parts == [] ==> r == []
  {
    if parts == [] then [] else Concat(parts[..|parts| - 1]) + parts[|parts| - 1]
  }

  lemma ConcatAppend(a: seq<String>, b: seq<String>)
    ensures Concat(a + b) == Concat(a) + Concat(b)
  {
    if b == [] {
      assert a + b == a;
    } else {
      assert (a + b)[..|a + b| - 1] == a + b[..|b| - 1];
      ConcatAppend(a, b[..|b| - 1]);
    }
  }

  /** The value of a non-empty string of ASCII digits, as `int()` reads it. */
  function DigitsValue(ds: String): nat
    requires forall i :: 0 <= i < |ds| ==> IsDigit(ds[i])
  {
    if ds == [] then 0
    else
      assert IsDigit(ds[|ds| - 1]);
      DigitsValue(ds[..|ds| - 1]) * 10 + (ds[|ds| - 1] as int - '0' as int)
  }

  /** `str(n)` for a natural number. */
  function NatToString(n: nat): (r: String)
    ensures r != [] && forall i :: 0 <= i < |r| ==> IsDigit(r[i])
  {
    (if n < 10 then [] else NatToString(n / 10)) + [('0' as int + n % 10) as char]
  }

  /** `s.splitlines()`: lines without their line breaks, "\r\n" counting as one break. */
  function SplitLines(s: String): seq<String>
    decreases |s|
  {
    if s == [] then []
    else
      var i := FirstLineBreak(s, 0);
      if i == |s| then [s]
      else
        var w := if s[i] == '\r' && i + 1 < |s| && s[i + 1] == '\n' then 2 else 1;
        [s[..i]] + SplitLines(s[i + w..])
  }

  /** The index of the first line break at or after `from`, or `|s|`. */
  function FirstLineBreak(s: String, from: nat): (i: nat)
    requires from <= |s|
    ensures from <= i <= |s|
    ensures i < |s| ==> IsLineBreak(s[i])
    ensures forall j :: from <= j < i ==> !IsLineBreak(s[j])
    decreases |s| - from
  {
    if from == |s| || IsLineBreak(s[from]) then from else FirstLineBreak(s, from + 1)
  }

  /** Text whose only line break is "\n", ending in one unless it is empty. */
  predicate NewlineTerminated(text: String) {
    (forall i :: 0 <= i < |text| ==> IsLineBreak(text[i]) ==> text[i] == '\n')
    && (text == [] || text[|text| - 1] == '\n')
  }

  /** On such text `splitlines` cuts off the line before the first "\n" and goes on after it. */
  lemma SplitLinesFirst(text: String) returns (i: nat)
    requires text != [] && NewlineTerminated(text)
    ensures i < |text| && text == text[..i] + "\n" + text[i + 1..]
    ensures SplitLines(text) == [text[..i]] + SplitLines(text[i + 1..])
    ensures NewlineTerminated(text[i + 1..])
  {
    i := FirstLineBreak(text, 0);
    assert i < |text| && text[i] == '\n' by {
      assert IsLineBreak(text[|text| - 1]);
    }
    SplitLinesAtNewline(text, i);
    SplitAround(text, i);
    NewlineTerminatedSuffix(text, i + 1);
  }

  /** `splitlines` cuts at a first line break that is a lone "\n". */
  lemma SplitLinesAtNewline(s: String, i: nat)
    requires i == FirstLineBreak(s, 0) && i < |s| && s[i] == '\n'
    ensures SplitLines(s) == [s[..i]] + SplitLines(s[i + 1..])
  {
  }

  /** A text is the part before index `i`, the character at `i`, and the part after. */
  lemma SplitAround(s: String, i: nat)
    requires i < |s|
    ensures s == s[..i] + [s[i]] + s[i + 1..]
  {
  }

  /** What follows a line break of "\n"-terminated text is "\n"-terminated too. */
  lemma NewlineTerminatedSuffix(text: String, k: nat)
    requires NewlineTerminated(text) && 0 < k <= |text| && text[k - 1] == '\n'
    ensures NewlineTerminated(text[k..])
  {
    var rest := text[k..];
    forall j | 0 <= j < |rest|
      ensures IsLineBreak(rest[j]) ==> rest[j] == '\n'
    {
      assert rest[j] == text[k + j];
    }
    if rest != [] {
      assert rest[|rest| - 1] == text[|text| - 1];
    }
  }
}
