/**
 * The whole-line classifier shared by the oldest rewrite (filter.py,
 * quietex.py and quietex/__init__.py, which carry identical copies): the
 * warning heuristic, the page-number and file-opening searches, and the
 * order in which a line is suppressed, coloured or printed plain.
 */
module Classic {
  import opened PyStr
  import opened Scan
  import opened Colorama

  /** `probably_warning`: an Overfull/Underfull box, or a line that mentions a warning, something missing or something undefined (but not the "I'll forget" help text). */
  function ProbablyWarning(line: String): bool {
    if StartsWith(line, "Overfull") || StartsWith(line, "Underfull") then true
    else
      var lower := AsciiLower(line);
      if Contains(lower, "warning") || Contains(lower, "missing") then true
      else Contains(lower, "undefined") && !Contains(lower, "i'll")
  }

  /** Lowering twice is lowering once. */
  lemma AsciiLowerIdempotent(s: String)
    ensures AsciiLower(AsciiLower(s)) == AsciiLower(s)
  {
  }

  /** A lowered line starts with neither "Overfull" nor "Underfull". */
  lemma LoweredNoBoxPrefix(s: String)
    ensures !StartsWith(AsciiLower(s), "Overfull") && !StartsWith(AsciiLower(s), "Underfull")
  {
    var l := AsciiLower(s);
    if |l| >= 1 {
      assert l[0] != 'O' && l[0] != 'U';
    }
  }

  /** Apart from the box messages, the heuristic ignores case. */
  lemma ProbablyWarningIgnoresCase(line: String)
    requires !StartsWith(line, "Overfull") && !StartsWith(line, "Underfull")
    ensures ProbablyWarning(line) == ProbablyWarning(AsciiLower(line))
  {
    AsciiLowerIdempotent(line);
    LoweredNoBoxPrefix(line);
  }

  /** Lowering a line lowers each of its slices. */
  lemma LowerSlice(line: String, i: nat, j: nat)
    requires i <= j <= |line|
    ensures AsciiLower(line)[i..j] == AsciiLower(line[i..j])
  {
    var lower := AsciiLower(line);
    var piece := line[i..j];
    var sub := AsciiLower(piece);
    var left := lower[i..j];
    assert |left| == |sub| == j - i;
    forall k | 0 <= k < j - i
      ensures left[k] == sub[k]
    {
      assert piece[k] == line[i + k];
      assert left[k] == lower[i + k];
    }
  }

  /** LaTeX's own "Warning" and "Missing" messages, whatever their capitalisation, are warnings. */
  lemma MentionedWarning(line: String, word: String, i: nat)
    requires word == "warning" || word == "missing"
    requires i + |word| <= |line| && AsciiLower(line[i..i + |word|]) == word
    ensures ProbablyWarning(line)
  {
    LowerSlice(line, i, i + |word|);
    assert OccursAt(AsciiLower(line), word, i);
  }

  /** "Warning" and "WARNING" both lower to "warning". */
  lemma CapitalisedWarning(line: String, i: nat)
    requires OccursAt(line, "Warning", i) || OccursAt(line, "WARNING", i)
    ensures ProbablyWarning(line)
  {
    assert AsciiLower("Warning") == "warning" && AsciiLower("WARNING") == "warning";
    MentionedWarning(line, "warning", i);
  }

  /** The two searches: `\[(\d+)[ \]\{]` and `\((\.?/[^\s(){}]+)`. */
  datatype Finder = PageNumber | FileOpening

  /** Where a match of the finder's pattern starting at `i` ends, or None. */
  function MatchEnd(f: Finder, s: String, i: nat): (r: Option<nat>)
    requires i <= |s|
    ensures r.Some? ==> i + 2 <= r.value <= |s|
  {
    match f
    case PageNumber =>
      if At(s, i, '[') then
        var e := SpanEnd(s, i + 1, Digits);
        if e > i + 1 && e < |s| && (s[e] == ' ' || s[e] == ']' || s[e] == '{') then Some(e + 1) else None
      else None
    case FileOpening =>
      if At(s, i, '(') then DotSlashPathEnd(s, i + 1) else None
  }

  /** The captured group of a match from `i` to `e`: the digits, or the path. */
  function Group(f: Finder, s: String, i: nat, e: nat): String
    requires i + 2 <= e <= |s|
  {
    match f
    case PageNumber => s[i + 1..e - 1]
    case FileOpening => s[i + 1..e]
  }

  /** `findall` from `from`: the groups of the matches, left to right, each search resuming where the last match ended. */
  function FindAll(f: Finder, s: String, from: nat): seq<String>
    requires from <= |s|
    decreases |s| - from
  {
    if from == |s| then []
    else
      match MatchEnd(f, s, from)
      case Some(e) => [Group(f, s, from, e)] + FindAll(f, s, e)
      case None => FindAll(f, s, from + 1)
  }

  /** `find_page_number` and `find_file`: the group of the last match, or None when there is none. */
  function FindLast(f: Finder, s: String): Option<String> {
    var all := FindAll(f, s, 0);
    if all == [] then None else Some(all[|all| - 1])
  }

  /** No match starts inside another: both patterns open with a character their match cannot contain again. */
  lemma MatchesDoNotNest(f: Finder, s: String, i: nat, j: nat)
    requires i < j <= |s| && MatchEnd(f, s, i).Some? && j < MatchEnd(f, s, i).value
    ensures MatchEnd(f, s, j).None?
  {
    var e := MatchEnd(f, s, i).value;
    match f
    case PageNumber =>
      var d := SpanEnd(s, i + 1, Digits);
      assert j <= d && (j < d ==> IsDigit(s[j]));
    case FileOpening =>
      assert IsDotSlashPath(s[i + 1..e]);
      assert s[j] == s[i + 1..e][j - i - 1];
  }

  /** `findall` from `from` finds nothing exactly when no match starts at `from` or later. */
  lemma {:induction false} FindAllEmpty(f: Finder, s: String, from: nat)
    requires from <= |s|
    ensures FindAll(f, s, from) == [] <==> forall j :: from <= j <= |s| ==> MatchEnd(f, s, j).None?
    decreases |s| - from
  {
    if from < |s| {
      match MatchEnd(f, s, from)
      case Some(e) =>
        assert FindAll(f, s, from) != [];
      case None =>
        FindAllEmpty(f, s, from + 1);
    }
  }

  /** Helper for `FindAllFindsLast`: no match starts strictly inside the match from `from` to `e`. */
  lemma NoMatchInside(f: Finder, s: String, from: nat, e: nat)
    requires from < |s| && MatchEnd(f, s, from) == Some(e)
    ensures forall j :: from < j < e ==> MatchEnd(f, s, j).None?
  {
    forall j | from < j < e
      ensures MatchEnd(f, s, j).None?
    {
      MatchesDoNotNest(f, s, from, j);
    }
  }

  /** When `findall` from `from` finds something, its last group is that of a match after which nothing matches. */
  lemma {:induction false} FindAllFindsLast(f: Finder, s: String, from: nat) returns (i: nat)
    requires from <= |s| && FindAll(f, s, from) != []
    ensures from <= i <= |s| && MatchEnd(f, s, i).Some?
    ensures FindAll(f, s, from)[|FindAll(f, s, from)| - 1] == Group(f, s, i, MatchEnd(f, s, i).value)
    ensures forall j :: i < j <= |s| ==> MatchEnd(f, s, j).None?
    decreases |s| - from
  {
    match MatchEnd(f, s, from)
    case Some(e) =>
      var rest := FindAll(f, s, e);
      var g := Group(f, s, from, e);
      assert FindAll(f, s, from) == [g] + rest;
      if rest == [] {
        FindAllEmpty(f, s, e);
        NoMatchInside(f, s, from, e);
        i := from;
      } else {
        i := FindAllFindsLast(f, s, e);
        assert ([g] + rest)[|[g] + rest| - 1] == rest[|rest| - 1];
      }
    case None =>
      i := FindAllFindsLast(f, s, from + 1);
  }

  /** `find_page_number` and `find_file` return the group of the match that starts last, or None when nothing matches. */
  lemma FindLastIsLastMatch(f: Finder, s: String) returns (i: nat)
    ensures FindLast(f, s).None? <==> forall j :: 0 <= j <= |s| ==> MatchEnd(f, s, j).None?
    ensures FindLast(f, s).Some? ==>
      i <= |s| && MatchEnd(f, s, i).Some? && FindLast(f, s).value == Group(f, s, i, MatchEnd(f, s, i).value)
      && forall j :: i < j <= |s| ==> MatchEnd(f, s, j).None?
  {
    i := 0;
    FindAllEmpty(f, s, 0);
    if FindAll(f, s, 0) != [] {
      i := FindAllFindsLast(f, s, 0);
    }
  }

  /** The page number found is a non-empty run of digits, which Python treats as true. */
  lemma PageGroupDigits(s: String, i: nat)
    requires i <= |s| && MatchEnd(PageNumber, s, i).Some?
    ensures var g := Group(PageNumber, s, i, MatchEnd(PageNumber, s, i).value);
      g != [] && forall k :: 0 <= k < |g| ==> IsDigit(g[k])
  {
  }

  /** The ways one line can be shown. */
  datatype LineKind = Suppressed | ErrorLine | WarningLine | NormalLine

  /**
   * `handle_line`'s branches, in their order: file openings, closings and (when
   * the rewrite has that branch) page numbers at the start are suppressed; then
   * "!" marks an error, then the warning heuristic; everything else is plain.
   */
  function Classify(line: String, pageBranch: bool): LineKind {
    if StartsWith(line, "(/") || StartsWith(line, "(./") then Suppressed
    else if StartsWith(line, ")") then Suppressed
    else if pageBranch && MatchEnd(PageNumber, line, 0).Some? then Suppressed
    else if StartsWith(line, "!") then ErrorLine
    else if ProbablyWarning(line) then WarningLine
    else NormalLine
  }

  /** The colorama style of each kind of line. */
  function LineStyle(k: LineKind): Option<String> {
    match k
    case ErrorLine => Some(Bright + ForeRed)
    case WarningLine => Some(ForeYellow)
    case _ => None
  }

  /** What the scripts' `handle_line` prints for a line of a kind: nothing, or the line in its style followed by a line end. */
  function PrintLine(k: LineKind, line: String): seq<String> {
    if k == Suppressed then []
    else if LineStyle(k).Some? then [LineStyle(k).value + line + ResetAll + "\n"]
    else [line + "\n"]
  }

  /** `line.strip("\r\n")`. */
  function StripLineEnd(line: String): String {
    Strip(line, LineEnd)
  }

  const LineEnd: set<char> := {'\r', '\n'}

  /** A line end at the end of the raw line makes no difference once stripped. */
  lemma StripLineEndIgnoresEnd(line: String)
    ensures StripLineEnd(line + "\r\n") == StripLineEnd(line)
    ensures StripLineEnd(line + "\n") == StripLineEnd(line)
  {
    StripIgnoresTail(line, "\r\n", LineEnd);
    StripIgnoresTail(line, "\n", LineEnd);
  }

  /** The group of every match is non-empty, so Python treats what the searches find as true. */
  lemma FoundIsTruthy(f: Finder, s: String)
    ensures FindLast(f, s).Some? ==> Truthy(FindLast(f, s))
  {
    var i := FindLastIsLastMatch(f, s);
  }

  /** A line is suppressed exactly when it opens a file, closes one, or (with the page branch) starts with a page number. */
  lemma SuppressedWhen(line: String, pageBranch: bool)
    ensures Classify(line, pageBranch) == Suppressed
      <==> StartsWith(line, "(/") || StartsWith(line, "(./") || StartsWith(line, ")")
           || (pageBranch && MatchEnd(PageNumber, line, 0).Some?)
  {
  }

  /** The page branch only ever suppresses more: it changes nothing else. */
  lemma PageBranchOnlySuppresses(line: String)
    ensures Classify(line, true) != Classify(line, false)
      ==> Classify(line, true) == Suppressed && MatchEnd(PageNumber, line, 0).Some?
  {
  }

  /** An error line wins over the warning heuristic. */
  lemma ErrorBeatsWarning(line: String, pageBranch: bool)
    requires StartsWith(line, "!")
    ensures Classify(line, pageBranch) == ErrorLine
  {
    assert line[0] == '!';
  }

  /** A bare page number is suppressed where the page branch exists and printed plain where it does not. */
  lemma PageOnlyLine()
    ensures Classify("[1]", true) == Suppressed
    ensures Classify("[1]", false) == NormalLine
  {
    var l := "[1]";
    assert SpanEnd(l, 1, Digits) == 2;
    assert !StartsWith(l, "(/") && !StartsWith(l, "(./") && !StartsWith(l, ")") && !StartsWith(l, "!");
  }
}
