/**
 * The hand-written scanner of quietex/parsing.py (`LatexLogParser`): it cuts a
 * line of TeX output into file openings and closings, auxiliary and image
 * reads, page numbers, errors, warnings and everything else.
 */
module Parsing {
  import opened PyStr
  import opened Scan
  import opened Tokens

  /** A match of one of the patterns: `s[start..end]`, and the text of its group 1. */
  datatype Match = Match(start: nat, end: nat, group: String)

  /** The four class patterns of the parser. */
  datatype Pattern =
    | PageRe       //  ` ?\[(\d+)\]?`
    | OpenFileRe   //  ` ?\((\.?/[^\s(){}]+)`
    | ReadAuxRe    //  `{[^\s(){}]+}`
    | ReadImageRe  //  ` ?<[^\s(){}]+(?: \(.*\))?>`

  /** ` ?` followed by `c` at `p`: the position after `c`. */
  function SpaceThen(s: String, p: nat, c: char): (r: Option<nat>)
    requires p <= |s|
    ensures r.Some? ==> p < r.value <= |s| && s[r.value - 1] == c
    ensures r.Some? ==> r.value == p + 1 || (r.value == p + 2 && s[p] == ' ')
  {
    if At(s, p, ' ') then (if At(s, p + 1, c) then Some(p + 2) else None)
    else if At(s, p, c) then Some(p + 1)
    else None
  }

  /** A page token's text: an optional space, "[", the digits, an optional "]". */
  predicate IsPageText(body: String, digits: String) {
    digits != [] && (forall i :: 0 <= i < |digits| ==> IsDigit(digits[i]))
    && (body == "[" + digits || body == " [" + digits || body == "[" + digits + "]" || body == " [" + digits + "]")
  }

  /** A file opening's text: an optional space, "(", and the path. */
  predicate IsOpenFileText(body: String, path: String) {
    IsDotSlashPath(path) && (body == "(" + path || body == " (" + path)
  }

  /** An auxiliary read: "{", at least one path character, "}". */
  predicate IsReadAuxText(body: String) {
    |body| >= 3 && body[0] == '{' && body[|body| - 1] == '}'
    && forall i :: 1 <= i < |body| - 1 ==> IsPathChar(body[i])
  }

  /** An image read: an optional space, "<", at least one character, ">". */
  predicate IsReadImageText(body: String) {
    |body| >= 3 && body[|body| - 1] == '>'
    && (body[0] == '<' || (|body| >= 4 && body[0] == ' ' && body[1] == '<'))
  }

  lemma PageTextAt(s: String, p: nat, q: nat, e: nat, end: nat)
    requires p < q < e <= end <= |s| && (q == p + 1 || (q == p + 2 && s[p] == ' ')) && s[q - 1] == '['
    requires forall i :: q <= i < e ==> IsDigit(s[i])
    requires end == e || (end == e + 1 && s[e] == ']')
    ensures IsPageText(s[p..end], s[q..e])
  {
    var d := s[q..e];
    var lead := s[p..q];
    assert lead == "[" || lead == " [";
    if end == e {
      assert s[p..end] == lead + d;
    } else {
      assert s[p..end] == lead + d + "]";
    }
  }

  lemma OpenTextAt(s: String, p: nat, q: nat, e: nat)
    requires p < q < e <= |s| && (q == p + 1 || (q == p + 2 && s[p] == ' ')) && s[q - 1] == '('
    requires IsDotSlashPath(s[q..e])
    ensures IsOpenFileText(s[p..e], s[q..e])
  {
    var lead := s[p..q];
    assert lead == "(" || lead == " (";
    assert s[p..e] == lead + s[q..e];
  }

  /** `pattern.match(s[p:])`, for the patterns, which need no look-behind. */
  function MatchAt(pat: Pattern, s: String, p: nat): (r: Option<Match>)
    requires p <= |s|
    ensures r.Some? ==> r.value.start == p && p < r.value.end <= |s|
  {
    match pat
    case PageRe =>
      (match SpaceThen(s, p, '[')
       case None => None
       case Some(q) =>
         var e := SpanEnd(s, q, Digits);
         if e == q then None
         else
           var end := if At(s, e, ']') then e + 1 else e;
           Some(Match(p, end, s[q..e])))
    case OpenFileRe =>
      (match SpaceThen(s, p, '(')
       case None => None
       case Some(q) =>
         match DotSlashPathEnd(s, q)
         case None => None
         case Some(e) =>
           Some(Match(p, e, s[q..e])))
    case ReadAuxRe =>
      if At(s, p, '{') then
        var e := SpanEnd(s, p + 1, PathChars);
        if e > p + 1 && At(s, e, '}') then Some(Match(p, e + 1, [])) else None
      else None
    case ReadImageRe =>
      (match SpaceThen(s, p, '<')
       case None => None
       case Some(q) =>
         var e := SpanEnd(s, q, PathChars);
         if e == q then None
         else
           match ImageTailEnd(s, q, e)
           case None => None
           case Some(end) => Some(Match(p, end, [])))
  }

  /** What each pattern's match covers, and group 1 of the two patterns that have one. */
  lemma MatchShape(pat: Pattern, s: String, p: nat)
    requires p <= |s| && MatchAt(pat, s, p).Some?
    ensures var m := MatchAt(pat, s, p).value;
      match pat
      case PageRe => IsPageText(s[p..m.end], m.group)
      case OpenFileRe => IsOpenFileText(s[p..m.end], m.group)
      case ReadAuxRe => IsReadAuxText(s[p..m.end])
      case ReadImageRe => IsReadImageText(s[p..m.end])
  {
    var m := MatchAt(pat, s, p).value;
    match pat
    case PageRe =>
      var q := SpaceThen(s, p, '[').value;
      var e := SpanEnd(s, q, Digits);
      PageTextAt(s, p, q, e, m.end);
    case OpenFileRe =>
      var q := SpaceThen(s, p, '(').value;
      OpenTextAt(s, p, q, m.end);
    case ReadAuxRe =>
    case ReadImageRe =>
  }

  /** `pattern.search(s, p)`: the leftmost match starting at `p` or later. */
  function Search(pat: Pattern, s: String, p: nat): (r: Option<Match>)
    requires p <= |s|
    ensures r.Some? ==> p <= r.value.start <= |s| && MatchAt(pat, s, r.value.start) == r
    ensures r.Some? ==> forall q :: p <= q < r.value.start ==> MatchAt(pat, s, q).None?
    ensures r.None? ==> forall q :: p <= q <= |s| ==> MatchAt(pat, s, q).None?
    decreases |s| - p
  {
    if MatchAt(pat, s, p).Some? then MatchAt(pat, s, p)
    else if p == |s| then None
    else Search(pat, s, p + 1)
  }

  /**
   * `_search_for_token`: the earlier of the first file opening and the first
   * page number; on a tie the file opening, which the stable sort keeps first.
   */
  function SearchToken(text: String): (r: Option<Match>)
    ensures r.None? <==> Search(OpenFileRe, text, 0).None? && Search(PageRe, text, 0).None?
    ensures r.Some? ==> r == Search(OpenFileRe, text, 0) || r == Search(PageRe, text, 0)
    ensures r.Some? && Search(OpenFileRe, text, 0).Some? ==> r.value.start <= Search(OpenFileRe, text, 0).value.start
    ensures r.Some? && Search(PageRe, text, 0).Some? ==> r.value.start <= Search(PageRe, text, 0).value.start
  {
    var open := Search(OpenFileRe, text, 0);
    var page := Search(PageRe, text, 0);
    if open.Some? && (page.None? || open.value.start <= page.value.start) then open else page
  }

  /** `_is_warning`. */
  predicate IsWarning(line: String) {
    StartsWith(line, "Overfull") || StartsWith(line, "Underfull") || Contains(AsciiLower(line), "warning")
  }

  /** `_parse_error_or_warning`. */
  function ErrorOrWarning(line: String): (r: Option<Token>)
    ensures r.Some? <==> StartsWith(line, "!") || IsWarning(line)
    ensures StartsWith(line, "!") ==> r == Some(Error(line))
    ensures !StartsWith(line, "!") && IsWarning(line) ==> r == Some(Warning(line))
  {
    if StartsWith(line, "!") then Some(Error(line))
    else if IsWarning(line) then Some(Warning(line))
    else None
  }

  /**
   * What `_parse_partial` returns for `text`: the tokens it takes off the front
   * and whatever it gives up on. Each case is one turn of its loop.
   */
  function Partial(text: String): (r: (seq<Token>, String))
    decreases |text|
  {
    if text == [] then ([], [])
    else
      var open := MatchAt(OpenFileRe, text, 0);
      if open.Some? then
        var r := Partial(text[open.value.end..]);
        ([OpenFile(text[..open.value.end], Some(open.value.group))] + r.0, r.1)
      else if text[0] == ')' then
        var r := Partial(text[1..]);
        ([CloseFile] + r.0, r.1)
      else if MatchAt(ReadAuxRe, text, 0).Some? then
        var end := MatchAt(ReadAuxRe, text, 0).value.end;
        var r := Partial(text[end..]);
        ([ReadAux(text[..end])] + r.0, r.1)
      else if MatchAt(ReadImageRe, text, 0).Some? then
        var end := MatchAt(ReadImageRe, text, 0).value.end;
        var r := Partial(text[end..]);
        ([ReadImage(text[..end])] + r.0, r.1)
      else if MatchAt(PageRe, text, 0).Some? then
        var page := MatchAt(PageRe, text, 0).value;
        var r := Partial(text[page.end..]);
        ([Page(text[..page.end], Some(page.group))] + r.0, r.1)
      else
        match SearchToken(text)
        case Some(m) =>
          assert m.start > 0;
          var (other, n) := Peel(text[..m.start]);
          var r := Partial(text[m.start..]);
          ([Other(other)] + Closes(n) + r.0, r.1)
        case None =>
          if EndsWith(text, ")") then
            var (other, n) := Peel(text);
            ([Other(other)] + Closes(n), [])
          else ([], text)
  }

  /** The peeling loop of `_parse_partial`, which drops surplus ")" off the end of `msg`. */
  method PeelCloses(msg: String) returns (rest: String, closes: seq<Token>)
    ensures rest == Peel(msg).0 && closes == Closes(Peel(msg).1)
  {
    rest := msg;
    closes := [];
    while EndsWith(rest, ")") && Count(rest, '(') < Count(rest, ')')
      invariant Peel(rest).0 == Peel(msg).0 && |closes| + Peel(rest).1 == Peel(msg).1
      invariant closes == Closes(|closes|)
      decreases |rest|
    {
      closes := closes + [CloseFile];
      rest := rest[..|rest| - 1];
    }
  }

  /** `_parse_partial`, the loop that takes tokens off the front of `text` until it gives up. */
  method ParsePartial(text0: String) returns (tokens: seq<Token>, text: String)
    ensures tokens == Partial(text0).0 && text == Partial(text0).1
  {
    tokens := [];
    text := text0;
    while true
      invariant tokens + Partial(text).0 == Partial(text0).0 && Partial(text).1 == Partial(text0).1
      decreases |text|
    {
      var emitted, next, done := ParseTurn(text);
      tokens := tokens + emitted;
      text := next;
      if done {
        break;
      }
    }
  }

  /**
   * One pass through the body of the `_parse_partial` loop: the tokens it appends,
   * the text it continues with, and whether it leaves the loop.
   */
  method ParseTurn(text: String) returns (emitted: seq<Token>, next: String, done: bool)
    ensures done ==> Partial(text) == (emitted, next)
    ensures !done ==> |next| < |text| && Partial(text).0 == emitted + Partial(next).0 && Partial(text).1 == Partial(next).1
  {
    if text == [] {
      assert Partial(text) == ([], []);
      return [], [], true;
    }
    var open := MatchAt(OpenFileRe, text, 0);
    if open.Some? {
      var t := OpenFile(text[..open.value.end], Some(open.value.group));
      PartialTakes(text, t, open.value.end);
      return [t], text[open.value.end..], false;
    }
    if text[0] == ')' {
      PartialTakes(text, CloseFile, 1);
      return [CloseFile], text[1..], false;
    }
    var aux := MatchAt(ReadAuxRe, text, 0);
    if aux.Some? {
      var t := ReadAux(text[..aux.value.end]);
      PartialTakes(text, t, aux.value.end);
      return [t], text[aux.value.end..], false;
    }
    var image := MatchAt(ReadImageRe, text, 0);
    if image.Some? {
      var t := ReadImage(text[..image.value.end]);
      PartialTakes(text, t, image.value.end);
      return [t], text[image.value.end..], false;
    }
    var page := MatchAt(PageRe, text, 0);
    if page.Some? {
      var t := Page(text[..page.value.end], Some(page.value.group));
      PartialTakes(text, t, page.value.end);
      return [t], text[page.value.end..], false;
    }
    var m := SearchToken(text);
    if m.Some? {
      var other, closes := PeelCloses(text[..m.value.start]);
      PartialSkips(text, m.value.start);
      return [Other(other)] + closes, text[m.value.start..], false;
    }
    if EndsWith(text, ")") {
      var other, closes := PeelCloses(text);
      PartialGivesUp(text);
      return [Other(other)] + closes, [], true;
    }
    PartialStops(text);
    return [], text, true;
  }

  /** The turns of `_parse_partial` that take one token of `n` characters off the front. */
  lemma PartialTakes(text: String, t: Token, n: nat)
    requires 0 < n <= |text|
    requires MatchAt(OpenFileRe, text, 0).Some? ==> t == OpenFile(text[..n], Some(MatchAt(OpenFileRe, text, 0).value.group)) && n == MatchAt(OpenFileRe, text, 0).value.end
    requires MatchAt(OpenFileRe, text, 0).None? && text[0] == ')' ==> t == CloseFile && n == 1
    requires MatchAt(OpenFileRe, text, 0).None? && text[0] != ')' && MatchAt(ReadAuxRe, text, 0).Some? ==>
      t == ReadAux(text[..n]) && n == MatchAt(ReadAuxRe, text, 0).value.end
    requires MatchAt(OpenFileRe, text, 0).None? && text[0] != ')' && MatchAt(ReadAuxRe, text, 0).None? && MatchAt(ReadImageRe, text, 0).Some? ==>
      t == ReadImage(text[..n]) && n == MatchAt(ReadImageRe, text, 0).value.end
    requires MatchAt(OpenFileRe, text, 0).None? && text[0] != ')' && MatchAt(ReadAuxRe, text, 0).None? && MatchAt(ReadImageRe, text, 0).None? ==>
      MatchAt(PageRe, text, 0).Some? && t == Page(text[..n], Some(MatchAt(PageRe, text, 0).value.group)) && n == MatchAt(PageRe, text, 0).value.end
    ensures Partial(text) == ([t] + Partial(text[n..]).0, Partial(text[n..]).1)
  {
  }

  /** The turn of `_parse_partial` that skips unrecognised text up to the next file opening or page. */
  lemma PartialSkips(text: String, start: nat)
    requires text != [] && text[0] != ')'
    requires MatchAt(OpenFileRe, text, 0).None? && MatchAt(ReadAuxRe, text, 0).None?
    requires MatchAt(ReadImageRe, text, 0).None? && MatchAt(PageRe, text, 0).None?
    requires SearchToken(text).Some? && start == SearchToken(text).value.start
    ensures 0 < start <= |text|
    ensures Partial(text).0 == [Other(Peel(text[..start]).0)] + Closes(Peel(text[..start]).1) + Partial(text[start..]).0
    ensures Partial(text).1 == Partial(text[start..]).1
  {
  }

  /** The last turn of `_parse_partial` on text that it gives up on as it is. */
  lemma PartialStops(text: String)
    requires text != [] && text[0] != ')' && !EndsWith(text, ")")
    requires MatchAt(OpenFileRe, text, 0).None? && MatchAt(ReadAuxRe, text, 0).None?
    requires MatchAt(ReadImageRe, text, 0).None? && MatchAt(PageRe, text, 0).None?
    requires SearchToken(text).None?
    ensures Partial(text) == ([], text)
  {
  }

  /** The last turn of `_parse_partial` on text that ends in ")". */
  lemma PartialGivesUp(text: String)
    requires text != [] && text[0] != ')' && EndsWith(text, ")")
    requires MatchAt(OpenFileRe, text, 0).None? && MatchAt(ReadAuxRe, text, 0).None?
    requires MatchAt(ReadImageRe, text, 0).None? && MatchAt(PageRe, text, 0).None?
    requires SearchToken(text).None?
    ensures Partial(text) == ([Other(Peel(text).0)] + Closes(Peel(text).1), [])
  {
  }

  /** The part of `line` that is tried as an error or a warning: everything before the first page match. */
  function ErrorPrefix(line: String): (r: String)
    ensures StartsWith(line, r)
    ensures Search(PageRe, line, 0).Some? ==> |r| == Search(PageRe, line, 0).value.start
    ensures Search(PageRe, line, 0).None? ==> r == line
  {
    match Search(PageRe, line, 0)
    case Some(m) => line[..m.start]
    case None => line
  }

  /** What `parse_line` returns. */
  function LineTokens(line: String): seq<Token> {
    var errorLine := ErrorPrefix(line);
    var head := ErrorOrWarning(errorLine);
    var rest := if head.Some? then line[|errorLine|..] else line;
    var r := Partial(rest);
    (if head.Some? then [head.value] else []) + r.0 + (if r.1 != [] then [Other(r.1)] else [])
  }

  /** `parse_line`. */
  method ParseLine(line0: String) returns (tokens: seq<Token>)
    ensures tokens == LineTokens(line0)
  {
    var line := line0;
    tokens := [];
    var errorLine := line;
    var pageMatch := Search(PageRe, line, 0);
    if pageMatch.Some? {
      errorLine := line[..pageMatch.value.start];
    }
    assert errorLine == ErrorPrefix(line0);
    var errorToken := ErrorOrWarning(errorLine);
    if errorToken.Some? {
      tokens := tokens + [errorToken.value];
      line := line[|errorLine|..];
    }
    assert tokens == (if errorToken.Some? then [errorToken.value] else []);
    var parsed, remaining := ParsePartial(line);
    tokens := tokens + parsed;
    if remaining != [] {
      tokens := tokens + [Other(remaining)];
    }
  }

  /** The tokens of `lines`, each followed by a newline token. */
  function LinesTokens(lines: seq<String>): seq<Token> {
    if lines == [] then [] else LineTokens(lines[0]) + [Newline] + LinesTokens(lines[1..])
  }

  /** What `parse_text` returns. */
  function TextTokens(text: String): seq<Token> {
    LinesTokens(SplitLines(text))
  }

  /** The tokens from line `i` on are those of line `i`, a newline, and those of the lines after it. */
  lemma LinesTokensFrom(lines: seq<String>, i: nat)
    requires i < |lines|
    ensures LinesTokens(lines[i..]) == LineTokens(lines[i]) + [Newline] + LinesTokens(lines[i + 1..])
  {
    assert lines[i..][1..] == lines[i + 1..];
  }

  /** Appending the tokens of line `i` and a newline moves the parse on to line `i + 1`. */
  lemma LinesTokensStep(lines: seq<String>, i: nat, done: seq<Token>, line: seq<Token>)
    requires i < |lines| && done + LinesTokens(lines[i..]) == LinesTokens(lines)
    requires line == LineTokens(lines[i])
    ensures (done + line + [Newline]) + LinesTokens(lines[i + 1..]) == LinesTokens(lines)
  {
    LinesTokensFrom(lines, i);
    Regroup(done, line, LinesTokens(lines[i + 1..]));
  }

  /** Concatenation regroups. */
  lemma Regroup(done: seq<Token>, line: seq<Token>, rest: seq<Token>)
    ensures (done + line + [Newline]) + rest == done + (line + [Newline] + rest)
  {
  }

  /** `parse_text`. */
  method ParseText(text: String) returns (tokens: seq<Token>)
    ensures tokens == TextTokens(text)
  {
    var lines := SplitLines(text);
    tokens := [];
    for i := 0 to |lines|
      invariant tokens + LinesTokens(lines[i..]) == LinesTokens(lines)
    {
      var lineTokens := ParseLine(lines[i]);
      LinesTokensStep(lines, i, tokens, lineTokens);
      tokens := tokens + lineTokens + [Newline];
    }
  }
}
