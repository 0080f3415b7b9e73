/** What the hand-written parser of quietex/parsing.py promises about the tokens it returns. */
module ParsingProps {
  import opened PyStr
  import opened Scan
  import opened Tokens
  import opened Parsing

  lemma SliceJoin(text: String, n: nat)
    requires n <= |text|
    ensures text[..n] + text[n..] == text
  {
  }

  /** Taking the token `t`, `n` characters long, off the front keeps the round trip. */
  lemma TakeRoundTrip(text: String, t: Token, n: nat, tokens: seq<Token>, rest: String)
    requires n <= |text| && t.Text() == text[..n]
    requires Texts(tokens) + rest == text[n..]
    ensures Texts([t] + tokens) + rest == text
  {
    TextsAppend([t], tokens);
    TextsSingle(t);
    JoinParts(t.Text(), Texts(tokens), rest, text, n);
  }

  /** The texts of an `OtherToken` and the close-file tokens peeled off it give back the text it was cut from. */
  lemma PeeledRoundTrip(msg: String)
    ensures Texts([Other(Peel(msg).0)] + Closes(Peel(msg).1)) == msg
  {
    TextsAppend([Other(Peel(msg).0)], Closes(Peel(msg).1));
    TextsOfCloses(Peel(msg).1);
    TextsSingle(Other(Peel(msg).0));
  }

  /** A turn that takes the token `t`, `n` characters long, keeps the round trip of the rest. */
  lemma TakeStep(text: String, t: Token, n: nat)
    requires 0 < n <= |text| && t.Text() == text[..n]
    requires Partial(text) == ([t] + Partial(text[n..]).0, Partial(text[n..]).1)
    requires Texts(Partial(text[n..]).0) + Partial(text[n..]).1 == text[n..]
    ensures Texts(Partial(text).0) + Partial(text).1 == text
  {
    TakeRoundTrip(text, t, n, Partial(text[n..]).0, Partial(text[n..]).1);
  }

  /** A turn that skips unrecognised text up to `start` keeps the round trip of the rest. */
  lemma SkipStep(text: String, start: nat, tokens: seq<Token>, rest: String)
    requires 0 < start <= |text|
    requires Texts(tokens) + rest == text[start..]
    ensures Texts([Other(Peel(text[..start]).0)] + Closes(Peel(text[..start]).1) + tokens) + rest == text
  {
    var head := [Other(Peel(text[..start]).0)] + Closes(Peel(text[..start]).1);
    PeeledRoundTrip(text[..start]);
    TextsAppend(head, tokens);
    JoinParts(Texts(head), Texts(tokens), rest, text, start);
  }

  /** The last turn, on text ending in ")", loses nothing. */
  lemma GiveUpStep(text: String)
    requires Partial(text) == ([Other(Peel(text).0)] + Closes(Peel(text).1), [])
    ensures Texts(Partial(text).0) + Partial(text).1 == text
  {
    PeeledRoundTrip(text);
  }

  /** `_parse_partial` loses nothing: its tokens' texts and the text it gives up on make up its input. */
  lemma {:induction false} PartialRoundTrip(text: String)
    ensures Texts(Partial(text).0) + Partial(text).1 == text
    decreases |text|
  {
    if text == [] {
      return;
    }
    var open := MatchAt(OpenFileRe, text, 0);
    var aux := MatchAt(ReadAuxRe, text, 0);
    var image := MatchAt(ReadImageRe, text, 0);
    var page := MatchAt(PageRe, text, 0);
    if open.Some? {
      var n := open.value.end;
      PartialRoundTrip(text[n..]);
      PartialTakes(text, OpenFile(text[..n], Some(open.value.group)), n);
      TakeStep(text, OpenFile(text[..n], Some(open.value.group)), n);
    } else if text[0] == ')' {
      PartialRoundTrip(text[1..]);
      PartialTakes(text, CloseFile, 1);
      TakeStep(text, CloseFile, 1);
    } else if aux.Some? {
      var n := aux.value.end;
      PartialRoundTrip(text[n..]);
      PartialTakes(text, ReadAux(text[..n]), n);
      TakeStep(text, ReadAux(text[..n]), n);
    } else if image.Some? {
      var n := image.value.end;
      PartialRoundTrip(text[n..]);
      PartialTakes(text, ReadImage(text[..n]), n);
      TakeStep(text, ReadImage(text[..n]), n);
    } else if page.Some? {
      var n := page.value.end;
      PartialRoundTrip(text[n..]);
      PartialTakes(text, Page(text[..n], Some(page.value.group)), n);
      TakeStep(text, Page(text[..n], Some(page.value.group)), n);
    } else if SearchToken(text).Some? {
      var start := SearchToken(text).value.start;
      PartialSkips(text, start);
      PartialRoundTrip(text[start..]);
      SkipStep(text, start, Partial(text[start..]).0, Partial(text[start..]).1);
    } else if EndsWith(text, ")") {
      PartialGivesUp(text);
      GiveUpStep(text);
    } else {
      PartialStops(text);
    }
  }

  /** The tokens after the error or warning: what `_parse_partial` found, then the rest as one `OtherToken`. */
  function RestTokens(text: String): seq<Token> {
    Partial(text).0 + (if Partial(text).1 != [] then [Other(Partial(text).1)] else [])
  }

  lemma RestRoundTrip(text: String)
    ensures Texts(RestTokens(text)) == text
  {
    PartialRoundTrip(text);
    var r := Partial(text);
    if r.1 != [] {
      TextsAppend(r.0, [Other(r.1)]);
      TextsSingle(Other(r.1));
    } else {
      assert RestTokens(text) == r.0;
    }
  }

  lemma LineTokensSplit(line: String)
    ensures var e := ErrorPrefix(line);
      LineTokens(line) == (if ErrorOrWarning(e).Some? then [ErrorOrWarning(e).value] + RestTokens(line[|e|..]) else RestTokens(line))
  {
  }

  /** `parse_line` round-trips: the tokens' texts, joined, are the line. */
  lemma LineRoundTrip(line: String)
    ensures Texts(LineTokens(line)) == line
  {
    var e := ErrorPrefix(line);
    LineTokensSplit(line);
    var head := ErrorOrWarning(e);
    if head.Some? {
      RestRoundTrip(line[|e|..]);
      TextsAppend([head.value], RestTokens(line[|e|..]));
      TextsSingle(head.value);
      SliceJoin(line, |e|);
    } else {
      RestRoundTrip(line);
    }
  }

  /** One line and its newline token give back the line and "\n". */
  lemma LineAndNewlineRoundTrip(line: String)
    ensures Texts(LineTokens(line) + [Newline]) == line + "\n"
  {
    LineRoundTrip(line);
    TextsAppend(LineTokens(line), [Newline]);
    TextsSingle(Newline);
  }

  /** `parse_text` round-trips text made of "\n"-terminated lines. */
  lemma {:induction false} TextRoundTrip(text: String)
    requires NewlineTerminated(text)
    ensures Texts(TextTokens(text)) == text
    decreases |text|
  {
    if text != [] {
      var i := SplitLinesFirst(text);
      var rest := text[i + 1..];
      TextRoundTrip(rest);
      var lines := SplitLines(text);
      assert lines[0] == text[..i] && lines[1..] == SplitLines(rest);
      assert TextTokens(text) == LineTokens(text[..i]) + [Newline] + TextTokens(rest);
      LineAndNewlineRoundTrip(text[..i]);
      TextsAppend(LineTokens(text[..i]) + [Newline], TextTokens(rest));
    }
  }

  /** What a token taken by `_parse_partial` looks like; it never makes errors, warnings or newlines. */
  predicate IsPartialToken(t: Token) {
    match t
    case CloseFile => true
    case OpenFile(body, v) => v.Some? && IsOpenFileText(body, v.value)
    case Page(body, v) => v.Some? && IsPageText(body, v.value)
    case ReadAux(body) => IsReadAuxText(body)
    case ReadImage(body) => IsReadImageText(body)
    case Other(body) => body != []
    case _ => false
  }

  predicate AllPartialTokens(ts: seq<Token>) {
    forall i :: 0 <= i < |ts| ==> IsPartialToken(ts[i])
  }

  lemma AllPartialTokensCons(t: Token, ts: seq<Token>)
    requires IsPartialToken(t) && AllPartialTokens(ts)
    ensures AllPartialTokens([t] + ts)
  {
  }

  lemma AllPartialTokensCloses(n: nat)
    ensures AllPartialTokens(Closes(n))
  {
  }

  /** The unrecognised text before a file opening or page, or at the end, is never empty. */
  lemma PeeledOther(msg: String, ts: seq<Token>)
    requires msg != [] && msg[0] != ')' && AllPartialTokens(ts)
    ensures AllPartialTokens([Other(Peel(msg).0)] + Closes(Peel(msg).1) + ts)
  {
    PeelKeepsHead(msg);
    AllPartialTokensCloses(Peel(msg).1);
    var head := [Other(Peel(msg).0)];
    AllPartialTokensAppend(head, Closes(Peel(msg).1));
    AllPartialTokensAppend(head + Closes(Peel(msg).1), ts);
  }

  lemma AllPartialTokensAppend(a: seq<Token>, b: seq<Token>)
    requires AllPartialTokens(a) && AllPartialTokens(b)
    ensures AllPartialTokens(a + b)
  {
    forall i | 0 <= i < |a + b|
      ensures IsPartialToken((a + b)[i])
    {
      if i < |a| {
        assert (a + b)[i] == a[i];
      } else {
        assert (a + b)[i] == b[i - |a|];
      }
    }
  }

  /**
   * Every token `_parse_partial` takes has its pattern's shape: a file opening
   * is an optional space, "(" and a path, and its value is the path; a page is
   * an optional space, "[", digits and an optional "]", and its value is the
   * digits; reads of auxiliary files and images are bracketed by "{" "}" and
   * "<" ">"; unrecognised text is never empty.
   */
  lemma {:induction false} PartialTokensShape(text: String)
    ensures AllPartialTokens(Partial(text).0)
    decreases |text|
  {
    if text == [] {
      return;
    }
    var open := MatchAt(OpenFileRe, text, 0);
    var aux := MatchAt(ReadAuxRe, text, 0);
    var image := MatchAt(ReadImageRe, text, 0);
    var page := MatchAt(PageRe, text, 0);
    if open.Some? {
      var n := open.value.end;
      PartialTokensShape(text[n..]);
      PartialTakes(text, OpenFile(text[..n], Some(open.value.group)), n);
      MatchShape(OpenFileRe, text, 0);
      AllPartialTokensCons(OpenFile(text[..n], Some(open.value.group)), Partial(text[n..]).0);
    } else if text[0] == ')' {
      PartialTokensShape(text[1..]);
      PartialTakes(text, CloseFile, 1);
      AllPartialTokensCons(CloseFile, Partial(text[1..]).0);
    } else if aux.Some? {
      var n := aux.value.end;
      PartialTokensShape(text[n..]);
      PartialTakes(text, ReadAux(text[..n]), n);
      MatchShape(ReadAuxRe, text, 0);
      AllPartialTokensCons(ReadAux(text[..n]), Partial(text[n..]).0);
    } else if image.Some? {
      var n := image.value.end;
      PartialTokensShape(text[n..]);
      PartialTakes(text, ReadImage(text[..n]), n);
      MatchShape(ReadImageRe, text, 0);
      AllPartialTokensCons(ReadImage(text[..n]), Partial(text[n..]).0);
    } else if page.Some? {
      var n := page.value.end;
      PartialTokensShape(text[n..]);
      PartialTakes(text, Page(text[..n], Some(page.value.group)), n);
      MatchShape(PageRe, text, 0);
      AllPartialTokensCons(Page(text[..n], Some(page.value.group)), Partial(text[n..]).0);
    } else if SearchToken(text).Some? {
      var start := SearchToken(text).value.start;
      PartialSkips(text, start);
      PartialTokensShape(text[start..]);
      PeeledOther(text[..start], Partial(text[start..]).0);
    } else if EndsWith(text, ")") {
      PartialGivesUp(text);
      PeeledOther(text, []);
      assert [Other(Peel(text).0)] + Closes(Peel(text).1) + [] == Partial(text).0;
    } else {
      PartialStops(text);
    }
  }

  /** Everything after the error or warning has the shapes `_parse_partial` gives its tokens. */
  lemma RestTokensShape(text: String)
    ensures AllPartialTokens(RestTokens(text))
  {
    PartialTokensShape(text);
  }

  /** Tokens of the shapes `_parse_partial` gives are neither errors nor warnings. */
  lemma PartialTokensNotError(ts: seq<Token>)
    requires AllPartialTokens(ts)
    ensures forall i :: 0 <= i < |ts| ==> !ts[i].Error? && !ts[i].Warning?
  {
  }

  /**
   * The first token is an error with exactly the text before the first page
   * match when that text starts with "!", and otherwise a warning when that
   * text is one; the rest of the line is parsed after it.
   */
  lemma ErrorOrWarningFirst(line: String)
    ensures var e := ErrorPrefix(line); var tokens := LineTokens(line);
      (ErrorOrWarning(e).Some? ==> |tokens| > 0 && tokens[1..] == RestTokens(line[|e|..]))
      && (StartsWith(e, "!") ==> |tokens| > 0 && tokens[0] == Error(e))
      && (!StartsWith(e, "!") && IsWarning(e) ==> |tokens| > 0 && tokens[0] == Warning(e))
      && (ErrorOrWarning(e).None? ==> tokens == RestTokens(line))
  {
    LineTokensSplit(line);
  }

  /** Only the first token of a line can be an error or a warning, and only when the text before the first page match is one. */
  lemma ErrorOrWarningOnlyFirst(line: String)
    ensures var tokens := LineTokens(line);
      forall i :: 0 <= i < |tokens| && (tokens[i].Error? || tokens[i].Warning?) ==> i == 0 && ErrorOrWarning(ErrorPrefix(line)).Some?
  {
    var e := ErrorPrefix(line);
    var tokens := LineTokens(line);
    ErrorOrWarningFirst(line);
    if ErrorOrWarning(e).Some? {
      var rest := RestTokens(line[|e|..]);
      RestTokensShape(line[|e|..]);
      PartialTokensNotError(rest);
      assert forall i :: 1 <= i < |tokens| ==> tokens[i] == rest[i - 1];
    } else {
      RestTokensShape(line);
      PartialTokensNotError(RestTokens(line));
    }
  }

  /** A line in which no pattern matches, that is no error or warning, and has no surplus ")" is one `OtherToken`. */
  lemma PlainLineIsOneOther(line: String)
    requires line != [] && line[0] != ')' && !PeelCond(line)
    requires !StartsWith(line, "!") && !IsWarning(line)
    requires Search(OpenFileRe, line, 0).None? && Search(PageRe, line, 0).None?
    requires MatchAt(ReadAuxRe, line, 0).None? && MatchAt(ReadImageRe, line, 0).None?
    ensures LineTokens(line) == [Other(line)]
  {
    LineTokensSplit(line);
    assert MatchAt(OpenFileRe, line, 0).None? && MatchAt(PageRe, line, 0).None?;
    if EndsWith(line, ")") {
      PartialGivesUp(line);
    } else {
      PartialStops(line);
    }
  }
}
