/** What the state tracking of quietex/status.py promises. */
module StatusProps {
  import opened PyStr
  import opened Scan
  import opened Lexer
  import opened LexerProps
  import opened Status

  /** A start-page value of the lexer strips down to its digits, possibly followed by one whitespace character. */
  lemma PageValueStrip(v: String)
    requires IsPageValue(v)
    ensures var k := SpanEnd(v, 1, Digits);
      1 < k <= |v| && (Strip(v, PageStrip) == v[1..k] || (k == |v| - 1 && Strip(v, PageStrip) == v[1..]))
  {
    var k := SpanEnd(v, 1, Digits);
    PageValueLeft(v);
    if k == |v| {
      assert v[1..] == v[1..k];
      DigitsKept(v[1..]);
    } else if v[k] == ' ' {
      PageValueRightSpace(v, k);
    } else {
      assert k == |v| - 1 && IsSpace(v[k]);
      assert v[1..][|v| - 2] == v[k] && v[k] !in PageStrip;
      RStripStep(v[1..], PageStrip);
    }
  }

  /** The "[" goes and the first digit stops `lstrip`. */
  lemma PageValueLeft(v: String)
    requires IsPageValue(v)
    ensures LStrip(v, PageStrip) == v[1..]
  {
    assert IsDigit(v[1]) && v[1] == v[1..][0];
    LStripStep(v, PageStrip);
    LStripStep(v[1..], PageStrip);
  }

  /** A run ending in a digit is kept whole by `rstrip`. */
  lemma DigitsKept(d: String)
    requires d != [] && IsDigit(d[|d| - 1])
    ensures RStrip(d, PageStrip) == d
  {
    RStripStep(d, PageStrip);
  }

  /** A trailing space after the digits goes. */
  lemma PageValueRightSpace(v: String, k: nat)
    requires IsPageValue(v) && k == SpanEnd(v, 1, Digits) && k < |v| && v[k] == ' '
    ensures RStrip(v[1..], PageStrip) == v[1..k]
  {
    assert k == |v| - 1;
    var p := v[1..];
    assert p[..|p| - 1] == v[1..k] && p[|p| - 1] == ' ';
    RStripStep(p, PageStrip);
    assert IsDigit(v[k - 1]) && v[1..k][k - 2] == v[k - 1];
    DigitsKept(v[1..k]);
  }

  /** `int()` reads a lexer's start-page value as the number its digits spell. */
  lemma PageValueParses(v: String)
    requires IsPageValue(v)
    ensures IsIntText(Strip(v, PageStrip))
    ensures IntValue(Strip(v, PageStrip)) == DigitsValue(v[1..SpanEnd(v, 1, Digits)])
  {
    var k := SpanEnd(v, 1, Digits);
    PageValueStrip(v);
    var t := Strip(v, PageStrip);
    var d := v[1..k];
    assert forall i :: 0 <= i < |d| ==> IsDigit(d[i]) by {
      assert AllIn(v, 1, k, Digits);
    }
    DigitsTrimmed(d);
    if t != d {
      assert t == d + [v[k]] && IsSpace(v[k]);
      DigitsThenSpace(d, v[k]);
    }
    assert StripSpace(t) == d;
  }

  /** Digits and one whitespace character strip to the digits. */
  lemma DigitsThenSpace(d: String, c: char)
    requires d != [] && IsDigit(d[0]) && IsDigit(d[|d| - 1]) && IsSpace(c)
    ensures StripSpace(d + [c]) == d
  {
    var t := d + [c];
    assert t[0] == d[0];
    assert LStripSpace(t) == t;
    assert t[..|t| - 1] == d;
    DigitsTrimmed(d);
  }

  /** Digits have no whitespace to strip. */
  lemma DigitsTrimmed(d: String)
    requires d != [] && IsDigit(d[0]) && IsDigit(d[|d| - 1])
    ensures StripSpace(d) == d
  {
    assert LStripSpace(d) == d;
  }

  /** Everything the lexer produces can be given to `update`. */
  lemma LexPagesParse(line: String)
    requires PlainLine(line)
    ensures PagesParse(Lex(line))
  {
    LexWellFormed(line);
    var ls := Lex(line);
    forall i | 0 <= i < |ls|
      ensures PageParses(ls[i])
    {
      assert WellFormed(ls[i]);
      if ls[i].ttype == StartPageType {
        PageValueParses(ls[i].value);
      }
    }
  }

  /** An open-file value of the lexer strips down to its path. */
  lemma OpenFileValueStrip(v: String)
    requires IsOpenFileValue(v)
    ensures Strip(v, FileStrip) == v[1..]
  {
    var p := v[1..];
    assert LStrip(v, FileStrip) == p by {
      assert IsPathChar(p[0]);
      LStripStep(v, FileStrip);
      LStripStep(p, FileStrip);
    }
    assert RStrip(p, FileStrip) == p by {
      assert IsPathChar(p[|p| - 1]);
      RStripStep(p, FileStrip);
    }
  }

  /** The kinds `update` reacts to are three different kinds. */
  lemma TrackedDistinct()
    ensures StartPageType != OpenFileType && StartPageType != CloseFileType && OpenFileType != CloseFileType
  {
    assert StartPageType[1] != OpenFileType[1] && StartPageType[1] != CloseFileType[1];
    assert OpenFileType[2] != CloseFileType[2];
  }

  /** A start-page token sets the page to the number it shows: `[2 ` gives 2. */
  lemma StartPageSets(page: Option<nat>, v: String)
    requires IsPageValue(v)
    ensures PagesParse([Lexeme(StartPageType, v)])
    ensures PageAfter(page, [Lexeme(StartPageType, v)]) == Some(DigitsValue(v[1..SpanEnd(v, 1, Digits)]))
  {
    PageValueParses(v);
    assert [Lexeme(StartPageType, v)][..0] == [];
  }

  /** An open-file token pushes its path, which becomes the current file. */
  lemma OpenFileMakesCurrent(stack: seq<String>, v: String)
    requires IsOpenFileValue(v)
    ensures StackAfter(stack, [Lexeme(OpenFileType, v)]) == stack + [v[1..]]
    ensures Top(StackAfter(stack, [Lexeme(OpenFileType, v)])) == Some(v[1..])
  {
    OpenFileValueStrip(v);
    TrackedDistinct();
    assert [Lexeme(OpenFileType, v)][..0] == [];
  }

  /** A close-file token pops the current file; on an empty stack it changes nothing. */
  lemma CloseFilePops(stack: seq<String>, v: String)
    ensures stack != [] ==> StackAfter(stack, [Lexeme(CloseFileType, v)]) == stack[..|stack| - 1]
    ensures stack == [] ==> StackAfter(stack, [Lexeme(CloseFileType, v)]) == []
  {
    TrackedDistinct();
    assert [Lexeme(CloseFileType, v)][..0] == [];
  }

  /** Opening a file and closing it restores the stack. */
  lemma OpenThenClose(stack: seq<String>, open: String, close: String)
    ensures StackAfter(stack, [Lexeme(OpenFileType, open), Lexeme(CloseFileType, close)]) == stack
  {
    var ts := [Lexeme(OpenFileType, open), Lexeme(CloseFileType, close)];
    TrackedDistinct();
    assert ts[..1] == [Lexeme(OpenFileType, open)];
    assert ts[..1][..0] == [];
    var pushed := stack + [Strip(open, FileStrip)];
    assert StackAfter(stack, ts[..1]) == pushed;
    assert StackAfter(stack, ts) == NextStack(pushed, ts[1]);
    assert pushed[..|pushed| - 1] == stack;
  }

  /** The kinds `update` reacts to. */
  predicate Tracked(t: TokenType) {
    t == StartPageType || t == OpenFileType || t == CloseFileType
  }

  /** Tokens of any other kind leave page and stack as they are. */
  lemma {:induction false} UntrackedKeepState(page: Option<nat>, stack: seq<String>, tokens: seq<Lexeme>)
    requires forall i :: 0 <= i < |tokens| ==> !Tracked(tokens[i].ttype)
    ensures PagesParse(tokens)
    ensures PageAfter(page, tokens) == page && StackAfter(stack, tokens) == stack
    decreases |tokens|
  {
    if tokens != [] {
      UntrackedKeepState(page, stack, tokens[..|tokens| - 1]);
    }
  }

  /** Following `a + b` is following `a` and then `b`. */
  lemma {:induction false} AfterAppend(page: Option<nat>, stack: seq<String>, a: seq<Lexeme>, b: seq<Lexeme>)
    requires PagesParse(a) && PagesParse(b)
    ensures PagesParse(a + b)
    ensures PageAfter(page, a + b) == PageAfter(PageAfter(page, a), b)
    ensures StackAfter(stack, a + b) == StackAfter(StackAfter(stack, a), b)
    decreases |b|
  {
    if b == [] {
      assert a + b == a;
    } else {
      assert (a + b)[..|a + b| - 1] == a + b[..|b| - 1];
      AfterAppend(page, stack, a, b[..|b| - 1]);
    }
  }

  /** Without a start-page token the page is unchanged. */
  lemma {:induction false} PageWithoutStartPage(page: Option<nat>, tokens: seq<Lexeme>)
    requires forall i :: 0 <= i < |tokens| ==> tokens[i].ttype != StartPageType
    ensures PagesParse(tokens) && PageAfter(page, tokens) == page
    decreases |tokens|
  {
    if tokens != [] {
      PageWithoutStartPage(page, tokens[..|tokens| - 1]);
    }
  }

  /** Otherwise the page is the one the last start-page token names. */
  lemma {:induction false} PageIsLastStartPage(page: Option<nat>, tokens: seq<Lexeme>, i: nat)
    requires PagesParse(tokens)
    requires i < |tokens| && tokens[i].ttype == StartPageType
    requires forall j :: i < j < |tokens| ==> tokens[j].ttype != StartPageType
    ensures PageAfter(page, tokens) == Some(IntValue(Strip(tokens[i].value, PageStrip)))
    decreases |tokens|
  {
    assert PageParses(tokens[i]);
    if i < |tokens| - 1 {
      PageIsLastStartPage(page, tokens[..|tokens| - 1], i);
    }
  }

  /** Opened files minus closed files. */
  function Depth(tokens: seq<Lexeme>): int {
    if tokens == [] then 0
    else
      var t := tokens[|tokens| - 1].ttype;
      Depth(tokens[..|tokens| - 1]) + (if t == OpenFileType then 1 else if t == CloseFileType then -1 else 0)
  }

  /** Every close-file token closes a file opened earlier in the same tokens. */
  predicate ClosesOnlyOpened(tokens: seq<Lexeme>) {
    tokens == []
    || (ClosesOnlyOpened(tokens[..|tokens| - 1])
        && (tokens[|tokens| - 1].ttype == CloseFileType ==> Depth(tokens[..|tokens| - 1]) > 0))
  }

  /** Tokens that close only what they opened keep the stack below them and push one path per file left open. */
  lemma {:induction false} NestedKeepsBase(stack: seq<String>, tokens: seq<Lexeme>)
    requires ClosesOnlyOpened(tokens)
    ensures Depth(tokens) >= 0
    ensures |StackAfter(stack, tokens)| == |stack| + Depth(tokens)
    ensures StackAfter(stack, tokens)[..|stack|] == stack
    decreases |tokens|
  {
    if tokens != [] {
      var init := tokens[..|tokens| - 1];
      NestedKeepsBase(stack, init);
      var before := StackAfter(stack, init);
      var t := tokens[|tokens| - 1];
      TrackedDistinct();
      if t.ttype == OpenFileType {
        assert (before + [Strip(t.value, FileStrip)])[..|stack|] == before[..|stack|];
      } else if t.ttype == CloseFileType {
        assert before[..|before| - 1][..|stack|] == before[..|stack|];
      }
    }
  }

  /**
   * Once the status bar is printed it stays clean through tokens that name no
   * page and close every file they open: neither the page nor the current file moves.
   */
  lemma BalancedKeepsStatus(page: Option<nat>, stack: seq<String>, tokens: seq<Lexeme>)
    requires forall i :: 0 <= i < |tokens| ==> tokens[i].ttype != StartPageType
    requires ClosesOnlyOpened(tokens) && Depth(tokens) == 0
    ensures PagesParse(tokens)
    ensures PageAfter(page, tokens) == page && StackAfter(stack, tokens) == stack
  {
    PageWithoutStartPage(page, tokens);
    NestedKeepsBase(stack, tokens);
    assert StackAfter(stack, tokens) == StackAfter(stack, tokens)[..|stack|];
  }

  /** `" (f)".strip(" ")` and `"[p] (f)".strip(" ")`: only the leading space goes. */
  lemma StripAroundFile(withPage: String, file: String)
    requires withPage == [] || withPage[0] == '['
    ensures Strip(withPage + " (" + file + ")", {' '}) == (if withPage == [] then "(" + file + ")" else withPage + " (" + file + ")")
  {
    var s := withPage + " (" + file + ")";
    if withPage == [] {
      assert s[1..] == "(" + file + ")";
      assert LStrip(s[1..], {' '}) == s[1..];
      assert LStrip(s, {' '}) == s[1..];
    } else {
      assert s[0] == '[';
      assert LStrip(s, {' '}) == s;
    }
  }

  /**
   * The status bar holds "[p]" for a truthy page and "(f)" for a truthy file,
   * joined by one space when there are both, and nothing otherwise.
   */
  lemma StatusTextCases(page: Option<nat>, file: Option<String>)
    ensures var p := page.Some? && page.value != 0;
      var f := file.Some? && file.value != "";
      StatusText(page, file)
        == if p && f then "[" + NatToString(page.value) + "] (" + file.value + ")"
           else if p then "[" + NatToString(page.value) + "]"
           else if f then "(" + file.value + ")"
           else ""
  {
    if file.Some? && file.value != "" {
      var withPage := if page.Some? && page.value != 0 then "[" + NatToString(page.value) + "]" else "";
      StripAroundFile(withPage, file.value);
    }
  }

  /** The status bars the tests expect when no file is shown. */
  lemma StatusTextExamples()
    ensures StatusText(None, None) == ""
    ensures StatusText(Some(1), None) == "[1]"
    ensures StatusText(Some(0), Some("")) == ""
  {
    assert NatToString(1) == "1";
  }

  /** The status bars the tests expect when a file is shown. */
  lemma StatusTextFileExamples()
    ensures StatusText(None, Some("./test.tex")) == "(./test.tex)"
    ensures StatusText(Some(1), Some("./test.tex")) == "[1] (./test.tex)"
  {
    assert NatToString(1) == "1";
    StatusTextCases(None, Some("./test.tex"));
    StatusTextCases(Some(1), Some("./test.tex"));
    FileExampleSpelled();
  }

  /** How the expected status bars are spelled. */
  lemma FileExampleSpelled()
    ensures "(" + "./test.tex" + ")" == "(./test.tex)"
    ensures "[" + "1" + "] (" + "./test.tex" + ")" == "[1] (./test.tex)"
  {
  }
}
