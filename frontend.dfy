/**
 * The frontends of quietex/frontend.py: they lex each line of compiler
 * output, keep the application state up to date, write the formatted tokens
 * and keep a status bar. What they write to standard output is recorded in
 * `written`, one entry per write; the terminal width enters as a parameter.
 */
module Frontend {
  import opened PyStr
  import opened Lexer
  import opened Styles
  import opened Formatter
  import opened Scan
  import opened LexerProps
  import opened Status
  import opened StatusProps

  const CursorUp: String := "\U{1B}[A"
  const CursorToStart: String := "\U{1B}[G"
  const DeleteWholeLine: String := "\U{1B}[2K"

  /** No value holds a newline, which `format_unencoded` insists on. */
  predicate NoNewlines(tokens: seq<Lexeme>) {
    forall i :: 0 <= i < |tokens| ==> '\n' !in tokens[i].value
  }

  /** The tokens `_print_tokens` formats: in quiet mode, those the quiet filter keeps. */
  function Shown(quiet: bool, tokens: seq<Lexeme>): seq<Lexeme> {
    if quiet then QuietFilter(tokens) else tokens
  }

  /** What `_print_tokens` writes: the formatted tokens and `end`, or nothing when no token is left. */
  function TokensOutput(quiet: bool, tokens: seq<Lexeme>, end: String): seq<Rich> {
    var shown := Shown(quiet, tokens);
    if shown == [] then [] else [Formatted(StyleTable, shown) + [Plain(end)]]
  }

  /** What `_clear_status` writes. */
  function ClearOutput(keepLastStatus: bool, lastStatusLength: nat, width: nat): seq<Rich>
    requires width > 0
  {
    if keepLastStatus then [[Plain("\n")]]
    else [[Plain(CursorToStart + DeleteWholeLine)]] + Repeat([Plain(CursorUp + DeleteWholeLine)], lastStatusLength / width)
  }

  /** `n` copies of `r`. */
  function Repeat(r: Rich, n: nat): (rs: seq<Rich>)
    ensures |rs| == n && forall i :: 0 <= i < n ==> rs[i] == r
  {
    if n == 0 then [] else Repeat(r, n - 1) + [r]
  }

  /** `BasicFrontend`: colour, but no cursor movement. */
  class BasicFrontend {
    const quiet: bool
    const state: AppState
    const formatter: AnsiTerminalFormatter
    var lastStatusLength: nat
    var written: seq<Rich>

    /** The formatter keeps the table it was made with. */
    predicate Valid() {
      formatter.style == StyleTable
    }

    constructor(quiet: bool)
      ensures this.quiet == quiet && Valid()
      ensures fresh(state) && state.currentPage == None && state.fileStack == []
      ensures !state.StatusDirty()
      ensures lastStatusLength == 0 && written == []
    {
      this.quiet := quiet;
      state := new AppState();
      formatter := new AnsiTerminalFormatter();
      lastStatusLength := 0;
      written := [];
    }

    /** `_write`: one write to standard output. */
    method Write(raw: Rich)
      modifies this
      ensures written == old(written) + [raw]
      ensures lastStatusLength == old(lastStatusLength)
    {
      written := written + [raw];
    }

    /** `input`: shows the prompt styled as a prompt and returns what the user typed, which enters as `reply`. */
    method Input(prompt: String, reply: String) returns (answer: String)
      requires Valid() && '\n' !in prompt
      modifies this
      ensures answer == reply
      ensures written == old(written) + [Formatted(StyleTable, [Lexeme(PromptType, prompt)])]
      ensures lastStatusLength == old(lastStatusLength)
    {
      var raw := formatter.FormatUnencoded([Lexeme(PromptType, prompt)]);
      Write(raw);
      answer := reply;
    }

    /** `_print_tokens`: updates the state from all tokens, then writes those left after quiet filtering. */
    method PrintTokens(tokens: seq<Lexeme>, end: String)
      requires Valid() && PagesParse(tokens) && NoNewlines(Shown(quiet, tokens))
      modifies this, state
      ensures state.currentPage == PageAfter(old(state.currentPage), tokens)
      ensures state.fileStack == StackAfter(old(state.fileStack), tokens)
      ensures state.lastPagePrinted == old(state.lastPagePrinted) && state.lastFilePrinted == old(state.lastFilePrinted)
      ensures written == old(written) + TokensOutput(quiet, tokens, end)
      ensures lastStatusLength == old(lastStatusLength)
    {
      state.Update(tokens);
      var shown := if quiet then QuietFilter(tokens) else tokens;
      if shown != [] {
        var out := formatter.FormatUnencoded(shown);
        Write(out + [Plain(end)]);
      }
    }

    /** `print_status`: writes the status bar as a status token and records its length; the state becomes clean. */
    method PrintStatus(end: String)
      requires Valid() && '\n' !in StatusText(state.currentPage, state.CurrentFile())
      modifies this, state
      ensures lastStatusLength == |StatusText(old(state.currentPage), old(state.CurrentFile()))|
      ensures written == old(written) + TokensOutput(quiet, [Lexeme(StatusType, StatusText(old(state.currentPage), old(state.CurrentFile())))], end)
      ensures state.currentPage == old(state.currentPage) && state.fileStack == old(state.fileStack)
      ensures !state.StatusDirty()
    {
      var status := state.FormatStatus();
      lastStatusLength := |status|;
      UntrackedSingle(Lexeme(StatusType, status), state.currentPage, state.fileStack);
      PrintTokens([Lexeme(StatusType, status)], end);
    }

    /** `log`: writes a log message as a line of its own. */
    method Log(message: String)
      requires Valid() && '\n' !in message
      modifies this, state
      ensures written == old(written) + TokensOutput(quiet, [Lexeme(LogMessageType, message)], "\n")
      ensures state.currentPage == old(state.currentPage) && state.fileStack == old(state.fileStack)
      ensures state.lastPagePrinted == old(state.lastPagePrinted) && state.lastFilePrinted == old(state.lastFilePrinted)
      ensures lastStatusLength == old(lastStatusLength)
    {
      UntrackedSingle(Lexeme(LogMessageType, message), state.currentPage, state.fileStack);
      PrintTokens([Lexeme(LogMessageType, message)], "\n");
    }

    /** `print`: lexes and writes a line, then writes the status bar when the line changed page or file. */
    method Print(value: String)
      requires Valid() && PlainLine(value)
      requires FilesPrintable(state.fileStack)
      modifies this, state
      ensures state.currentPage == PageAfterLine(old(state.currentPage), value)
      ensures state.fileStack == StackAfter(old(state.fileStack), Lex(value))
      ensures var dirty := state.currentPage != old(state.lastPagePrinted) || state.CurrentFile() != old(state.lastFilePrinted);
        written == old(written) + TokensOutput(quiet, Lex(value), "\n")
          + (if dirty then TokensOutput(quiet, [Lexeme(StatusType, StatusText(state.currentPage, state.CurrentFile()))], "\n") else [])
      ensures var dirty := state.currentPage != old(state.lastPagePrinted) || state.CurrentFile() != old(state.lastFilePrinted);
        (dirty ==> lastStatusLength == |StatusText(state.currentPage, state.CurrentFile())|)
        && (!dirty ==> lastStatusLength == old(lastStatusLength))
      ensures !state.StatusDirty()
    {
      LexPrintable(value);
      PrintTokens(Lex(value), "\n");
      if state.StatusDirty() {
        StackAfterLineFiles(old(state.fileStack), value);
        StatusTextNoNewline(state.currentPage, state.fileStack);
        PrintStatus("\n");
      }
    }
  }

  /** `TerminalFrontend`: a `BasicFrontend` that also moves the cursor to rewrite the status bar in place. */
  class TerminalFrontend {
    const basic: BasicFrontend
    var keepLastStatus: bool

    predicate Valid() {
      basic.Valid()
    }

    constructor(quiet: bool)
      ensures Valid() && basic.quiet == quiet && fresh(basic) && fresh(basic.state)
      ensures basic.written == [] && basic.lastStatusLength == 0 && !keepLastStatus
    {
      basic := new BasicFrontend(quiet);
      keepLastStatus := false;
    }

    /** `_clear_status`: ends a status line that is to stay, or erases the last status bar, line by line. */
    method ClearStatus(width: nat)
      requires width > 0
      modifies this, basic
      ensures basic.written == old(basic.written) + ClearOutput(old(keepLastStatus), basic.lastStatusLength, width)
      ensures !keepLastStatus && basic.lastStatusLength == old(basic.lastStatusLength)
    {
      if keepLastStatus {
        basic.Write([Plain("\n")]);
        keepLastStatus := false;
      } else {
        basic.Write([Plain(CursorToStart + DeleteWholeLine)]);
        var lines := basic.lastStatusLength / width;
        for i := 0 to lines
          invariant basic.written == old(basic.written) + [[Plain(CursorToStart + DeleteWholeLine)]] + Repeat([Plain(CursorUp + DeleteWholeLine)], i)
          invariant basic.lastStatusLength == old(basic.lastStatusLength) && !keepLastStatus
        {
          basic.Write([Plain(CursorUp + DeleteWholeLine)]);
        }
      }
    }

    /** `input`: clears the status bar before showing the prompt; it is shown again after the next line. */
    method Input(prompt: String, reply: String, width: nat) returns (answer: String)
      requires Valid() && width > 0 && '\n' !in prompt
      modifies this, basic
      ensures answer == reply && !keepLastStatus
      ensures basic.written == old(basic.written) + ClearOutput(old(keepLastStatus), old(basic.lastStatusLength), width)
        + [Formatted(StyleTable, [Lexeme(PromptType, prompt)])]
    {
      ClearStatus(width);
      answer := basic.Input(prompt, reply);
    }

    /** `log`: clears the status bar, writes the message, and writes the status bar again without ending its line. */
    method Log(message: String, width: nat)
      requires Valid() && width > 0 && '\n' !in message
      requires '\n' !in StatusText(basic.state.currentPage, basic.state.CurrentFile())
      modifies this, basic, basic.state
      ensures !keepLastStatus && !basic.state.StatusDirty()
      ensures basic.state.currentPage == old(basic.state.currentPage) && basic.state.fileStack == old(basic.state.fileStack)
      ensures var status := StatusText(basic.state.currentPage, basic.state.CurrentFile());
        basic.written == old(basic.written) + ClearOutput(old(keepLastStatus), old(basic.lastStatusLength), width)
          + TokensOutput(basic.quiet, [Lexeme(LogMessageType, message)], "\n")
          + TokensOutput(basic.quiet, [Lexeme(StatusType, status)], "")
      ensures basic.lastStatusLength == |StatusText(basic.state.currentPage, basic.state.CurrentFile())|
    {
      ClearStatus(width);
      basic.Log(message);
      basic.PrintStatus("");
    }

    /**
     * `print`: clears the status bar, writes the line (always ending it with a
     * newline), keeps the status line when `end` is a newline and the line
     * changed the state, and writes the status bar without ending its line.
     */
    method Print(value: String, end: String, width: nat)
      requires Valid() && width > 0 && PlainLine(value)
      requires FilesPrintable(basic.state.fileStack)
      modifies this, basic, basic.state
      ensures basic.state.currentPage == PageAfterLine(old(basic.state.currentPage), value)
      ensures basic.state.fileStack == StackAfter(old(basic.state.fileStack), Lex(value))
      ensures keepLastStatus == (end == "\n"
        && (basic.state.currentPage != old(basic.state.lastPagePrinted) || basic.state.CurrentFile() != old(basic.state.lastFilePrinted)))
      ensures basic.written == old(basic.written) + ClearOutput(old(keepLastStatus), old(basic.lastStatusLength), width)
        + TokensOutput(basic.quiet, Lex(value), "\n")
        + TokensOutput(basic.quiet, [Lexeme(StatusType, StatusText(basic.state.currentPage, basic.state.CurrentFile()))], "")
      ensures basic.lastStatusLength == |StatusText(basic.state.currentPage, basic.state.CurrentFile())|
      ensures !basic.state.StatusDirty()
    {
      ClearStatus(width);
      LexPrintable(value);
      basic.PrintTokens(Lex(value), "\n");
      if end == "\n" && basic.state.StatusDirty() {
        keepLastStatus := true;
      }
      StackAfterLineFiles(old(basic.state.fileStack), value);
      StatusTextNoNewline(basic.state.currentPage, basic.state.fileStack);
      basic.PrintStatus("");
    }
  }

  /** The page after the tokens of a line. */
  function PageAfterLine(page: Option<nat>, line: String): Option<nat>
    requires PlainLine(line)
  {
    LexPagesParse(line);
    PageAfter(page, Lex(line))
  }

  /** The file names a status bar may show: none holds a newline. */
  predicate FilesPrintable(stack: seq<String>) {
    forall f :: f in stack ==> '\n' !in f
  }

  /** A status or log token changes neither the page nor the file stack. */
  lemma UntrackedSingle(l: Lexeme, page: Option<nat>, stack: seq<String>)
    requires l.ttype == StatusType || l.ttype == LogMessageType
    ensures PagesParse([l]) && PageAfter(page, [l]) == page && StackAfter(stack, [l]) == stack
  {
    assert StatusType[1] == LogMessageType[1] == UI;
    UntrackedKeepState(page, stack, [l]);
  }

  /** Filtering keeps only tokens it was given, so it brings in no newline. */
  lemma {:induction false} FilterNoNewlines(keep: TokenType -> bool, tokens: seq<Lexeme>)
    requires NoNewlines(tokens)
    ensures NoNewlines(FilterBy(keep, tokens))
    decreases |tokens|
  {
    if tokens != [] {
      FilterNoNewlines(keep, tokens[..|tokens| - 1]);
    }
  }

  /** The values of tokens without a newline between them hold none either. */
  lemma {:induction false} ValuesNoNewlines(ls: seq<Lexeme>)
    requires '\n' !in Values(ls)
    ensures NoNewlines(ls)
    decreases |ls|
  {
    if ls != [] {
      var init := ls[..|ls| - 1];
      var last := ls[|ls| - 1].value;
      assert Values(ls) == Values(init) + last;
      assert forall k :: 0 <= k < |Values(init)| ==> Values(init)[k] == Values(ls)[k];
      assert forall k :: 0 <= k < |last| ==> last[k] == Values(ls)[|Values(init)| + k];
      ValuesNoNewlines(init);
    }
  }

  /** A line without line breaks lexes into tokens `update` accepts and `format_unencoded` accepts, in either mode. */
  lemma LexPrintable(line: String)
    requires PlainLine(line)
    ensures PagesParse(Lex(line))
    ensures NoNewlines(Shown(false, Lex(line))) && NoNewlines(Shown(true, Lex(line)))
  {
    LexPagesParse(line);
    LexRoundTrip(line);
    ValuesNoNewlines(Lex(line));
    FilterNoNewlines(NotIO, Lex(line));
  }

  /** Following lexer tokens pushes only paths, which hold no newline. */
  lemma {:induction false} StackStaysPrintable(stack: seq<String>, tokens: seq<Lexeme>)
    requires FilesPrintable(stack) && AllWellFormed(tokens)
    ensures FilesPrintable(StackAfter(stack, tokens))
    decreases |tokens|
  {
    if tokens != [] {
      var init := tokens[..|tokens| - 1];
      var l := tokens[|tokens| - 1];
      assert AllWellFormed(init);
      StackStaysPrintable(stack, init);
      var before := StackAfter(stack, init);
      if l.ttype == OpenFileType {
        assert WellFormed(l);
        OpenFileValueStrip(l.value);
        var path := l.value[1..];
        assert IsDotSlashPath(path);
        assert forall k :: 0 <= k < |path| ==> IsPathChar(path[k]);
        TrackedDistinct();
        assert StackAfter(stack, tokens) == before + [path];
      } else if l.ttype == CloseFileType && before != [] {
        assert forall f :: f in before[..|before| - 1] ==> f in before;
      }
    }
  }

  /** The same for the tokens of a line. */
  lemma StackAfterLineFiles(stack: seq<String>, line: String)
    requires FilesPrintable(stack) && PlainLine(line)
    ensures FilesPrintable(StackAfter(stack, Lex(line)))
  {
    LexWellFormed(line);
    StackStaysPrintable(stack, Lex(line));
  }

  /** The status bar of printable files holds no newline. */
  lemma StatusTextNoNewline(page: Option<nat>, stack: seq<String>)
    requires FilesPrintable(stack)
    ensures '\n' !in StatusText(page, Top(stack))
  {
    var file := Top(stack);
    StatusTextCases(page, file);
    if page.Some? {
      var digits := NatToString(page.value);
      assert forall k :: 0 <= k < |digits| ==> IsDigit(digits[k]);
    }
    if file.Some? {
      assert file.value in stack;
    }
  }

  /** A token the quiet filter keeps is written the same in both modes, followed by `end`. */
  lemma KeptSingle(quiet: bool, l: Lexeme, end: String)
    requires NotIO(l.ttype)
    ensures TokensOutput(quiet, [l], end) == [[FormatValue(StyleTable, l), Plain(end)]]
  {
    assert Shown(quiet, [l]) == [l] by {
      FilterBySingle(NotIO, l);
    }
    FormattedSingle(StyleTable, l);
    assert [FormatValue(StyleTable, l)] + [Plain(end)] == [FormatValue(StyleTable, l), Plain(end)];
  }

  /** The status bar is written blue in both modes, followed by `end`. */
  lemma StatusLine(quiet: bool, status: String, end: String)
    ensures TokensOutput(quiet, [Lexeme(StatusType, status)], end) == [[Styled(Blue, status), Plain(end)]]
  {
    assert NotIO(StatusType) by {
      QuietFilterKinds();
    }
    assert FormatValue(StyleTable, Lexeme(StatusType, status)) == Styled(Blue, status) by {
      StyleTableEntries(StatusType);
    }
    KeptSingle(quiet, Lexeme(StatusType, status), end);
  }

  /** A log message is written plain on a line of its own, in both modes. */
  lemma LogLine(quiet: bool, message: String)
    ensures TokensOutput(quiet, [Lexeme(LogMessageType, message)], "\n") == [[Plain(message), Plain("\n")]]
  {
    assert NotIO(LogMessageType) by {
      QuietFilterKinds();
    }
    assert FormatValue(StyleTable, Lexeme(LogMessageType, message)) == Plain(message) by {
      assert LogMessageType[2] != PromptType[2] && LogMessageType[2] != StatusType[2] && LogMessageType[2] != MessageType[2];
      StyleTableEntries(LogMessageType);
    }
    KeptSingle(quiet, Lexeme(LogMessageType, message), "\n");
  }

  /** In quiet mode a line of file and read messages only writes nothing at all. */
  lemma QuietHidesIO(tokens: seq<Lexeme>, end: String)
    requires forall i :: 0 <= i < |tokens| ==> !NotIO(tokens[i].ttype)
    ensures TokensOutput(true, tokens, end) == []
  {
    FilterByNoneKept(NotIO, tokens);
  }

  /**
   * Styles aside, what is written for a line is the line itself and a newline in
   * verbose mode, and the values the quiet filter keeps and a newline in quiet mode;
   * a line that leaves nothing to write writes nothing.
   */
  lemma LineOutput(quiet: bool, line: String)
    requires PlainLine(line)
    ensures var out := TokensOutput(quiet, Lex(line), "\n");
      |out| <= 1
      && (quiet ==> (out == [] <==> QuietFilter(Lex(line)) == []))
      && (!quiet ==> (out == [] <==> line == []))
      && (out != [] ==> Visible(out[0]) == (if quiet then Values(QuietFilter(Lex(line))) else line) + "\n")
  {
    LexRoundTrip(line);
    var shown := Shown(quiet, Lex(line));
    if shown != [] {
      FormattedShowsValues(StyleTable, shown);
      VisibleAppend(Formatted(StyleTable, shown), [Plain("\n")]);
      VisibleSingle(Plain("\n"));
    }
  }

  /** When the status bar is not kept, `_clear_status` erases one line and then one more for each full terminal width the last status took. */
  lemma ClearOutputLines(lastStatusLength: nat, width: nat)
    requires width > 0
    ensures |ClearOutput(false, lastStatusLength, width)| == 1 + lastStatusLength / width
    ensures ClearOutput(false, lastStatusLength, width)[0] == [Plain(CursorToStart + DeleteWholeLine)]
    ensures forall i :: 1 <= i <= lastStatusLength / width ==> ClearOutput(false, lastStatusLength, width)[i] == [Plain(CursorUp + DeleteWholeLine)]
    ensures ClearOutput(true, lastStatusLength, width) == [[Plain("\n")]]
  {
  }
}
