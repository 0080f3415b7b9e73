/**
 * The application state of quietex/status.py: the page being typeset, the
 * stack of open files, and the page and file the status bar last showed.
 */
module Status {
  import opened PyStr
  import opened Scan
  import opened Lexer
  import opened LexerProps

  /** What `value.strip("[] ")` removes from a page value. */
  const PageStrip: set<char> := {'[', ']', ' '}

  /** What `value.strip("(")` removes from an open-file value. */
  const FileStrip: set<char> := {'('}

  /** The page a start-page value names, when `int()` can read it. */
  predicate PageParses(l: Lexeme) {
    l.ttype == StartPageType ==> IsIntText(Strip(l.value, PageStrip))
  }

  /** `update` raises unless every start-page value can be read as a number. */
  predicate PagesParse(tokens: seq<Lexeme>) {
    forall i :: 0 <= i < |tokens| ==> PageParses(tokens[i])
  }

  /** The page after one token: a start-page token sets it, any other keeps it. */
  function NextPage(page: Option<nat>, l: Lexeme): Option<nat>
    requires PageParses(l)
  {
    if l.ttype == StartPageType then Some(IntValue(Strip(l.value, PageStrip))) else page
  }

  /** The file stack after one token: open-file pushes, close-file pops if it can. */
  function NextStack(stack: seq<String>, l: Lexeme): seq<String> {
    if l.ttype == StartPageType then stack
    else if l.ttype == OpenFileType then stack + [Strip(l.value, FileStrip)]
    else if l.ttype == CloseFileType then (if stack == [] then [] else stack[..|stack| - 1])
    else stack
  }

  /** The page after `update(tokens)`. */
  function PageAfter(page: Option<nat>, tokens: seq<Lexeme>): Option<nat>
    requires PagesParse(tokens)
    decreases |tokens|
  {
    if tokens == [] then page
    else
      assert PagesParse(tokens[..|tokens| - 1]);
      NextPage(PageAfter(page, tokens[..|tokens| - 1]), tokens[|tokens| - 1])
  }

  /** The file stack after `update(tokens)`. */
  function StackAfter(stack: seq<String>, tokens: seq<Lexeme>): seq<String>
    decreases |tokens|
  {
    if tokens == [] then stack
    else NextStack(StackAfter(stack, tokens[..|tokens| - 1]), tokens[|tokens| - 1])
  }

  /** One more token of `update` is one more step of the page and of the stack. */
  lemma AfterPrefixStep(page: Option<nat>, stack: seq<String>, tokens: seq<Lexeme>, i: nat)
    requires PagesParse(tokens) && i < |tokens|
    ensures PagesParse(tokens[..i]) && PagesParse(tokens[..i + 1])
    ensures PageAfter(page, tokens[..i + 1]) == NextPage(PageAfter(page, tokens[..i]), tokens[i])
    ensures StackAfter(stack, tokens[..i + 1]) == NextStack(StackAfter(stack, tokens[..i]), tokens[i])
  {
    assert tokens[..i + 1][..i] == tokens[..i];
  }

  /** `current_file`: the top of the stack, or None when it is empty. */
  function Top(stack: seq<String>): (r: Option<String>)
    ensures r.None? <==> stack == []
    ensures r.Some? ==> stack == stack[..|stack| - 1] + [r.value]
  {
    if stack == [] then None else Some(stack[|stack| - 1])
  }

  /**
   * The status bar: "[page]" when the page is truthy (not None, not 0), then
   * " (file)" when the file is truthy (not None, not ""), the whole stripped of
   * spaces once a file was added.
   */
  function StatusText(page: Option<nat>, file: Option<String>): String {
    var withPage := if page.Some? && page.value != 0 then "[" + NatToString(page.value) + "]" else "";
    if file.Some? && file.value != "" then Strip(withPage + " (" + file.value + ")", {' '}) else withPage
  }

  class AppState {
    var currentPage: Option<nat>
    var fileStack: seq<String>
    var lastPagePrinted: Option<nat>
    var lastFilePrinted: Option<String>

    constructor()
      ensures currentPage == None && fileStack == []
      ensures lastPagePrinted == None && lastFilePrinted == None
      ensures !StatusDirty()
    {
      currentPage := None;
      fileStack := [];
      lastPagePrinted := None;
      lastFilePrinted := None;
    }

    /** The `current_file` getter. */
    function CurrentFile(): Option<String>
      reads this
    {
      Top(fileStack)
    }

    /** The `current_file` setter, which pushes rather than replaces. */
    method SetCurrentFile(file: String)
      modifies this
      ensures fileStack == old(fileStack) + [file] && CurrentFile() == Some(file)
      ensures currentPage == old(currentPage)
      ensures lastPagePrinted == old(lastPagePrinted) && lastFilePrinted == old(lastFilePrinted)
    {
      fileStack := fileStack + [file];
    }

    /** Follows the page and file tokens of `tokens`, in order. */
    method Update(tokens: seq<Lexeme>)
      requires PagesParse(tokens)
      modifies this
      ensures currentPage == PageAfter(old(currentPage), tokens)
      ensures fileStack == StackAfter(old(fileStack), tokens)
      ensures lastPagePrinted == old(lastPagePrinted) && lastFilePrinted == old(lastFilePrinted)
    {
      for i := 0 to |tokens|
        invariant currentPage == PageAfter(old(currentPage), tokens[..i])
        invariant fileStack == StackAfter(old(fileStack), tokens[..i])
        invariant lastPagePrinted == old(lastPagePrinted) && lastFilePrinted == old(lastFilePrinted)
      {
        var l := tokens[i];
        AfterPrefixStep(old(currentPage), old(fileStack), tokens, i);
        if l.ttype == StartPageType {
          currentPage := Some(IntValue(Strip(l.value, PageStrip)));
        } else if l.ttype == OpenFileType {
          SetCurrentFile(Strip(l.value, FileStrip));
        } else if l.ttype == CloseFileType {
          if fileStack != [] {
            fileStack := fileStack[..|fileStack| - 1];
          }
        }
      }
      assert tokens[..|tokens|] == tokens;
    }

    /** The page or the current file differs from what the status bar last showed. */
    predicate StatusDirty()
      reads this
    {
      currentPage != lastPagePrinted || CurrentFile() != lastFilePrinted
    }

    /** Builds the status text and records what it shows, which makes the state clean. */
    method FormatStatus() returns (status: String)
      modifies this
      ensures status == StatusText(currentPage, CurrentFile())
      ensures currentPage == old(currentPage) && fileStack == old(fileStack)
      ensures lastPagePrinted == currentPage && lastFilePrinted == CurrentFile()
      ensures !StatusDirty()
    {
      status := "";
      if currentPage.Some? && currentPage.value != 0 {
        status := status + "[" + NatToString(currentPage.value) + "]";
        assert status == "[" + NatToString(currentPage.value) + "]";
      }
      ghost var withPage := status;
      var file := CurrentFile();
      if file.Some? && file.value != "" {
        status := status + " (" + file.value + ")";
        assert status == withPage + " (" + file.value + ")";
        status := Strip(status, {' '});
      }
      lastPagePrinted := currentPage;
      lastFilePrinted := file;
    }
  }
}
