/**
 * The formatter of the hand-written parser's rewrite (quietex/formatting.py):
 * it follows the open files and the current page as tokens arrive, and styles
 * each token by a table that depends on the quiet mode.
 */
module Formatting {
  import opened PyStr
  import opened Tokens
  import opened Styles

  /** An entry of the style table: `hide`, a terminal style, or the text unchanged. */
  datatype Format = Hide | Paint(tag: Tag) | Keep

  /** Applies a style-table entry to a token's text. */
  function Apply(f: Format, text: String): Rich {
    match f
    case Hide => []
    case Paint(tag) => [Styled(tag, text)]
    case Keep => [Plain(text)]
  }

  /** Only a hidden entry changes which characters are shown. */
  lemma ApplyVisible(f: Format, text: String)
    ensures Visible(Apply(f, text)) == (if f.Hide? then [] else text)
  {
    if !f.Hide? {
      VisibleSingle(Apply(f, text)[0]);
    }
  }

  /** The table for quiet mode: file and read messages hidden, errors bright red, warnings yellow. */
  const QuietStyle: map<Kind, Format> := map[
    CloseFileKind := Hide, ErrorKind := Paint(BrightRed), OpenFileKind := Hide,
    ReadAuxKind := Hide, ReadImageKind := Hide, WarningKind := Paint(Yellow)]

  /** The table for verbose mode: file and read messages dimmed instead of hidden. */
  const VerboseStyle: map<Kind, Format> := map[
    CloseFileKind := Paint(Dim), ErrorKind := Paint(BrightRed), OpenFileKind := Paint(Dim),
    ReadAuxKind := Paint(Dim), ReadImageKind := Paint(Dim), WarningKind := Paint(Yellow)]

  /** `self.style[type(token)]`: kinds missing from the table keep their text unchanged. */
  function Lookup(style: map<Kind, Format>, k: Kind): Format {
    if k in style then style[k] else Keep
  }

  /** `self.style[type(token)](token.text)`. */
  function FormatToken(style: map<Kind, Format>, t: Token): Rich {
    Apply(Lookup(style, t.KindOf()), t.Text())
  }

  /** The styled text of `tokens`, in order. */
  function Render(style: map<Kind, Format>, tokens: seq<Token>): Rich {
    if tokens == [] then [] else Render(style, tokens[..|tokens| - 1]) + FormatToken(style, tokens[|tokens| - 1])
  }

  /** The file stack after one token: an opening pushes its value, a closing pops, quietly doing nothing on an empty stack. */
  function StackStep(stack: seq<Option<String>>, t: Token): seq<Option<String>> {
    match t
    case OpenFile(_, v) => stack + [v]
    case CloseFile => if stack == [] then [] else stack[..|stack| - 1]
    case _ => stack
  }

  /** The file stack after `tokens`. */
  function StackAfter(stack: seq<Option<String>>, tokens: seq<Token>): seq<Option<String>> {
    if tokens == [] then stack else StackStep(StackAfter(stack, tokens[..|tokens| - 1]), tokens[|tokens| - 1])
  }

  /** The page after `tokens`: each page token replaces it by its value. */
  function PageAfter(page: Option<String>, tokens: seq<Token>): Option<String> {
    if tokens == [] then page
    else
      var t := tokens[|tokens| - 1];
      if t.Page? then t.value else PageAfter(page, tokens[..|tokens| - 1])
  }

  /** The `file` property: the top of the stack, or None when it is empty. */
  function Top(stack: seq<Option<String>>): Option<String> {
    if stack == [] then None else stack[|stack| - 1]
  }

  class LatexLogFormatter {
    var stack: seq<Option<String>>
    var page: Option<String>
    const style: map<Kind, Format>

    constructor(quiet: bool)
      ensures stack == [] && page == None
      ensures style == (if quiet then QuietStyle else VerboseStyle)
    {
      stack := [];
      page := None;
      style := if quiet then QuietStyle else VerboseStyle;
    }

    /** The file currently being processed. */
    function File(): Option<String>
      reads this
    {
      Top(stack)
    }

    /** `_format_tokens`: the styled text of each token, in order. */
    method FormatTokens(tokens: seq<Token>) returns (result: Rich)
      ensures result == Render(style, tokens)
    {
      result := [];
      for i := 0 to |tokens|
        invariant result == Render(style, tokens[..i])
      {
        assert tokens[..i + 1][..i] == tokens[..i];
        result := result + FormatToken(style, tokens[i]);
      }
      assert tokens[..|tokens|] == tokens;
    }

    /** `process_tokens`: follows pages and files through `tokens`, then formats them. */
    method ProcessTokens(tokens: seq<Token>) returns (result: Rich)
      modifies this
      ensures stack == StackAfter(old(stack), tokens) && page == PageAfter(old(page), tokens)
      ensures result == Render(style, tokens)
    {
      for i := 0 to |tokens|
        invariant stack == StackAfter(old(stack), tokens[..i]) && page == PageAfter(old(page), tokens[..i])
      {
        assert tokens[..i + 1][..i] == tokens[..i];
        var token := tokens[i];
        if token.Page? {
          page := token.value;
        } else if token.OpenFile? {
          stack := stack + [token.value];
        } else if token.CloseFile? {
          if stack != [] {
            stack := stack[..|stack| - 1];
          }
        }
      }
      assert tokens[..|tokens|] == tokens;
      result := FormatTokens(tokens);
    }
  }
}
