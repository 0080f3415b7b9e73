/** What the formatter of quietex/formatting.py promises about state and output. */
module FormattingProps {
  import opened PyStr
  import opened Tokens
  import opened Styles
  import opened Formatting

  /** Helper for `RenderSingle` and `RenderAppend`: the last token's styled text comes last. */
  lemma RenderSnoc(style: map<Kind, Format>, init: seq<Token>, t: Token)
    ensures Render(style, init + [t]) == Render(style, init) + FormatToken(style, t)
  {
    assert (init + [t])[..|init|] == init;
  }

  /** One token is styled by its kind's entry of the table. */
  lemma RenderSingle(style: map<Kind, Format>, t: Token)
    ensures Render(style, [t]) == FormatToken(style, t)
  {
    RenderSnoc(style, [], t);
    assert [] + [t] == [t];
  }

  /** The output is the styled text of each token, in order: formatting distributes over concatenation. */
  lemma {:induction false} RenderAppend(style: map<Kind, Format>, a: seq<Token>, b: seq<Token>)
    ensures Render(style, a + b) == Render(style, a) + Render(style, b)
    decreases |b|
  {
    if b == [] {
      assert a + b == a;
    } else {
      var init := b[..|b| - 1];
      var t := b[|b| - 1];
      calc {
        Render(style, a + b);
        { assert a + b == (a + init) + [t]; RenderSnoc(style, a + init, t); }
        Render(style, a + init) + FormatToken(style, t);
        { RenderAppend(style, a, init); }
        Render(style, a) + Render(style, init) + FormatToken(style, t);
        { assert b == init + [t]; RenderSnoc(style, init, t); }
        Render(style, a) + Render(style, b);
      }
    }
  }

  /** An empty token list formats to nothing and leaves the stack and page as they are. */
  lemma EmptyTokens(style: map<Kind, Format>, stack: seq<Option<String>>, page: Option<String>)
    ensures Render(style, []) == [] && StackAfter(stack, []) == stack && PageAfter(page, []) == page
  {
  }

  /** Without a page token the page is unchanged. */
  lemma {:induction false} PageWithoutPageTokens(page: Option<String>, tokens: seq<Token>)
    requires forall i :: 0 <= i < |tokens| ==> !tokens[i].Page?
    ensures PageAfter(page, tokens) == page
    decreases |tokens|
  {
    if tokens != [] {
      PageWithoutPageTokens(page, tokens[..|tokens| - 1]);
    }
  }

  /** Otherwise the page is the value of the last page token. */
  lemma {:induction false} PageIsLastPageValue(page: Option<String>, tokens: seq<Token>, i: nat)
    requires i < |tokens| && tokens[i].Page?
    requires forall j :: i < j < |tokens| ==> !tokens[j].Page?
    ensures PageAfter(page, tokens) == tokens[i].value
    decreases |tokens|
  {
    if i < |tokens| - 1 {
      PageIsLastPageValue(page, tokens[..|tokens| - 1], i);
    }
  }

  /** Following `a + b` is following `a` and then `b`. */
  lemma {:induction false} StackAfterAppend(stack: seq<Option<String>>, a: seq<Token>, b: seq<Token>)
    ensures StackAfter(stack, a + b) == StackAfter(StackAfter(stack, a), b)
    decreases |b|
  {
    if b == [] {
      assert a + b == a;
    } else {
      assert (a + b)[..|a + b| - 1] == a + b[..|b| - 1];
      StackAfterAppend(stack, a, b[..|b| - 1]);
    }
  }

  /** Openings minus closings. */
  function Depth(tokens: seq<Token>): int {
    if tokens == [] then 0
    else
      var t := tokens[|tokens| - 1];
      Depth(tokens[..|tokens| - 1]) + (if t.OpenFile? then 1 else if t.CloseFile? then -1 else 0)
  }

  /** Every closing closes a file opened earlier in the same tokens. */
  predicate ClosesOnlyOpened(tokens: seq<Token>) {
    tokens == []
    || (ClosesOnlyOpened(tokens[..|tokens| - 1])
        && (tokens[|tokens| - 1].CloseFile? ==> Depth(tokens[..|tokens| - 1]) > 0))
  }

  /** Tokens in which every file opened is closed again, and nothing else is closed. */
  predicate Balanced(tokens: seq<Token>) {
    ClosesOnlyOpened(tokens) && Depth(tokens) == 0
  }

  /** Tokens that close only what they opened keep the stack below them and push one entry per file left open. */
  lemma {:induction false} NestedKeepsBase(stack: seq<Option<String>>, tokens: seq<Token>)
    requires ClosesOnlyOpened(tokens)
    ensures Depth(tokens) >= 0
    ensures |StackAfter(stack, tokens)| == |stack| + Depth(tokens)
    ensures StackAfter(stack, tokens)[..|stack|] == stack
    decreases |tokens|
  {
    if tokens != [] {
      var init := tokens[..|tokens| - 1];
      NestedKeepsBase(stack, init);
      var before := StackAfter(stack, init);
      var t := tokens[|tokens| - 1];
      if t.OpenFile? {
        assert (before + [t.value])[..|stack|] == before[..|stack|];
      } else if t.CloseFile? {
        assert before[..|before| - 1][..|stack|] == before[..|stack|];
      }
    }
  }

  /** Balanced tokens leave the file stack as they found it. */
  lemma BalancedKeepsStack(stack: seq<Option<String>>, tokens: seq<Token>)
    requires Balanced(tokens)
    ensures StackAfter(stack, tokens) == stack
  {
    NestedKeepsBase(stack, tokens);
    assert StackAfter(stack, tokens) == StackAfter(stack, tokens)[..|stack|];
  }

  /** The current file is the last one opened and not yet closed. */
  lemma FileAfterOpen(stack: seq<Option<String>>, body: String, path: Option<String>, rest: seq<Token>)
    requires Balanced(rest)
    ensures Top(StackAfter(stack, [OpenFile(body, path)] + rest)) == path
  {
    StackAfterAppend(stack, [OpenFile(body, path)], rest);
    assert [OpenFile(body, path)][..0] == [];
    BalancedKeepsStack(stack + [path], rest);
  }

  /** Closing the file that was just opened restores the stack. */
  lemma OpenThenClose(stack: seq<Option<String>>, body: String, path: Option<String>)
    ensures StackAfter(stack, [OpenFile(body, path), CloseFile]) == stack
  {
    assert [OpenFile(body, path), CloseFile][..1] == [OpenFile(body, path)];
    assert [OpenFile(body, path)][..0] == [];
    assert StackAfter(stack, [OpenFile(body, path)]) == stack + [path];
    assert (stack + [path])[..|stack|] == stack;
  }

  /** The file and read messages of the parser. */
  predicate IsIOKind(k: Kind) {
    k == CloseFileKind || k == OpenFileKind || k == ReadAuxKind || k == ReadImageKind
  }

  /** The entries of the quiet table. */
  lemma QuietLookup(k: Kind)
    ensures Lookup(QuietStyle, k)
      == if IsIOKind(k) then Hide else if k == ErrorKind then Paint(BrightRed) else if k == WarningKind then Paint(Yellow) else Keep
  {
  }

  /** The entries of the verbose table. */
  lemma VerboseLookup(k: Kind)
    ensures Lookup(VerboseStyle, k)
      == if IsIOKind(k) then Paint(Dim) else if k == ErrorKind then Paint(BrightRed) else if k == WarningKind then Paint(Yellow) else Keep
  {
  }

  /**
   * The quiet table: file and read messages vanish, errors are bright red,
   * warnings yellow, and everything else (other text, pages, newlines) is left as it is.
   */
  lemma QuietTable(t: Token)
    ensures IsIOKind(t.KindOf()) ==> Render(QuietStyle, [t]) == []
    ensures t.Error? ==> Render(QuietStyle, [t]) == [Styled(BrightRed, t.Text())]
    ensures t.Warning? ==> Render(QuietStyle, [t]) == [Styled(Yellow, t.Text())]
    ensures t.Other? || t.Page? || t.Newline? ==> Render(QuietStyle, [t]) == [Plain(t.Text())]
  {
    RenderSingle(QuietStyle, t);
    QuietLookup(t.KindOf());
  }

  /** The verbose table: file and read messages are dimmed; errors and warnings as in quiet mode; the rest unchanged. */
  lemma VerboseTable(t: Token)
    ensures IsIOKind(t.KindOf()) ==> Render(VerboseStyle, [t]) == [Styled(Dim, t.Text())]
    ensures t.Error? ==> Render(VerboseStyle, [t]) == [Styled(BrightRed, t.Text())]
    ensures t.Warning? ==> Render(VerboseStyle, [t]) == [Styled(Yellow, t.Text())]
    ensures t.Other? || t.Page? || t.Newline? ==> Render(VerboseStyle, [t]) == [Plain(t.Text())]
  {
    RenderSingle(VerboseStyle, t);
    VerboseLookup(t.KindOf());
  }

  /** The tokens that are not file or read messages, in order. */
  function WithoutIO(tokens: seq<Token>): seq<Token> {
    if tokens == [] then []
    else
      var t := tokens[|tokens| - 1];
      WithoutIO(tokens[..|tokens| - 1]) + (if IsIOKind(t.KindOf()) then [] else [t])
  }

  /** What one token shows in quiet mode. */
  lemma QuietVisibleToken(t: Token)
    ensures Visible(FormatToken(QuietStyle, t)) == if IsIOKind(t.KindOf()) then [] else t.Text()
  {
    QuietLookup(t.KindOf());
    ApplyVisible(Lookup(QuietStyle, t.KindOf()), t.Text());
  }

  /** What one token shows in verbose mode. */
  lemma VerboseVisibleToken(t: Token)
    ensures Visible(FormatToken(VerboseStyle, t)) == t.Text()
  {
    VerboseLookup(t.KindOf());
    ApplyVisible(Lookup(VerboseStyle, t.KindOf()), t.Text());
  }

  /** In quiet mode the output shows exactly the text of the tokens that are not file or read messages. */
  lemma {:induction false} QuietShowsAllButIO(tokens: seq<Token>)
    ensures Visible(Render(QuietStyle, tokens)) == Texts(WithoutIO(tokens))
    decreases |tokens|
  {
    if tokens != [] {
      var init := tokens[..|tokens| - 1];
      var t := tokens[|tokens| - 1];
      var kept := if IsIOKind(t.KindOf()) then [] else [t];
      calc {
        Visible(Render(QuietStyle, tokens));
        { assert tokens == init + [t]; RenderSnoc(QuietStyle, init, t); }
        Visible(Render(QuietStyle, init) + FormatToken(QuietStyle, t));
        { VisibleAppend(Render(QuietStyle, init), FormatToken(QuietStyle, t)); }
        Visible(Render(QuietStyle, init)) + Visible(FormatToken(QuietStyle, t));
        { QuietShowsAllButIO(init); QuietVisibleToken(t); TextsSingle(t); }
        Texts(WithoutIO(init)) + Texts(kept);
        { TextsAppend(WithoutIO(init), kept); }
        Texts(WithoutIO(tokens));
      }
    }
  }

  /** In verbose mode the output shows every token's text: nothing is lost. */
  lemma {:induction false} VerboseShowsAll(tokens: seq<Token>)
    ensures Visible(Render(VerboseStyle, tokens)) == Texts(tokens)
    decreases |tokens|
  {
    if tokens != [] {
      var init := tokens[..|tokens| - 1];
      var t := tokens[|tokens| - 1];
      calc {
        Visible(Render(VerboseStyle, tokens));
        { assert tokens == init + [t]; RenderSnoc(VerboseStyle, init, t); }
        Visible(Render(VerboseStyle, init) + FormatToken(VerboseStyle, t));
        { VisibleAppend(Render(VerboseStyle, init), FormatToken(VerboseStyle, t)); }
        Visible(Render(VerboseStyle, init)) + Visible(FormatToken(VerboseStyle, t));
        { VerboseShowsAll(init); VerboseVisibleToken(t); }
        Texts(tokens);
      }
    }
  }

}
