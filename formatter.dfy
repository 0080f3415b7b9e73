/**
 * The pygments formatter of quietex/formatter.py: the quiet-mode filter, the
 * error test, the terminal style table and the writing of styled values.
 */
module Formatter {
  import opened PyStr
  import opened Lexer
  import opened Styles

  /** The tokens of `tokens` whose type `keep` accepts, in their order: a list comprehension with a condition. */
  function FilterBy(keep: TokenType -> bool, tokens: seq<Lexeme>): (r: seq<Lexeme>)
    ensures |r| <= |tokens|
    ensures forall i :: 0 <= i < |r| ==> keep(r[i].ttype)
  {
    if tokens == [] then []
    else
      var l := tokens[|tokens| - 1];
      FilterBy(keep, tokens[..|tokens| - 1]) + (if keep(l.ttype) then [l] else [])
  }

  /** Filtering `a + b` filters `a`, then `b`: the kept tokens stay in order. */
  lemma {:induction false} FilterByAppend(keep: TokenType -> bool, a: seq<Lexeme>, b: seq<Lexeme>)
    ensures FilterBy(keep, a + b) == FilterBy(keep, a) + FilterBy(keep, b)
    decreases |b|
  {
    if b == [] {
      assert a + b == a;
    } else {
      assert (a + b)[..|a + b| - 1] == a + b[..|b| - 1];
      FilterByAppend(keep, a, b[..|b| - 1]);
    }
  }

  /** One token is kept exactly when `keep` accepts its type. */
  lemma FilterBySingle(keep: TokenType -> bool, l: Lexeme)
    ensures FilterBy(keep, [l]) == if keep(l.ttype) then [l] else []
  {
    assert [l][..0] == [];
  }

  /** Tokens that are all accepted come through unchanged. */
  lemma {:induction false} FilterByAllKept(keep: TokenType -> bool, tokens: seq<Lexeme>)
    requires forall i :: 0 <= i < |tokens| ==> keep(tokens[i].ttype)
    ensures FilterBy(keep, tokens) == tokens
    decreases |tokens|
  {
    if tokens != [] {
      FilterByAllKept(keep, tokens[..|tokens| - 1]);
    }
  }

  /** Tokens of which none is accepted all go. */
  lemma {:induction false} FilterByNoneKept(keep: TokenType -> bool, tokens: seq<Lexeme>)
    requires forall i :: 0 <= i < |tokens| ==> !keep(tokens[i].ttype)
    ensures FilterBy(keep, tokens) == []
    decreases |tokens|
  {
    if tokens != [] {
      FilterByNoneKept(keep, tokens[..|tokens| - 1]);
    }
  }

  /** Every accepted token of the input survives: as many of each token come out as went in accepted. */
  lemma {:induction false} FilterByKeepsAccepted(keep: TokenType -> bool, tokens: seq<Lexeme>, x: Lexeme)
    requires keep(x.ttype)
    ensures multiset(FilterBy(keep, tokens))[x] == multiset(tokens)[x]
    decreases |tokens|
  {
    if tokens != [] {
      var init := tokens[..|tokens| - 1];
      FilterByKeepsAccepted(keep, init, x);
      assert tokens == init + [tokens[|tokens| - 1]];
    }
  }

  /** Filtering twice is filtering once. */
  lemma FilterByIdempotent(keep: TokenType -> bool, tokens: seq<Lexeme>)
    ensures FilterBy(keep, FilterBy(keep, tokens)) == FilterBy(keep, tokens)
  {
    FilterByAllKept(keep, FilterBy(keep, tokens));
  }

  /** `IO not in (token_type, token_type.parent)`. */
  predicate NotIO(t: TokenType) {
    t != IOType && Parent(t) != Some(IOType)
  }

  /** `quiet_filter`: drops the IO type and its direct children. */
  function QuietFilter(tokens: seq<Lexeme>): seq<Lexeme> {
    FilterBy(NotIO, tokens)
  }

  /** The quiet filter keeps, in order, exactly the tokens that are neither IO nor a direct child of it. */
  lemma QuietFilterKeeps(a: seq<Lexeme>, b: seq<Lexeme>, l: Lexeme)
    ensures QuietFilter(a + b) == QuietFilter(a) + QuietFilter(b)
    ensures QuietFilter([l]) == if l.ttype != IOType && Parent(l.ttype) != Some(IOType) then [l] else []
    ensures forall i :: 0 <= i < |QuietFilter(a)| ==> NotIO(QuietFilter(a)[i].ttype)
  {
    FilterByAppend(NotIO, a, b);
    FilterBySingle(NotIO, l);
  }

  /** The quiet filter drops every file and read token and keeps text, errors, warnings, pages and UI tokens. */
  lemma QuietFilterKinds()
    ensures !NotIO(IOType) && !NotIO(OpenFileType) && !NotIO(CloseFileType)
    ensures !NotIO(ReadAuxType) && !NotIO(ReadImageType)
    ensures NotIO(TextType) && NotIO(GenericError) && NotIO(GenericWarning)
    ensures NotIO(StartPageType) && NotIO(EndPageType)
    ensures NotIO(PromptType) && NotIO(StatusType) && NotIO(MessageType) && NotIO(LogMessageType)
  {
    assert OpenFileType[..2] == IOType && CloseFileType[..2] == IOType;
    assert ReadAuxType[..2] == IOType && ReadImageType[..2] == IOType;
    assert StartPageType[..2] != IOType && EndPageType[..2] != IOType;
    assert PromptType[..2] != IOType && StatusType[..2] != IOType;
    assert MessageType[..2] != IOType && LogMessageType[..2] != IOType;
  }

  /** Applying `quiet_filter` twice gives what applying it once gives. */
  lemma QuietFilterIdempotent(tokens: seq<Lexeme>)
    ensures QuietFilter(QuietFilter(tokens)) == QuietFilter(tokens)
  {
    FilterByIdempotent(NotIO, tokens);
  }

  /** `contains_error`: scans until the first `Generic.Error` token. */
  method ContainsError(tokens: seq<Lexeme>) returns (found: bool)
    ensures found <==> exists i :: 0 <= i < |tokens| && tokens[i].ttype == GenericError
  {
    for i := 0 to |tokens|
      invariant forall j :: 0 <= j < i ==> tokens[j].ttype != GenericError
    {
      if tokens[i].ttype == GenericError {
        return true;
      }
    }
    return false;
  }

  /** The style table of `AnsiTerminalFormatter`. */
  const StyleTable: map<TokenType, Tag> := map[
    CloseFileType := Dim,
    OpenFileType := Dim,
    ReadAuxType := Dim,
    ReadImageType := Dim,
    GenericError := BrightRed,
    GenericWarning := Yellow,
    PromptType := Red,
    StatusType := Blue,
    MessageType := Dim
  ]

  /** What one token writes: its value, wrapped in its type's style when the table has one. */
  function FormatValue(style: map<TokenType, Tag>, l: Lexeme): Piece {
    if l.ttype in style then Styled(style[l.ttype], l.value) else Plain(l.value)
  }

  /** What `format_unencoded` writes for `tokens`, in order. */
  function Formatted(style: map<TokenType, Tag>, tokens: seq<Lexeme>): Rich {
    if tokens == [] then [] else Formatted(style, tokens[..|tokens| - 1]) + [FormatValue(style, tokens[|tokens| - 1])]
  }

  /** The pieces written are the tokens' values one by one, styled where the table says. */
  lemma {:induction false} FormattedPieces(style: map<TokenType, Tag>, tokens: seq<Lexeme>)
    ensures |Formatted(style, tokens)| == |tokens|
    ensures forall i :: 0 <= i < |tokens| ==>
      Formatted(style, tokens)[i] == if tokens[i].ttype in style then Styled(style[tokens[i].ttype], tokens[i].value) else Plain(tokens[i].value)
    decreases |tokens|
  {
    if tokens != [] {
      FormattedPieces(style, tokens[..|tokens| - 1]);
    }
  }

  /** Styles aside, the output is the values of the tokens joined together. */
  lemma {:induction false} FormattedShowsValues(style: map<TokenType, Tag>, tokens: seq<Lexeme>)
    ensures Visible(Formatted(style, tokens)) == Values(tokens)
    decreases |tokens|
  {
    if tokens != [] {
      var init := tokens[..|tokens| - 1];
      var l := tokens[|tokens| - 1];
      FormattedShowsValues(style, init);
      VisibleAppend(Formatted(style, init), [FormatValue(style, l)]);
      VisibleSingle(FormatValue(style, l));
    }
  }

  /** One token writes one piece. */
  lemma FormattedSingle(style: map<TokenType, Tag>, l: Lexeme)
    ensures Formatted(style, [l]) == [FormatValue(style, l)]
  {
    assert [l][..0] == [];
  }

  /** Formatting `a + b` writes the output of `a` and then that of `b`. */
  lemma {:induction false} FormattedAppend(style: map<TokenType, Tag>, a: seq<Lexeme>, b: seq<Lexeme>)
    ensures Formatted(style, a + b) == Formatted(style, a) + Formatted(style, b)
    decreases |b|
  {
    if b == [] {
      assert a + b == a;
    } else {
      assert (a + b)[..|a + b| - 1] == a + b[..|b| - 1];
      FormattedAppend(style, a, b[..|b| - 1]);
    }
  }

  /** The table: file and read messages dim, errors bright red, warnings yellow, prompts red, the status blue, messages dim; nothing else is styled. */
  lemma StyleTableEntries(t: TokenType)
    ensures (t == CloseFileType || t == OpenFileType || t == ReadAuxType || t == ReadImageType || t == MessageType)
      ==> StyleTable[t] == Dim
    ensures t == GenericError ==> StyleTable[t] == BrightRed
    ensures t == GenericWarning ==> StyleTable[t] == Yellow
    ensures t == PromptType ==> StyleTable[t] == Red
    ensures t == StatusType ==> StyleTable[t] == Blue
    ensures t in StyleTable <==> t in {CloseFileType, OpenFileType, ReadAuxType, ReadImageType, GenericError, GenericWarning, PromptType, StatusType, MessageType}
  {
    // The keys are nine different types: they differ in their second or third name.
    assert CloseFileType[1] == OpenFileType[1] == ReadAuxType[1] == ReadImageType[1] == IO;
    assert PromptType[1] == StatusType[1] == MessageType[1] == UI;
    assert PromptType[2] != StatusType[2] && PromptType[2] != MessageType[2];
    assert |GenericError| == |GenericWarning| == 2;
  }

  /** `AnsiTerminalFormatter`: its style table is fixed when it is made. */
  class AnsiTerminalFormatter {
    const style: map<TokenType, Tag>

    constructor()
      ensures style == StyleTable
    {
      style := StyleTable;
    }

    /** Writes each value in order, styled by the table; no value may hold a newline. */
    method FormatUnencoded(tokens: seq<Lexeme>) returns (written: Rich)
      requires forall i :: 0 <= i < |tokens| ==> '\n' !in tokens[i].value
      ensures written == Formatted(style, tokens)
    {
      written := [];
      for i := 0 to |tokens|
        invariant written == Formatted(style, tokens[..i])
      {
        var l := tokens[i];
        if l.ttype in style {
          written := written + [Styled(style[l.ttype], l.value)];
        } else {
          written := written + [Plain(l.value)];
        }
        assert tokens[..i + 1][..i] == tokens[..i];
      }
      assert tokens[..|tokens|] == tokens;
    }
  }
}
