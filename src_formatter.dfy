/**
 * src/quietex/formatter.py: the same error test, style table and writing as
 * quietex/formatter.py (shared from module Formatter), with a quiet filter
 * that also drops `UI.Message`.
 */
module SrcFormatter {
  import opened PyStr
  import opened Lexer
  import opened Styles
  import opened Formatter

  /** `IO not in (token_type, token_type.parent) and token_type != UI.Message`. */
  predicate ShownQuietly(t: TokenType) {
    NotIO(t) && t != MessageType
  }

  /** This rewrite's `quiet_filter`. */
  function SrcQuietFilter(tokens: seq<Lexeme>): seq<Lexeme> {
    FilterBy(ShownQuietly, tokens)
  }

  /** Filtering by `p` and then by `q` filters by both at once. */
  lemma {:induction false} FilterByThen(p: TokenType -> bool, q: TokenType -> bool, both: TokenType -> bool, tokens: seq<Lexeme>)
    requires forall t :: both(t) == (p(t) && q(t))
    ensures FilterBy(q, FilterBy(p, tokens)) == FilterBy(both, tokens)
    decreases |tokens|
  {
    if tokens != [] {
      var init := tokens[..|tokens| - 1];
      var l := tokens[|tokens| - 1];
      FilterByThen(p, q, both, init);
      FilterByAppend(q, FilterBy(p, init), if p(l.ttype) then [l] else []);
      if p(l.ttype) {
        FilterBySingle(q, l);
      }
    }
  }

  /** This filter is the older one followed by dropping `UI.Message` tokens. */
  lemma SrcQuietFilterIsQuietWithoutMessages(tokens: seq<Lexeme>)
    ensures SrcQuietFilter(tokens) == FilterBy(t => t != MessageType, QuietFilter(tokens))
  {
    FilterByThen(NotIO, t => t != MessageType, ShownQuietly, tokens);
  }

  /** It keeps, in order, exactly the tokens that are neither IO, nor a direct child of IO, nor `UI.Message`. */
  lemma SrcQuietFilterKeeps(a: seq<Lexeme>, b: seq<Lexeme>, l: Lexeme)
    ensures SrcQuietFilter(a + b) == SrcQuietFilter(a) + SrcQuietFilter(b)
    ensures SrcQuietFilter([l]) == if NotIO(l.ttype) && l.ttype != MessageType then [l] else []
    ensures forall i :: 0 <= i < |SrcQuietFilter(a)| ==> SrcQuietFilter(a)[i].ttype != MessageType
  {
    FilterByAppend(ShownQuietly, a, b);
    FilterBySingle(ShownQuietly, l);
  }

  /** Applying it twice gives what applying it once gives. */
  lemma SrcQuietFilterIdempotent(tokens: seq<Lexeme>)
    ensures SrcQuietFilter(SrcQuietFilter(tokens)) == SrcQuietFilter(tokens)
  {
    FilterByIdempotent(ShownQuietly, tokens);
  }

  /** A `UI.Message` token survives the older filter but not this one; text passes both. */
  lemma MessageDropped(message: String, text: String)
    ensures QuietFilter([Lexeme(MessageType, message), Lexeme(TextType, text)])
      == [Lexeme(MessageType, message), Lexeme(TextType, text)]
    ensures SrcQuietFilter([Lexeme(MessageType, message), Lexeme(TextType, text)]) == [Lexeme(TextType, text)]
  {
    var m := Lexeme(MessageType, message);
    var t := Lexeme(TextType, text);
    QuietFilterKinds();
    assert TextType != MessageType by {
      assert |TextType| == 1;
    }
    assert [m, t] == [m] + [t];
    QuietFilterKeeps([m], [t], m);
    FilterBySingle(NotIO, t);
    SrcQuietFilterKeeps([m], [t], m);
    FilterBySingle(ShownQuietly, t);
  }

  /** In quiet formatting a page start or end comes through as its plain value. */
  lemma PagesPassUnstyled(l: Lexeme)
    requires l.ttype == StartPageType || l.ttype == EndPageType
    ensures Formatted(StyleTable, SrcQuietFilter([l])) == [Plain(l.value)]
  {
    QuietFilterKinds();
    assert l.ttype != MessageType && l.ttype !in StyleTable by {
      assert l.ttype[1] == State;
      StyleTableEntries(l.ttype);
    }
    FilterBySingle(ShownQuietly, l);
    assert SrcQuietFilter([l]) == [l];
    FormattedSingle(StyleTable, l);
  }

  /** With nothing to show, nothing is written. */
  lemma EmptyFormatsToNothing()
    ensures Formatted(StyleTable, SrcQuietFilter([])) == [] && Visible(Formatted(StyleTable, [])) == ""
  {
  }
}
