/** The token records of the hand-written parser (quietex/tokens.py). */
module Tokens {
  import opened PyStr
  import opened Scan

  /**
   * One token of a log line. Every kind carries the text it was read from;
   * `OpenFile` and `Page` also carry a value (the path, the page digits),
   * which the record leaves unset when it is not given.
   */
  datatype Token =
    | CloseFile
    | Error(body: String)
    | Newline
    | OpenFile(body: String, value: Option<String>)
    | Other(body: String)
    | Page(body: String, value: Option<String>)
    | ReadAux(body: String)
    | ReadImage(body: String)
    | Warning(body: String)
  {
    /** The `text` attribute: what the token covers in the log. */
    function Text(): (r: String)
      ensures this.CloseFile? ==> r == ")"
      ensures this.Newline? ==> r == "\n"
      ensures !this.CloseFile? && !this.Newline? ==> r == this.body
    {
      match this
      case CloseFile => ")"
      case Newline => "\n"
      case _ => this.body
    }

    /** The `value` attribute, which only file openings and pages ever set. */
    function Value(): (r: Option<String>)
      ensures !this.OpenFile? && !this.Page? ==> r == None
    {
      match this
      case OpenFile(_, v) => v
      case Page(_, v) => v
      case _ => None
    }

    /** The record class the token is an instance of. */
    function KindOf(): Kind {
      match this
      case CloseFile => CloseFileKind
      case Error(_) => ErrorKind
      case Newline => NewlineKind
      case OpenFile(_, _) => OpenFileKind
      case Other(_) => OtherKind
      case Page(_, _) => PageKind
      case ReadAux(_) => ReadAuxKind
      case ReadImage(_) => ReadImageKind
      case Warning(_) => WarningKind
    }
  }

  /** The token classes, as `type(token)` tells them apart. */
  datatype Kind =
    | CloseFileKind | ErrorKind | NewlineKind | OpenFileKind | OtherKind
    | PageKind | ReadAuxKind | ReadImageKind | WarningKind

  /** Record equality compares the class and both attributes, and nothing else. */
  lemma EqualityIsKindTextValue(a: Token, b: Token)
    ensures a == b <==> (a.KindOf() == b.KindOf() && a.Text() == b.Text() && a.Value() == b.Value())
  {
  }

  /** The texts of a token list, joined: `"".join(t.text for t in tokens)`. */
  function Texts(tokens: seq<Token>): (r: String)
    ensures tokens == [] ==> r == []
  {
    if tokens == [] then [] else Texts(tokens[..|tokens| - 1]) + tokens[|tokens| - 1].Text()
  }

  lemma {:induction false} TextsAppend(a: seq<Token>, b: seq<Token>)
    ensures Texts(a + b) == Texts(a) + Texts(b)
  {
    if b == [] {
      assert a + b == a;
    } else {
      var init := b[..|b| - 1];
      var t := b[|b| - 1];
      assert (a + b)[..|a + b| - 1] == a + init;
      assert (a + b)[|a + b| - 1] == t;
      TextsAppend(a, init);
      assert Texts(a + b) == Texts(a + init) + t.Text();
      assert Texts(b) == Texts(init) + t.Text();
    }
  }

  lemma TextsSingle(t: Token)
    ensures Texts([t]) == t.Text()
  {
    assert [t][..0] == [];
  }

  /** `n` close-file tokens in a row. */
  function Closes(n: nat): (r: seq<Token>)
    ensures |r| == n && forall i :: 0 <= i < n ==> r[i] == CloseFile
  {
    if n == 0 then [] else Closes(n - 1) + [CloseFile]
  }

  lemma {:induction false} TextsOfCloses(n: nat)
    ensures Texts(Closes(n)) == Parens(n)
  {
    if n > 0 {
      TextsOfCloses(n - 1);
      assert Closes(n)[..n - 1] == Closes(n - 1);
    }
  }
}
