/**
 * Terminal output as the rewrites build it: text written as it is, or text
 * wrapped in one of the `blessings` terminal styles. The escape sequences a
 * style stands for are not spelled out.
 */
module Styles {
  import opened PyStr

  /** The `blessings` styles in use. */
  datatype Tag = Dim | BrightRed | Yellow | Red | Blue

  /** One piece of output. */
  datatype Piece = Plain(text: String) | Styled(tag: Tag, text: String)

  type Rich = seq<Piece>

  /** The characters the output shows, styles aside. */
  function Visible(r: Rich): (s: String)
    ensures r == [] ==> s == []
  {
    if r == [] then [] else Visible(r[..|r| - 1]) + r[|r| - 1].text
  }

  lemma VisibleAppend(a: Rich, b: Rich)
    ensures Visible(a + b) == Visible(a) + Visible(b)
  {
    if b == [] {
      assert a + b == a;
    } else {
      assert (a + b)[..|a + b| - 1] == a + b[..|b| - 1];
      VisibleAppend(a, b[..|b| - 1]);
    }
  }

  lemma VisibleSingle(p: Piece)
    ensures Visible([p]) == p.text
  {
    assert [p][..0] == [];
  }
}
