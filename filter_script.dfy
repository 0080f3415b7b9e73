/** filter.py: colours the lines of the compiler's output one by one, without tracking pages or files. */
module FilterScript {
  import opened PyStr
  import opened Colorama
  import opened Classic

  /** `handle_line`: what is printed for one line of output. */
  function HandleLine(line: String): seq<String> {
    var l := StripLineEnd(line);
    PrintLine(Classify(l, false), l)
  }

  /**
   * The line, stripped of line ends, is dropped when it opens or closes a
   * file, printed bright red when it starts with "!", yellow when it is
   * probably a warning, and plain otherwise.
   */
  lemma HandleLineCases(line: String)
    ensures var l := StripLineEnd(line);
      HandleLine(line)
        == if StartsWith(l, "(/") || StartsWith(l, "(./") || StartsWith(l, ")") then []
           else if StartsWith(l, "!") then [Bright + ForeRed + l + ResetAll + "\n"]
           else if ProbablyWarning(l) then [ForeYellow + l + ResetAll + "\n"]
           else [l + "\n"]
  {
    var l := StripLineEnd(line);
    SuppressedWhen(l, false);
  }

  /** A line starting "!" is an error even when it mentions a warning. */
  lemma ErrorMentioningWarning()
    ensures HandleLine("! warning") == [Bright + ForeRed + "! warning" + ResetAll + "\n"]
  {
    var l := "! warning";
    assert StripLineEnd(l) == l by {
      LStripStep(l, LineEnd);
      RStripStep(l, LineEnd);
    }
    ErrorBeatsWarning(l, false);
  }

  /** With no page branch, a bare page number is printed plain. */
  lemma PageLinePrintedPlain()
    ensures HandleLine("[1]") == ["[1]\n"]
  {
    var l := "[1]";
    assert StripLineEnd(l) == l by {
      LStripStep(l, LineEnd);
      RStripStep(l, LineEnd);
    }
    PageOnlyLine();
    assert l + "\n" == "[1]\n";
  }

  /** The line end the output arrives with makes no difference. */
  lemma LineEndIgnored(line: String)
    ensures HandleLine(line + "\r\n") == HandleLine(line)
  {
    StripLineEndIgnoresEnd(line);
  }
}
