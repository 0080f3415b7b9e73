/** What the status line of `BasicIo` shows, when `print` shows it, and two runs of the test suite's scenarios. */
module InputOutputProps {
  import opened PyStr
  import opened Colorama
  import opened InputOutput
  import StatusProps

  /** The status line holds "[p]" for a truthy page and "(f)" for a truthy file, one space between them when there are both, and nothing otherwise. */
  lemma IoStatusCases(page: Option<String>, file: Option<String>)
    ensures IoStatus(page, file)
      == if Truthy(page) && Truthy(file) then "[" + page.value + "] (" + file.value + ")"
         else if Truthy(page) then "[" + page.value + "]"
         else if Truthy(file) then "(" + file.value + ")"
         else ""
  {
    if Truthy(file) {
      var withPage := if Truthy(page) then "[" + page.value + "]" else "";
      StatusProps.StripAroundFile(withPage, file.value);
    }
  }

  /** The status lines of the test suite without a style. */
  lemma IoStatusExamples()
    ensures IoStatus(None, None) == ""
    ensures IoStatus(Some("1"), None) == "[1]"
    ensures IoStatus(None, Some("./test.tex")) == "(./test.tex)"
    ensures IoStatus(Some("1"), Some("./test.tex")) == "[1] (./test.tex)"
  {
    IoStatusCases(None, Some("./test.tex"));
    IoStatusCases(Some("1"), Some("./test.tex"));
    StatusProps.FileExampleSpelled();
  }

  /** A status style wraps the whole status line, as in the coloured test. */
  lemma StyledStatusExample()
    ensures StyledStatus(Some("1"), Some("./test.tex"), Some(ForeRed)) == ForeRed + "[1] (./test.tex)" + ResetAll
  {
    IoStatusCases(Some("1"), Some("./test.tex"));
    StatusProps.FileExampleSpelled();
  }

  /** A new file always brings the status line, whatever ends the value; a new page brings it only after a whole line. */
  lemma StatusDuePrecedence(end: String, page: Option<String>, lastPage: Option<String>, file: Option<String>, lastFile: Option<String>)
    ensures file != lastFile ==> StatusDue(end, page, lastPage, file, lastFile)
    ensures file == lastFile ==> (StatusDue(end, page, lastPage, file, lastFile) <==> end == "\n" && page != lastPage)
  {
  }

  /** After a value with no line end, a new file shows the status line but a new page does not. */
  lemma StatusDueWithoutLineEnd()
    ensures StatusDue("", None, None, Some("./a.tex"), None)
    ensures !StatusDue("", Some("1"), None, None, None)
  {
  }

  /** The test where the page changes between two prints: the status line follows the second value. */
  method PageChangeShowsStatus() returns (w: seq<String>)
    ensures w == ["test 1\n", "test 2\n", "[1]\n"]
  {
    var o := new BasicIo();
    assert !o.StatusChanged("\n");
    var _ := o.Print("test 1", "\n", None);
    assert "test 1" + "\n" == "test 1\n" && "test 2" + "\n" == "test 2\n" && "[1]" + "\n" == "[1]\n";
    assert o.written == ["test 1\n"];
    o.page := Some("1");
    IoStatusCases(Some("1"), None);
    assert StyledStatus(Some("1"), None, None) == "[1]";
    assert o.StatusChanged("\n") && o.file == None && o.statusStyle == None;
    var _ := o.Print("test 2", "\n", None);
    assert o.written == ["test 1\n"] + ["test 2\n"] + ["[1]\n"];
    w := o.written;
  }

  /** The test where the status line stays at the bottom: kept after a new page, wiped and rewritten after an unchanged one. */
  method StatusStaysAtBottom() returns (w: seq<String>)
    ensures w == [TerminalIo.CursorToStart + TerminalIo.DeleteWholeLine, "test1\n", "[1]", "\n", "test2\n", "[1]"]
  {
    var o := new TerminalIo();
    o.basic.page := Some("1");
    IoStatusCases(Some("1"), None);
    assert StyledStatus(Some("1"), None, None) == "[1]";
    assert "test1" + "\n" == "test1\n" && "test2" + "\n" == "test2\n" && "[1]" + "" == "[1]";
    o.Print("test1", "\n", None);
    assert o.keepLastStatus;
    assert o.basic.written == [TerminalIo.CursorToStart + TerminalIo.DeleteWholeLine] + ["test1\n"] + ["[1]"];
    o.Print("test2", "\n", None);
    assert o.basic.written == [TerminalIo.CursorToStart + TerminalIo.DeleteWholeLine, "test1\n", "[1]"] + ["\n"] + ["test2\n"] + ["[1]"];
    w := o.basic.written;
  }
}
