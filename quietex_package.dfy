/**
 * `handle_line` of quietex/__init__.py: follows the page and file a line
 * mentions on the output object, then prints the line through it (styled by
 * its kind), or prints nothing so that the status line still gets updated.
 */
module QuietexPackage {
  import opened PyStr
  import opened Colorama
  import opened Classic
  import opened InputOutput

  /** The arguments of the `tty.print` call a line ends in. */
  datatype PrintCall = PrintCall(value: String, end: String, style: Option<String>)

  /** A suppressed line prints an empty value with no line end; any other line prints itself, stripped, in its style. */
  function PrintFor(line: String): PrintCall {
    var l := StripLineEnd(line);
    var k := Classify(l, true);
    if k == Suppressed then PrintCall("", "", None) else PrintCall(l, "\n", LineStyle(k))
  }

  /** The value `tty.page` (or `tty.file`) takes for a line: what the search finds, when that is true, or else what it was. */
  function FoundOr(f: Finder, line: String, current: Option<String>): Option<String> {
    var found := FindLast(f, line);
    if Truthy(found) then found else current
  }

  /** `handle_line` on a `BasicIo`: returns what `print` returns, the number of characters written. */
  method HandleLine(tty: BasicIo, line: String) returns (length: nat)
    modifies tty
    ensures tty.page == FoundOr(PageNumber, line, old(tty.page)) && tty.file == FoundOr(FileOpening, line, old(tty.file))
    ensures tty.statusStyle == old(tty.statusStyle)
    ensures var c := PrintFor(line);
      var due := StatusDue(c.end, tty.page, old(tty.lastPage), tty.file, old(tty.lastFile));
      tty.written == old(tty.written) + PrintWrites(c.value, c.end, c.style)
        + (if due then [StyledStatus(tty.page, tty.file, tty.statusStyle) + "\n"] else [])
      && (due ==> tty.lastPage == tty.page && tty.lastFile == tty.file)
      && (!due ==> tty.lastPage == old(tty.lastPage) && tty.lastFile == old(tty.lastFile))
      && length == |c.value| + |c.end| + (if Truthy(c.style) then |c.style.value| + |ResetAll| else 0)
        + (if due then |StyledStatus(tty.page, tty.file, tty.statusStyle)| + 1 else 0)
  {
    var pageNumber := FindLast(PageNumber, line);
    if pageNumber.Some? && pageNumber.value != "" {
      tty.page := pageNumber;
    }
    var file := FindLast(FileOpening, line);
    if file.Some? && file.value != "" {
      tty.file := file;
    }
    assert tty.page == FoundOr(PageNumber, line, old(tty.page)) && tty.file == FoundOr(FileOpening, line, old(tty.file));
    var c := PrintFor(line);
    length := tty.Print(c.value, c.end, c.style);
  }

  /** `handle_line` on a `TerminalIo`, whose `print` returns nothing. */
  method HandleLineTerminal(tty: TerminalIo, line: String)
    modifies tty, tty.basic
    ensures tty.basic.page == FoundOr(PageNumber, line, old(tty.basic.page))
    ensures tty.basic.file == FoundOr(FileOpening, line, old(tty.basic.file))
    ensures tty.basic.statusStyle == old(tty.basic.statusStyle)
    ensures var c := PrintFor(line);
      tty.basic.written == old(tty.basic.written)
        + [if old(tty.keepLastStatus) then "\n" else TerminalIo.CursorToStart + TerminalIo.DeleteWholeLine]
        + PrintWrites(c.value, c.end, c.style)
        + [StyledStatus(tty.basic.page, tty.basic.file, tty.basic.statusStyle)]
      && tty.keepLastStatus == StatusDue(c.end, tty.basic.page, old(tty.basic.lastPage), tty.basic.file, old(tty.basic.lastFile))
    ensures tty.basic.lastPage == tty.basic.page && tty.basic.lastFile == tty.basic.file
  {
    var pageNumber := FindLast(PageNumber, line);
    if pageNumber.Some? && pageNumber.value != "" {
      tty.basic.page := pageNumber;
    }
    var file := FindLast(FileOpening, line);
    if file.Some? && file.value != "" {
      tty.basic.file := file;
    }
    assert tty.basic.page == FoundOr(PageNumber, line, old(tty.basic.page)) && tty.basic.file == FoundOr(FileOpening, line, old(tty.basic.file));
    var c := PrintFor(line);
    tty.Print(c.value, c.end, c.style);
  }

  /** A suppressed line ends with no line end, so it brings the status line only when the file changed: a new page alone waits. */
  lemma SuppressedShowsOnlyNewFiles(line: String, page: Option<String>, lastPage: Option<String>, file: Option<String>, lastFile: Option<String>)
    requires Classify(StripLineEnd(line), true) == Suppressed
    ensures StatusDue(PrintFor(line).end, page, lastPage, file, lastFile) <==> file != lastFile
  {
  }

  /** A printed line ends the line, so it brings the status line when either the page or the file changed. */
  lemma PrintedShowsAnyChange(line: String, page: Option<String>, lastPage: Option<String>, file: Option<String>, lastFile: Option<String>)
    requires Classify(StripLineEnd(line), true) != Suppressed
    ensures StatusDue(PrintFor(line).end, page, lastPage, file, lastFile) <==> page != lastPage || file != lastFile
  {
  }

  /** The page is replaced exactly when the line holds a page number, by the digits of the last one. */
  lemma PageFollowsLastNumber(line: String, page: Option<String>) returns (i: nat)
    ensures FindLast(PageNumber, line).None? ==> FoundOr(PageNumber, line, page) == page
    ensures FindLast(PageNumber, line).Some? ==>
      i <= |line| && MatchEnd(PageNumber, line, i).Some?
      && FoundOr(PageNumber, line, page) == Some(Group(PageNumber, line, i, MatchEnd(PageNumber, line, i).value))
      && forall j :: i < j <= |line| ==> MatchEnd(PageNumber, line, j).None?
  {
    i := FindLastIsLastMatch(PageNumber, line);
    FoundIsTruthy(PageNumber, line);
  }
}
