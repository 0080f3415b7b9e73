/**
 * quietex.py: classifies each line of the compiler's output, and after each
 * one rewrites a status line showing the last page number and the last file
 * opening seen so far. The child process is replaced by the sequence of
 * lines it prints; everything written to standard output is the log.
 */
module QuietexScript {
  import opened PyStr
  import opened Colorama
  import opened Classic
  import FilterScript

  const CursorToStart: String := "\U{1B}[G"
  const DeleteWholeLine: String := "\U{1B}[2K"

  /** `handle_line`: what is printed for one line of output. */
  function HandleLine(line: String): seq<String> {
    var l := StripLineEnd(line);
    PrintLine(Classify(l, true), l)
  }

  /** `print_status`: "[page]", then " (file)" when there is a file, in blue, with no line end. */
  function StatusBar(lastPage: String, lastFile: String): String {
    var status := "[" + lastPage + "]" + (if lastFile != "" then " (" + lastFile + ")" else "");
    ForeBlue + status + ResetAll
  }

  /** The page number before any is seen, as `str(0)` shows it. */
  const FirstPage: String := "0"

  /** The page (or file) after a line: what the search finds in it, when that is true, or else the one before. */
  function NextValue(f: Finder, line: String, current: String): String {
    var found := FindLast(f, line);
    if Truthy(found) then found.value else current
  }

  /** What the loop writes for one line, given the page and file seen before it. */
  function LineOutput(lastPage: String, lastFile: String, line: String): seq<String> {
    var page := NextValue(PageNumber, line, lastPage);
    var file := NextValue(FileOpening, line, lastFile);
    [CursorToStart, DeleteWholeLine] + HandleLine(line) + [StatusBar(page, file)]
      + (if Truthy(FindLast(PageNumber, line)) then ["\n", StatusBar(page, file)] else [])
  }

  /** How far the loop has come: what it wrote, and the page and file it is showing. */
  datatype Progress = Progress(written: seq<String>, page: String, file: String)

  /** One pass of the loop. */
  function Step(p: Progress, line: String): Progress {
    Progress(p.written + LineOutput(p.page, p.file, line), NextValue(PageNumber, line, p.page), NextValue(FileOpening, line, p.file))
  }

  /** The loop over `lines`, from page "0" and no file. */
  function Run(lines: seq<String>): Progress
    decreases |lines|
  {
    if lines == [] then Progress([], FirstPage, "")
    else Step(Run(lines[..|lines| - 1]), lines[|lines| - 1])
  }

  /** One more line of the loop is one more step: what it writes is added, and the page and file move on. */
  lemma RunStep(lines: seq<String>, i: nat, chunk: seq<String>, page: String, file: String)
    requires i < |lines|
    requires chunk == LineOutput(Run(lines[..i]).page, Run(lines[..i]).file, lines[i])
    requires page == NextValue(PageNumber, lines[i], Run(lines[..i]).page)
    requires file == NextValue(FileOpening, lines[i], Run(lines[..i]).file)
    ensures Run(lines[..i + 1]) == Progress(Run(lines[..i]).written + chunk, page, file)
  {
    assert lines[..i + 1][..i] == lines[..i];
  }

  /** One pass of the loop: clear the status line, handle the line, follow its page and file, reprint the status. */
  method FollowLine(lastPage: String, lastFile: String, line: String) returns (chunk: seq<String>, page: String, file: String)
    ensures chunk == LineOutput(lastPage, lastFile, line)
    ensures page == NextValue(PageNumber, line, lastPage) && file == NextValue(FileOpening, line, lastFile)
  {
    chunk := [CursorToStart, DeleteWholeLine] + HandleLine(line);
    page := lastPage;
    file := lastFile;
    var pageNumber := FindLast(PageNumber, line);
    if pageNumber.Some? && pageNumber.value != "" {
      page := pageNumber.value;
    }
    var found := FindLast(FileOpening, line);
    if found.Some? && found.value != "" {
      file := found.value;
    }
    chunk := chunk + [StatusBar(page, file)];
    if pageNumber.Some? && pageNumber.value != "" {
      chunk := chunk + ["\n", StatusBar(page, file)];
    }
  }

  /** The loop of `run_command` over the lines the compiler prints: what it writes, and the page and file it ends with. */
  method RunLines(lines: seq<String>) returns (written: seq<String>, lastPage: String, lastFile: String)
    ensures written == Run(lines).written
    ensures lastPage == Run(lines).page && lastFile == Run(lines).file
  {
    written := [];
    lastPage := FirstPage;
    lastFile := "";
    for i := 0 to |lines|
      invariant written == Run(lines[..i]).written
      invariant lastPage == Run(lines[..i]).page && lastFile == Run(lines[..i]).file
    {
      var chunk, page, file := FollowLine(lastPage, lastFile, lines[i]);
      RunStep(lines, i, chunk, page, file);
      written := written + chunk;
      lastPage, lastFile := page, file;
    }
    assert lines[..|lines|] == lines;
  }

  /** Handling a line is what filter.py does, except that a line starting with a page number is suppressed. */
  lemma HandleLineAddsPageBranch(line: String)
    ensures var l := StripLineEnd(line);
      HandleLine(line) == if MatchEnd(PageNumber, l, 0).Some? then [] else FilterScript.HandleLine(line)
  {
    var l := StripLineEnd(line);
    PageBranchOnlySuppresses(l);
    SuppressedWhen(l, true);
  }

  /** The page or the file a run is showing. */
  function Shown(f: Finder, p: Progress): String {
    match f
    case PageNumber => p.page
    case FileOpening => p.file
  }

  /** What is shown before any line: page "0" and no file. */
  function Start(f: Finder): String {
    match f
    case PageNumber => FirstPage
    case FileOpening => ""
  }

  /**
   * The page (and the file) shown after a run is what the search found in the
   * last line in which it found anything, or the starting "0" (no file) when no
   * line had one.
   */
  lemma {:induction false} ShowsLastFound(f: Finder, lines: seq<String>) returns (i: int)
    ensures -1 <= i < |lines|
    ensures i == -1 ==> (forall j :: 0 <= j < |lines| ==> FindLast(f, lines[j]).None?) && Shown(f, Run(lines)) == Start(f)
    ensures i >= 0 ==> (FindLast(f, lines[i]).Some? && Shown(f, Run(lines)) == FindLast(f, lines[i]).value
      && forall j :: i < j < |lines| ==> FindLast(f, lines[j]).None?)
    decreases |lines|
  {
    if lines == [] {
      i := -1;
    } else {
      var init := lines[..|lines| - 1];
      var last := lines[|lines| - 1];
      assert Shown(f, Run(lines)) == NextValue(f, last, Shown(f, Run(init))) by {
        assert Run(lines) == Step(Run(init), last);
      }
      FoundIsTruthy(f, last);
      if FindLast(f, last).Some? {
        i := |lines| - 1;
      } else {
        i := ShowsLastFound(f, init);
        NothingFoundAfter(f, lines, init, i);
      }
    }
  }

  /** Nothing found after line `i` of all but the last line, nor in the last, is nothing found after line `i`. */
  lemma NothingFoundAfter(f: Finder, lines: seq<String>, init: seq<String>, i: int)
    requires lines != [] && init == lines[..|lines| - 1] && FindLast(f, lines[|lines| - 1]).None?
    requires -1 <= i < |init| && forall j :: i < j < |init| ==> FindLast(f, init[j]).None?
    ensures i >= 0 ==> lines[i] == init[i]
    ensures forall j :: i < j < |lines| ==> FindLast(f, lines[j]).None?
  {
    forall j | i < j < |lines|
      ensures FindLast(f, lines[j]).None?
    {
      if j < |init| {
        assert lines[j] == init[j];
      }
    }
  }

  /** After every line the status line is written last, showing the page and file as they now are. */
  lemma StatusWrittenLast(lines: seq<String>)
    requires lines != []
    ensures var r := Run(lines);
      |r.written| >= 3 && r.written[|r.written| - 1] == StatusBar(r.page, r.file)
  {
  }

  /** A line with a page number leaves a status line in the output: it is written, ended, and written again. */
  lemma NewPageStaysInOutput(lines: seq<String>)
    requires lines != [] && FindLast(PageNumber, lines[|lines| - 1]).Some?
    ensures var r := Run(lines);
      |r.written| >= 3 && r.written[|r.written| - 3..] == [StatusBar(r.page, r.file), "\n", StatusBar(r.page, r.file)]
  {
    FoundIsTruthy(PageNumber, lines[|lines| - 1]);
  }

  /** Until a page number is seen, the status line shows page "0". */
  lemma FirstStatus(line: String)
    requires FindLast(PageNumber, line).None? && FindLast(FileOpening, line).None?
    ensures Run([line]).written[|Run([line]).written| - 1] == ForeBlue + "[0]" + ResetAll
  {
    assert [line][..0] == [];
    assert "[" + FirstPage + "]" + "" == "[0]";
  }
}
