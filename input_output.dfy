/**
 * quietex/input_output.py: `BasicIo` writes values and a status line that
 * shows the current page and file, and `TerminalIo` keeps that status line
 * at the bottom of a terminal. Standard output is the log `written` of the
 * strings written, in order; what `input()` reads arrives as a parameter.
 */
module InputOutput {
  import opened PyStr
  import opened Colorama

  /** What `_print` writes: the style if one is given, the value and its end, then the reset if a style was given. */
  function PrintWrites(value: String, end: String, style: Option<String>): seq<String> {
    if Truthy(style) then [style.value, value + end, ResetAll] else [value + end]
  }

  /** The text of the status line: "[page]" for a truthy page, then " (file)" for a truthy file, stripped of spaces once the file was added. */
  function IoStatus(page: Option<String>, file: Option<String>): String {
    var withPage := if Truthy(page) then "[" + page.value + "]" else "";
    if Truthy(file) then Strip(withPage + " (" + file.value + ")", {' '}) else withPage
  }

  /** The status line with `status_style` around it when that is set. */
  function StyledStatus(page: Option<String>, file: Option<String>, statusStyle: Option<String>): String {
    if Truthy(statusStyle) then statusStyle.value + IoStatus(page, file) + ResetAll else IoStatus(page, file)
  }

  /** The prompt `input` shows: wrapped in the style when one is given. */
  function StyledPrompt(prompt: String, style: Option<String>): String {
    if Truthy(style) then style.value + prompt + ResetAll else prompt
  }

  /** The condition under which `print` shows the status after a value, with Python's precedence: `and` binds tighter than `or`. */
  predicate StatusDue(end: String, page: Option<String>, lastPage: Option<String>, file: Option<String>, lastFile: Option<String>) {
    (end == "\n" && page != lastPage) || file != lastFile
  }

  class BasicIo {
    var page: Option<String>
    var file: Option<String>
    var statusStyle: Option<String>
    var lastPage: Option<String>
    var lastFile: Option<String>
    var written: seq<String>

    constructor()
      ensures page == None && file == None && statusStyle == None
      ensures lastPage == None && lastFile == None && written == []
    {
      page := None;
      file := None;
      statusStyle := None;
      lastPage := None;
      lastFile := None;
      written := [];
    }

    /** The page or file differ from what the status line last showed, for a value printed with `end`. */
    predicate StatusChanged(end: String)
      reads this
    {
      StatusDue(end, page, lastPage, file, lastFile)
    }

    /** `_write`: one string to standard output, returning how many characters it holds. */
    method Write(raw: String) returns (n: nat)
      modifies this
      ensures written == old(written) + [raw] && n == |raw|
      ensures page == old(page) && file == old(file) && statusStyle == old(statusStyle)
      ensures lastPage == old(lastPage) && lastFile == old(lastFile)
    {
      written := written + [raw];
      n := |raw|;
    }

    /** `input`: shows the prompt, styled when a style is given, and returns what was typed. */
    method Input(prompt: String, style: Option<String>, reply: String) returns (answer: String)
      modifies this
      ensures written == old(written) + [StyledPrompt(prompt, style)] && answer == reply
      ensures page == old(page) && file == old(file) && statusStyle == old(statusStyle)
      ensures lastPage == old(lastPage) && lastFile == old(lastFile)
    {
      var raw := prompt;
      if style.Some? && style.value != "" {
        raw := style.value + prompt + ResetAll;
      }
      written := written + [raw];
      answer := reply;
    }

    /** `_print`: the value and its end, between the style and the reset when a style is given; returns the characters written. */
    method PrintRaw(value: String, end: String, style: Option<String>) returns (length: nat)
      modifies this
      ensures written == old(written) + PrintWrites(value, end, style)
      ensures length == |value| + |end| + (if Truthy(style) then |style.value| + |ResetAll| else 0)
      ensures page == old(page) && file == old(file) && statusStyle == old(statusStyle)
      ensures lastPage == old(lastPage) && lastFile == old(lastFile)
    {
      length := 0;
      var n: nat;
      if style.Some? && style.value != "" {
        n := Write(style.value);
        length := length + n;
      }
      n := Write(value + end);
      length := length + n;
      if style.Some? && style.value != "" {
        n := Write(ResetAll);
        length := length + n;
      }
    }

    /** `print_status`: writes the status line and records what it shows. */
    method PrintStatus(end: String) returns (length: nat)
      modifies this
      ensures written == old(written) + [StyledStatus(page, file, statusStyle) + end]
      ensures length == |StyledStatus(page, file, statusStyle)| + |end|
      ensures lastPage == page && lastFile == file
      ensures page == old(page) && file == old(file) && statusStyle == old(statusStyle)
      ensures forall e :: !StatusChanged(e)
    {
      var status := "";
      if page.Some? && page.value != "" {
        status := status + "[" + page.value + "]";
        assert status == "[" + page.value + "]";
      }
      ghost var withPage := status;
      if file.Some? && file.value != "" {
        status := status + " (" + file.value + ")";
        assert status == withPage + " (" + file.value + ")";
        status := Strip(status, {' '});
      }
      if statusStyle.Some? && statusStyle.value != "" {
        status := statusStyle.value + status + ResetAll;
      }
      length := PrintRaw(status, end, None);
      lastPage := page;
      lastFile := file;
    }

    /** `print`: the value, then the status line when the page (for a whole line) or the file changed. */
    method Print(value: String, end: String, style: Option<String>) returns (length: nat)
      modifies this
      ensures written == old(written) + PrintWrites(value, end, style)
        + (if old(StatusChanged(end)) then [StyledStatus(page, file, statusStyle) + "\n"] else [])
      ensures length == |value| + |end| + (if Truthy(style) then |style.value| + |ResetAll| else 0)
        + (if old(StatusChanged(end)) then |StyledStatus(page, file, statusStyle)| + 1 else 0)
      ensures page == old(page) && file == old(file) && statusStyle == old(statusStyle)
      ensures old(StatusChanged(end)) ==> lastPage == page && lastFile == file
      ensures !old(StatusChanged(end)) ==> lastPage == old(lastPage) && lastFile == old(lastFile)
    {
      length := PrintRaw(value, end, style);
      if (end == "\n" && page != lastPage) || file != lastFile {
        var n := PrintStatus("\n");
        length := length + n;
      }
    }
  }

  /** `TerminalIo`: a `BasicIo` that keeps the status line as the last line of the terminal. */
  class TerminalIo {
    const basic: BasicIo
    var keepLastStatus: bool

    /** The cursor-to-start and delete-whole-line sequences. */
    static const CursorToStart: String := "\U{1B}[G"
    static const DeleteWholeLine: String := "\U{1B}[2K"

    constructor()
      ensures fresh(basic) && !keepLastStatus && basic.written == []
      ensures basic.page == None && basic.file == None && basic.statusStyle == None
      ensures basic.lastPage == None && basic.lastFile == None
    {
      basic := new BasicIo();
      keepLastStatus := false;
    }

    /** `_clear_status`: ends a status line that is to be kept, or wipes the status line off the terminal. */
    method ClearStatus()
      modifies this, basic
      ensures basic.written == old(basic.written) + [if old(keepLastStatus) then "\n" else CursorToStart + DeleteWholeLine]
      ensures !keepLastStatus
      ensures basic.page == old(basic.page) && basic.file == old(basic.file) && basic.statusStyle == old(basic.statusStyle)
      ensures basic.lastPage == old(basic.lastPage) && basic.lastFile == old(basic.lastFile)
    {
      if keepLastStatus {
        var _ := basic.Write("\n");
        keepLastStatus := false;
      } else {
        var _ := basic.Write(CursorToStart + DeleteWholeLine);
      }
    }

    /** `input`: clears the status line, then shows the prompt. */
    method Input(prompt: String, style: Option<String>, reply: String) returns (answer: String)
      modifies this, basic
      ensures basic.written == old(basic.written)
        + [if old(keepLastStatus) then "\n" else CursorToStart + DeleteWholeLine, StyledPrompt(prompt, style)]
      ensures answer == reply && !keepLastStatus
      ensures basic.page == old(basic.page) && basic.file == old(basic.file) && basic.statusStyle == old(basic.statusStyle)
      ensures basic.lastPage == old(basic.lastPage) && basic.lastFile == old(basic.lastFile)
    {
      ClearStatus();
      answer := basic.Input(prompt, style, reply);
    }

    /**
     * `print`: clears the status line, prints the value, keeps the coming
     * status line when it shows something new, and always reprints it without
     * a line end.
     */
    method Print(value: String, end: String, style: Option<String>)
      modifies this, basic
      ensures basic.written == old(basic.written)
        + [if old(keepLastStatus) then "\n" else CursorToStart + DeleteWholeLine]
        + PrintWrites(value, end, style)
        + [StyledStatus(basic.page, basic.file, basic.statusStyle)]
      ensures keepLastStatus == old(basic.StatusChanged(end))
      ensures basic.page == old(basic.page) && basic.file == old(basic.file) && basic.statusStyle == old(basic.statusStyle)
      ensures basic.lastPage == basic.page && basic.lastFile == basic.file
      ensures forall e :: !basic.StatusChanged(e)
    {
      ClearStatus();
      var _ := basic.PrintRaw(value, end, style);
      if (end == "\n" && basic.page != basic.lastPage) || basic.file != basic.lastFile {
        keepLastStatus := true;
      }
      var _ := basic.PrintStatus("");
      assert StyledStatus(basic.page, basic.file, basic.statusStyle) + "" == StyledStatus(basic.page, basic.file, basic.statusStyle);
    }
  }
}
