/**
 * The lexer of the rewrite built on a rule table (src/quietex/lexer.py): a line
 * is split into sections at page starts and file openings, and each section is
 * run through a table of rules by a machine with a stack of states.
 */
module Lexer {
  import opened PyStr
  import opened Scan

  /** The names that make up token types. */
  datatype Name = Text | Generic | Error | Warning | IO | OpenFile | CloseFile | ReadAux | ReadImage
                | State | StartPage | EndPage | UI | Prompt | Status | Message | LogMessage

  /** A token type, as the path of names below the root `Token` (`Generic.IO.OpenFile`). */
  type TokenType = seq<Name>

  const TextType: TokenType := [Text]
  const GenericError: TokenType := [Generic, Error]
  const GenericWarning: TokenType := [Generic, Warning]
  const IOType: TokenType := [Generic, IO]
  const OpenFileType: TokenType := IOType + [OpenFile]
  const CloseFileType: TokenType := IOType + [CloseFile]
  const ReadAuxType: TokenType := IOType + [ReadAux]
  const ReadImageType: TokenType := IOType + [ReadImage]
  const StartPageType: TokenType := [Generic, State, StartPage]
  const EndPageType: TokenType := [Generic, State, EndPage]
  const UIType: TokenType := [Generic, UI]
  const PromptType: TokenType := UIType + [Prompt]
  const StatusType: TokenType := UIType + [Status]
  const MessageType: TokenType := UIType + [Message]
  const LogMessageType: TokenType := UIType + [LogMessage]
  /** The type the table-driven machine gives a character that no rule accepts. */
  const FallbackError: TokenType := [Error]

  /** `ttype.parent`: None for the root. */
  function Parent(t: TokenType): (r: Option<TokenType>)
    ensures t == [] <==> r.None?
    ensures r.Some? ==> r.value + [t[|t| - 1]] == t
  {
    if t == [] then None else Some(t[..|t| - 1])
  }

  /** One `(tokentype, value)` pair. */
  datatype Lexeme = Lexeme(ttype: TokenType, value: String)

  /** The values of lexemes, joined. */
  function Values(ls: seq<Lexeme>): String {
    if ls == [] then [] else Values(ls[..|ls| - 1]) + ls[|ls| - 1].value
  }

  lemma ValuesAppend(a: seq<Lexeme>, b: seq<Lexeme>)
    ensures Values(a + b) == Values(a) + Values(b)
  {
    if b == [] {
      assert a + b == a;
    } else {
      assert (a + b)[..|a + b| - 1] == a + b[..|b| - 1];
      ValuesAppend(a, b[..|b| - 1]);
    }
  }

  lemma ValuesSingle(l: Lexeme)
    ensures Values([l]) == l.value
  {
    assert [l][..0] == [];
  }

  /** The patterns of the rule table, and `default`, which matches the empty string. */
  datatype LexPattern =
    | ErrorRe        // !.+
    | WarningRe      // ^(Overfull|Underfull|.*([Ww]arning|ATTENTION)).*
    | StartPageRe    // \[\d+\s?
    | OpenFileRe     // \(\.?/[^\s(){}]+
    | CloseFileRe    // \s*\)
    | ReadAuxRe      // {\.?/[^\s(){}]+}
    | ReadImageRe    // <\.?/[^\s(){}]+(?: \(.*\))?>
    | AnyRe          // .+
    | EndPageRe      // \]
    | BareCloseRe    // \)
    | EmptyRe        // default

  /** `^` under the multi-line flag the table is compiled with. */
  predicate AtLineStart(s: String, pos: nat) {
    pos == 0 || (pos <= |s| && s[pos - 1] == '\n')
  }

  /** The warning test of the second root rule, on the rest of the line. */
  predicate LooksLikeWarning(line: String) {
    StartsWith(line, "Overfull") || StartsWith(line, "Underfull")
    || Contains(line, "Warning") || Contains(line, "warning") || Contains(line, "ATTENTION")
  }

  /** Where `\.?/` ends at `q`, the dot being taken when present. */
  function DotSlashEnd(s: String, q: nat): (r: Option<nat>)
    requires q <= |s|
    ensures r.Some? ==> q < r.value <= |s|
  {
    if At(s, q, '.') then (if At(s, q + 1, '/') then Some(q + 2) else None)
    else if At(s, q, '/') then Some(q + 1)
    else None
  }

  /** `pattern.match(s, pos)`: where the match ends, or None. Only `default` can match nothing. */
  function LexMatch(pat: LexPattern, s: String, pos: nat): (r: Option<nat>)
    requires pos <= |s|
    ensures r.Some? ==> pos <= r.value <= |s|
    ensures r.Some? && pat != EmptyRe ==> pos < r.value
    ensures pat == EmptyRe ==> r == Some(pos)
  {
    match pat
    case ErrorRe =>
      if At(s, pos, '!') then
        var e := SpanEnd(s, pos + 1, NotNewline);
        if e > pos + 1 then Some(e) else None
      else None
    case WarningRe =>
      if AtLineStart(s, pos) then
        var e := SpanEnd(s, pos, NotNewline);
        // An empty rest of line contains none of the words.
        if e > pos && LooksLikeWarning(s[pos..e]) then Some(e)
        else None
      else None
    case StartPageRe =>
      if At(s, pos, '[') then
        var e := SpanEnd(s, pos + 1, Digits);
        if e == pos + 1 then None
        else if e < |s| && IsSpace(s[e]) then Some(e + 1)
        else Some(e)
      else None
    case OpenFileRe =>
      if At(s, pos, '(') then DotSlashPathEnd(s, pos + 1) else None
    case CloseFileRe =>
      var e := SpanEnd(s, pos, Spaces);
      if At(s, e, ')') then Some(e + 1) else None
    case ReadAuxRe =>
      if At(s, pos, '{') then
        match DotSlashPathEnd(s, pos + 1)
        case Some(e) => if At(s, e, '}') then Some(e + 1) else None
        case None => None
      else None
    case ReadImageRe =>
      if At(s, pos, '<') then
        match DotSlashEnd(s, pos + 1)
        case None => None
        case Some(runStart) =>
          var runEnd := SpanEnd(s, runStart, PathChars);
          if runEnd == runStart then None else ImageTailEnd(s, runStart, runEnd)
      else None
    case AnyRe =>
      var e := SpanEnd(s, pos, NotNewline);
      if e > pos then Some(e) else None
    case EndPageRe =>
      if At(s, pos, ']') then Some(pos + 1) else None
    case BareCloseRe =>
      if At(s, pos, ')') then Some(pos + 1) else None
    case EmptyRe =>
      Some(pos)
  }

  /** The states of the machine. */
  datatype LexState = Root | PageState | FileState

  /** What a rule does with its match: yield it as one token, hand it to the callback, or nothing. */
  datatype Action = Emit(ttype: TokenType) | TextAndCloseFiles | NoAction

  /** What a rule does to the state stack. */
  datatype Transition = Stay | Push(state: LexState) | Pop

  datatype Rule = Rule(pattern: LexPattern, action: Action, transition: Transition)

  /** The `inputs` rules, included in the root and page states. */
  const Inputs: seq<Rule> := [Rule(ReadAuxRe, Emit(ReadAuxType), Stay), Rule(ReadImageRe, Emit(ReadImageType), Stay)]

  /** The rule table, in the order each state tries its rules. */
  function Rules(state: LexState): seq<Rule> {
    match state
    case Root =>
      [ Rule(ErrorRe, Emit(GenericError), Stay),
        Rule(WarningRe, Emit(GenericWarning), Stay),
        Rule(StartPageRe, Emit(StartPageType), Push(PageState)),
        Rule(OpenFileRe, Emit(OpenFileType), Push(FileState)),
        Rule(CloseFileRe, Emit(CloseFileType), Push(FileState)) ]
      + Inputs
      + [Rule(AnyRe, TextAndCloseFiles, Stay)]
    case PageState =>
      Inputs + [Rule(EndPageRe, Emit(EndPageType), Pop)]
    case FileState =>
      [Rule(BareCloseRe, Emit(CloseFileType), Stay), Rule(EmptyRe, NoAction, Pop)]
  }

  /** `default("#pop")` is the only rule that matches nothing and the only one without an action. */
  lemma OnlyDefaultIsEmpty(state: LexState, rule: Rule)
    requires rule in Rules(state)
    ensures rule.pattern == EmptyRe <==> rule.action.NoAction?
    ensures rule.pattern == EmptyRe ==> state == FileState && rule.transition == Pop
  {
  }

  /** The types the rules emit besides page starts and file openings are neither of those two. */
  lemma EmittedTypesDistinct()
    ensures GenericError != StartPageType && GenericError != OpenFileType
    ensures GenericWarning != StartPageType && GenericWarning != OpenFileType
    ensures CloseFileType != StartPageType && CloseFileType != OpenFileType
    ensures ReadAuxType != StartPageType && ReadAuxType != OpenFileType
    ensures ReadImageType != StartPageType && ReadImageType != OpenFileType
    ensures EndPageType != StartPageType && EndPageType != OpenFileType
    ensures StartPageType != OpenFileType
  {
    assert |GenericError| == |GenericWarning| == 2;
    assert StartPageType[1] == EndPageType[1] == State && OpenFileType[1] == IO;
    assert OpenFileType[2] == OpenFile && EndPageType[2] == EndPage;
    assert CloseFileType[1] == IO && CloseFileType[2] == CloseFile;
    assert ReadAuxType[1] == IO && ReadAuxType[2] == ReadAux;
    assert ReadImageType[1] == IO && ReadImageType[2] == ReadImage;
  }

  /**
   * Only the page-start rule emits a page start, and only the open-file rule a
   * file opening; the catch-all rule goes to the callback.
   */
  lemma ActionPattern(state: LexState, rule: Rule)
    requires rule in Rules(state)
    ensures rule.pattern == StartPageRe ==> rule.action == Emit(StartPageType)
    ensures rule.pattern == OpenFileRe ==> rule.action == Emit(OpenFileType)
    ensures rule.pattern == AnyRe ==> rule.action.TextAndCloseFiles?
    ensures rule.pattern != StartPageRe && rule.pattern != OpenFileRe && rule.pattern != AnyRe ==>
      rule.action.NoAction? || (rule.action.Emit? && rule.action.ttype != StartPageType && rule.action.ttype != OpenFileType)
  {
    EmittedTypesDistinct();
    var rules := Rules(state);
    var i :| 0 <= i < |rules| && rules[i] == rule;
    match state
    case Root =>
      assert i < 5 || i == 7 || rules[i] == Inputs[i - 5];
    case PageState =>
      assert i == 2 || rules[i] == Inputs[i];
    case FileState =>
  }

  /** The first rule of `rules` whose pattern matches at `pos`, with the end of its match. */
  function FirstMatch(rules: seq<Rule>, s: String, pos: nat): (r: Option<(Rule, nat)>)
    requires pos <= |s|
    ensures r.Some? ==> r.value.0 in rules && LexMatch(r.value.0.pattern, s, pos) == Some(r.value.1)
  {
    if rules == [] then None
    else
      match LexMatch(rules[0].pattern, s, pos)
      case Some(e) => Some((rules[0], e))
      case None => FirstMatch(rules[1..], s, pos)
  }

  /** The rules are tried in order: the one chosen is the first whose pattern matches, and None means none does. */
  lemma {:induction false} FirstMatchIsFirst(rules: seq<Rule>, s: String, pos: nat) returns (i: nat)
    requires pos <= |s|
    ensures FirstMatch(rules, s, pos).Some? ==> i < |rules| && FirstMatch(rules, s, pos).value.0 == rules[i]
    ensures forall j :: 0 <= j < |rules| && (FirstMatch(rules, s, pos).None? || j < i) ==> LexMatch(rules[j].pattern, s, pos).None?
  {
    if rules == [] {
      i := 0;
    } else if LexMatch(rules[0].pattern, s, pos).Some? {
      i := 0;
    } else {
      var k := FirstMatchIsFirst(rules[1..], s, pos);
      i := k + 1;
      forall j | 0 < j < |rules|
        ensures rules[j] == rules[1..][j - 1]
      {
      }
    }
  }

  /** The state stack after a transition; a pop never removes the bottom state. */
  function Transit(stack: seq<LexState>, t: Transition): (r: seq<LexState>)
    requires stack != []
    ensures r != [] && r[0] == stack[0]
  {
    match t
    case Stay => stack
    case Push(st) => stack + [st]
    case Pop => if |stack| > 1 then stack[..|stack| - 1] else stack
  }

  /** The text of unrecognised root text, as lexemes: nothing if it is empty. */
  function TextPart(text: String): seq<Lexeme> {
    if text == [] then [] else [Lexeme(TextType, text)]
  }

  /** `n` close-file lexemes. */
  function CloseLexemes(n: nat): (r: seq<Lexeme>)
    ensures |r| == n && forall i :: 0 <= i < n ==> r[i] == Lexeme(CloseFileType, ")")
  {
    if n == 0 then [] else [Lexeme(CloseFileType, ")")] + CloseLexemes(n - 1)
  }

  /**
   * What `text_and_close_files` returns for `text`: the text as one token when
   * "(" and ")" are equally many; otherwise the text without its trailing
   * spaces and surplus ")", then one close-file per dropped ")", then the spaces.
   */
  function CloseFilesSplit(text: String): seq<Lexeme> {
    if Count(text, '(') == Count(text, ')') then TextPart(text)
    else
      var stripped := RStrip(text, {' '});
      TextPart(Peel(stripped).0) + CloseLexemes(Peel(stripped).1) + TextPart(text[|stripped|..])
  }

  /** `text_and_close_files`: the text, with surplus trailing ")" moved into close-file tokens. */
  method TextAndCloseFilesCallback(match0: String) returns (tokens: seq<Lexeme>)
    ensures tokens == CloseFilesSplit(match0)
  {
    tokens := [];
    var text := match0;
    if Count(text, '(') != Count(text, ')') {
      var stripped := RStrip(text, {' '});
      if stripped != text {
        tokens := tokens + [Lexeme(TextType, text[|stripped|..])];
        text := stripped;
      }
      SpacesPart(match0, stripped, tokens);
      var closes;
      text, closes := SplitTrailingCloses(text);
      tokens := closes + tokens;
    }
    CloseFilesSplitFront(match0, text, tokens);
    if text != [] {
      tokens := [Lexeme(TextType, text)] + tokens;
    }
  }

  /** The trailing spaces `rstrip` removed, as the token the callback appends first. */
  lemma SpacesPart(text: String, stripped: String, tokens: seq<Lexeme>)
    requires stripped == RStrip(text, {' '})
    requires tokens == if stripped != text then [Lexeme(TextType, text[|stripped|..])] else []
    ensures tokens == TextPart(text[|stripped|..])
  {
    if |stripped| == |text| {
      assert stripped == text[..|text|] == text;
    } else {
      assert stripped != text;
    }
  }

  /** The callback's tokens after the remaining text, whichever way the counts went. */
  lemma CloseFilesSplitFront(match0: String, text: String, tokens: seq<Lexeme>)
    requires Count(match0, '(') == Count(match0, ')') ==> text == match0 && tokens == []
    requires Count(match0, '(') != Count(match0, ')') ==>
      text == Peel(RStrip(match0, {' '})).0
      && tokens == CloseLexemes(Peel(RStrip(match0, {' '})).1) + TextPart(match0[|RStrip(match0, {' '})|..])
    ensures CloseFilesSplit(match0) == TextPart(text) + tokens
  {
  }

  /** The loop of `text_and_close_files` that drops trailing ")" while they are surplus. */
  method SplitTrailingCloses(stripped: String) returns (text: String, closes: seq<Lexeme>)
    ensures text == Peel(stripped).0 && closes == CloseLexemes(Peel(stripped).1)
  {
    text := stripped;
    closes := [];
    while EndsWith(text, ")") && Count(text, '(') < Count(text, ')')
      invariant Peel(text).0 == Peel(stripped).0 && Peel(text).1 + |closes| == Peel(stripped).1
      invariant closes == CloseLexemes(|closes|)
      decreases |text|
    {
      PeelUnfold(text);
      text := text[..|text| - 1];
      closes := [Lexeme(CloseFileType, ")")] + closes;
    }
    assert !PeelCond(text);
  }

  /** One step of the peeling loop. */
  lemma PeelUnfold(s: String)
    requires PeelCond(s)
    ensures Peel(s) == (Peel(s[..|s| - 1]).0, Peel(s[..|s| - 1]).1 + 1)
  {
  }

  /** What a matched rule yields for the text it matched. */
  function Emitted(action: Action, text: String): seq<Lexeme> {
    match action
    case Emit(t) => [Lexeme(t, text)]
    case TextAndCloseFiles => CloseFilesSplit(text)
    case NoAction => []
  }

  /** A stack the machine can reach: non-empty, with the root state at the bottom. */
  predicate ValidStack(stack: seq<LexState>) {
    stack != [] && stack[0] == Root
  }

  /**
   * The tokens the machine yields from `pos` on, with `stack` as its states: the
   * first rule of the top state that matches yields its tokens and moves the
   * stack; when none matches, the character there is yielded on its own.
   */
  function LexFrom(s: String, pos: nat, stack: seq<LexState>): seq<Lexeme>
    requires pos <= |s| && ValidStack(stack)
    decreases |s| - pos, |stack|
  {
    var state := stack[|stack| - 1];
    match FirstMatch(Rules(state), s, pos)
    case Some((rule, end)) =>
      OnlyDefaultIsEmpty(state, rule);
      Emitted(rule.action, s[pos..end]) + LexFrom(s, end, Transit(stack, rule.transition))
    case None =>
      if pos == |s| then [] else [Lexeme(FallbackError, [s[pos]])] + LexFrom(s, pos + 1, stack)
  }

  /** `lexer.get_tokens(section)`: a fresh machine in the root state. */
  function LexSection(section: String): seq<Lexeme> {
    LexFrom(section, 0, [Root])
  }

  /** `finditer`: the starts of the successive matches of `pat` from `from` on. */
  function MatchStarts(pat: LexPattern, s: String, from: nat): (r: seq<nat>)
    requires from <= |s| && pat != EmptyRe
    ensures forall i :: 0 <= i < |r| ==> from <= r[i] < |s| && LexMatch(pat, s, r[i]).Some?
    ensures forall i, j :: 0 <= i < j < |r| ==> r[i] < r[j]
    decreases |s| - from
  {
    if from == |s| then []
    else
      match LexMatch(pat, s, from)
      case Some(e) => [from] + MatchStarts(pat, s, e)
      case None => MatchStarts(pat, s, from + 1)
  }

  /** Cut positions that the generator can walk: ascending and within `value` from `last` on. */
  predicate CutsFrom(value: String, last: nat, starts: seq<nat>) {
    last <= |value| && (forall i :: 0 <= i < |starts| ==> last <= starts[i] <= |value|)
    && (forall i, j :: 0 <= i < j < |starts| ==> starts[i] < starts[j])
  }

  /**
   * The sections `split_on_re` yields from `last_index` on, given the remaining
   * match starts: every non-empty piece between one cut and the next.
   */
  function Sections(value: String, last: nat, starts: seq<nat>): seq<String>
    requires CutsFrom(value, last, starts)
    decreases |starts|
  {
    if starts == [] then
      if value[last..] != [] then [value[last..]] else []
    else
      var section := value[last..starts[0]];
      if section != [] then [section] + Sections(value, starts[0], starts[1..])
      else Sections(value, last, starts[1..])
  }

  /** `Splitter.split_on_re`, as the loop over the matches that it is. */
  method SplitOnRe(pat: LexPattern, value: String) returns (sections: seq<String>)
    requires pat != EmptyRe
    ensures sections == Sections(value, 0, MatchStarts(pat, value, 0))
  {
    var matches := MatchStarts(pat, value, 0);
    var lastIndex: nat := 0;
    sections := [];
    for i := 0 to |matches|
      invariant CutsFrom(value, lastIndex, matches[i..])
      invariant sections + Sections(value, lastIndex, matches[i..]) == Sections(value, 0, matches)
    {
      SectionsStep(value, lastIndex, matches[i..]);
      assert matches[i..][1..] == matches[i + 1..];
      var section := value[lastIndex..matches[i]];
      if section != [] {
        SectionsRegroup(sections, section, Sections(value, matches[i], matches[i + 1..]));
        sections := sections + [section];
        lastIndex := matches[i];
      }
    }
    assert matches[|matches|..] == [];
    var section := value[lastIndex..];
    if section != [] {
      sections := sections + [section];
    }
  }

  /** One cut of `split_on_re`: the piece up to the next match start, when not empty, and the sections after it. */
  lemma SectionsStep(value: String, last: nat, starts: seq<nat>)
    requires CutsFrom(value, last, starts) && starts != []
    ensures var section := value[last..starts[0]];
      var next := if section != [] then starts[0] else last;
      CutsFrom(value, next, starts[1..])
      && Sections(value, last, starts) == (if section != [] then [section] else []) + Sections(value, next, starts[1..])
  {
  }

  /** Concatenation regroups. */
  lemma SectionsRegroup(done: seq<String>, section: String, rest: seq<String>)
    ensures (done + [section]) + rest == done + ([section] + rest)
  {
  }

  /** What `split_on_re` yields for `pat`. */
  function SplitOn(pat: LexPattern, value: String): seq<String>
    requires pat != EmptyRe
  {
    Sections(value, 0, MatchStarts(pat, value, 0))
  }

  /** Each page section split again at file openings, in order. */
  function SplitEach(sections: seq<String>): seq<String> {
    if sections == [] then [] else SplitEach(sections[..|sections| - 1]) + SplitOn(OpenFileRe, sections[|sections| - 1])
  }

  /** `split`: sections at page starts, then at file openings within each. */
  function Split(line: String): seq<String> {
    SplitEach(SplitOn(StartPageRe, line))
  }

  /** The tokens of each section, in order. */
  function LexSections(sections: seq<String>): seq<Lexeme> {
    if sections == [] then [] else LexSections(sections[..|sections| - 1]) + LexSection(sections[|sections| - 1])
  }

  /** What pygments' own input handling would change: line breaks and a leading byte order mark. */
  predicate PlainLine(line: String) {
    (forall i :: 0 <= i < |line| ==> line[i] != '\n' && line[i] != '\r')
    && !StartsWith(line, "\U{FEFF}")
  }

  /** `lex`: the tokens of every section of the line. */
  function Lex(line: String): seq<Lexeme>
    requires PlainLine(line)
  {
    LexSections(Split(line))
  }
}
