/** What the rule-table lexer of src/quietex/lexer.py promises: round trips, the callback's split, the rules' priorities. */
module LexerProps {
  import opened PyStr
  import opened Scan
  import opened Lexer

  lemma TextPartValues(text: String)
    ensures Values(TextPart(text)) == text
  {
    if text != [] {
      ValuesSingle(Lexeme(TextType, text));
    }
  }

  lemma {:induction false} CloseLexemesValues(n: nat)
    ensures Values(CloseLexemes(n)) == Parens(n)
  {
    if n > 0 {
      CloseLexemesValues(n - 1);
      ValuesAppend([Lexeme(CloseFileType, ")")], CloseLexemes(n - 1));
      ValuesSingle(Lexeme(CloseFileType, ")"));
      assert ")" + Parens(n - 1) == Parens(n);
    }
  }

  /** The callback loses nothing: its values concatenate to the matched text. */
  lemma CloseFilesSplitValues(text: String)
    ensures Values(CloseFilesSplit(text)) == text
  {
    if Count(text, '(') == Count(text, ')') {
      TextPartValues(text);
    } else {
      var stripped := RStrip(text, {' '});
      var (rest, n) := Peel(stripped);
      var spaces := text[|stripped|..];
      calc {
        Values(CloseFilesSplit(text));
        Values(TextPart(rest) + CloseLexemes(n) + TextPart(spaces));
        { ValuesAppend(TextPart(rest) + CloseLexemes(n), TextPart(spaces));
          ValuesAppend(TextPart(rest), CloseLexemes(n)); }
        Values(TextPart(rest)) + Values(CloseLexemes(n)) + Values(TextPart(spaces));
        { TextPartValues(rest); CloseLexemesValues(n); TextPartValues(spaces); }
        rest + Parens(n) + spaces;
        { assert text == stripped + spaces; }
        text;
      }
    }
  }

  /** Balanced parentheses: the whole text as one `Text` token, or nothing for an empty text. */
  lemma CloseFilesSplitBalanced(text: String)
    requires Count(text, '(') == Count(text, ')')
    ensures text == [] ==> CloseFilesSplit(text) == []
    ensures text != [] ==> CloseFilesSplit(text) == [Lexeme(TextType, text)]
  {
  }

  /**
   * Unbalanced parentheses: the text before its trailing spaces loses its trailing
   * ")" one at a time while they are surplus, each becoming a close-file token
   * after the remaining text; the spaces come last.
   */
  lemma CloseFilesSplitUnbalanced(text: String) returns (rest: String, n: nat, spaces: String)
    requires Count(text, '(') != Count(text, ')')
    ensures text == rest + Parens(n) + spaces
    ensures forall i :: 0 <= i < |spaces| ==> spaces[i] == ' '
    ensures forall j :: |rest| < j <= |rest| + n ==> PeelCond(Prefix(text, j))
    ensures !PeelCond(rest)
    ensures CloseFilesSplit(text) == TextPart(rest) + CloseLexemes(n) + TextPart(spaces)
  {
    var stripped := RStrip(text, {' '});
    rest, n := Peel(stripped).0, Peel(stripped).1;
    spaces := text[|stripped|..];
    assert text == stripped + spaces;
    PeelWhileCond(stripped);
    forall j | |rest| < j <= |rest| + n
      ensures PeelCond(Prefix(text, j))
    {
      assert Prefix(text, j) == Prefix(stripped, j);
    }
  }

  /** A rule's tokens give back the text it matched; only `default` matches, and yields, nothing. */
  lemma EmittedValues(action: Action, text: String)
    requires action.NoAction? ==> text == []
    ensures Values(Emitted(action, text)) == text
  {
    match action
    case Emit(t) => ValuesSingle(Lexeme(t, text));
    case TextAndCloseFiles => CloseFilesSplitValues(text);
    case NoAction =>
  }

  /** The machine loses nothing: the values from `pos` on are the text from `pos` on. */
  lemma {:induction false} LexFromValues(s: String, pos: nat, stack: seq<LexState>)
    requires pos <= |s| && ValidStack(stack)
    ensures Values(LexFrom(s, pos, stack)) == s[pos..]
    decreases |s| - pos, |stack|
  {
    var m := FirstMatch(Rules(stack[|stack| - 1]), s, pos);
    if m.Some? {
      var (rule, end) := m.value;
      OnlyDefaultIsEmpty(stack[|stack| - 1], rule);
      var next := Transit(stack, rule.transition);
      var emitted := Emitted(rule.action, s[pos..end]);
      var rest := LexFrom(s, end, next);
      assert Values(emitted + rest) == s[pos..] by {
        LexFromValues(s, end, next);
        EmittedValues(rule.action, s[pos..end]);
        JoinValues(s, pos, end, emitted, rest);
      }
      LexFromMatched(s, pos, stack, rule, end);
    } else if pos < |s| {
      var single := [Lexeme(FallbackError, [s[pos]])];
      var rest := LexFrom(s, pos + 1, stack);
      assert Values(single + rest) == s[pos..] by {
        LexFromValues(s, pos + 1, stack);
        ValuesSingle(Lexeme(FallbackError, [s[pos]]));
        JoinValues(s, pos, pos + 1, single, rest);
      }
      LexFromUnmatched(s, pos, stack);
    }
  }

  /** When a rule matches, the machine yields that rule's tokens and goes on after its match. */
  lemma LexFromMatched(s: String, pos: nat, stack: seq<LexState>, rule: Rule, end: nat)
    requires pos <= end <= |s| && ValidStack(stack)
    requires FirstMatch(Rules(stack[|stack| - 1]), s, pos) == Some((rule, end))
    ensures LexFrom(s, pos, stack) == Emitted(rule.action, s[pos..end]) + LexFrom(s, end, Transit(stack, rule.transition))
  {
    OnlyDefaultIsEmpty(stack[|stack| - 1], rule);
  }

  /** When no rule matches, the machine yields the character on its own and goes on after it. */
  lemma LexFromUnmatched(s: String, pos: nat, stack: seq<LexState>)
    requires pos < |s| && ValidStack(stack)
    requires FirstMatch(Rules(stack[|stack| - 1]), s, pos).None?
    ensures LexFrom(s, pos, stack) == [Lexeme(FallbackError, [s[pos]])] + LexFrom(s, pos + 1, stack)
  {
  }

  /** Tokens for `s[pos..end]` followed by tokens for `s[end..]` are tokens for `s[pos..]`. */
  lemma JoinValues(s: String, pos: nat, end: nat, a: seq<Lexeme>, b: seq<Lexeme>)
    requires pos <= end <= |s| && Values(a) == s[pos..end] && Values(b) == s[end..]
    ensures Values(a + b) == s[pos..]
  {
    ValuesAppend(a, b);
    SliceSplit(s, pos, end);
  }

  /** Past the last character nothing more is yielded, whatever the states. */
  lemma {:induction false} LexAtEnd(s: String, stack: seq<LexState>)
    requires ValidStack(stack)
    ensures LexFrom(s, |s|, stack) == []
    decreases |stack|
  {
    var state := stack[|stack| - 1];
    if state == FileState {
      assert LexMatch(BareCloseRe, s, |s|).None?;
      LexAtEnd(s, stack[..|stack| - 1]);
    } else {
      assert FirstMatch(Rules(state), s, |s|).None? by {
        forall j | 0 <= j < |Rules(state)|
          ensures LexMatch(Rules(state)[j].pattern, s, |s|).None?
        {
          if Rules(state)[j].pattern == WarningRe && |s| > 0 {
            assert SpanEnd(s, |s|, NotNewline) == |s|;
          }
        }
      }
    }
  }

  /** A section that is "!" and at least one more character is one error token. */
  lemma ErrorSection(section: String)
    requires |section| >= 2 && section[0] == '!'
    requires forall i :: 0 <= i < |section| ==> section[i] != '\n'
    ensures LexSection(section) == [Lexeme(GenericError, section)]
  {
    assert SpanEnd(section, 1, NotNewline) == |section| by {
      SpanEndToLineEnd(section, 1);
    }
    assert FirstMatch(Rules(Root), section, 0) == Some((Rules(Root)[0], |section|));
    LexFromMatched(section, 0, [Root], Rules(Root)[0], |section|);
    LexAtEnd(section, [Root]);
    assert section[0..|section|] == section;
  }

  /** Without a newline, a greedy `.*` runs to the end. */
  lemma {:induction false} SpanEndToLineEnd(s: String, i: nat)
    requires i <= |s|
    requires forall m :: i <= m < |s| ==> s[m] != '\n'
    ensures SpanEnd(s, i, NotNewline) == |s|
    decreases |s| - i
  {
    if i < |s| {
      SpanEndToLineEnd(s, i + 1);
    }
  }

  /** Otherwise a section that looks like a warning, from its start, is one warning token. */
  lemma WarningSection(section: String)
    requires !StartsWith(section, "!")
    requires LooksLikeWarning(section)
    requires forall i :: 0 <= i < |section| ==> section[i] != '\n'
    ensures LexSection(section) == [Lexeme(GenericWarning, section)]
  {
    SpanEndToLineEnd(section, 0);
    assert section[0..|section|] == section;
    assert section != [];
    assert LexMatch(ErrorRe, section, 0).None?;
    assert FirstMatch(Rules(Root), section, 0) == Some((Rules(Root)[1], |section|));
    LexFromMatched(section, 0, [Root], Rules(Root)[1], |section|);
    LexAtEnd(section, [Root]);
  }

  /** Rules whose patterns do not match are passed over. */
  lemma {:induction false} FirstMatchSkip(rules: seq<Rule>, s: String, pos: nat, n: nat)
    requires pos <= |s| && n <= |rules|
    requires forall j :: 0 <= j < n ==> LexMatch(rules[j].pattern, s, pos).None?
    ensures FirstMatch(rules, s, pos) == FirstMatch(rules[n..], s, pos)
  {
    if n > 0 {
      assert LexMatch(rules[0].pattern, s, pos).None?;
      FirstMatchSkip(rules[1..], s, pos, n - 1);
      assert rules[1..][n - 1..] == rules[n..];
    }
  }

  /** The page state closes on "]", popping back to the state below. */
  lemma EndPageCloses(s: String, pos: nat, stack: seq<LexState>)
    requires pos < |s| && s[pos] == ']'
    requires ValidStack(stack) && stack[|stack| - 1] == PageState
    ensures LexFrom(s, pos, stack) == [Lexeme(EndPageType, "]")] + LexFrom(s, pos + 1, stack[..|stack| - 1])
  {
    var rule := Rule(EndPageRe, Emit(EndPageType), Pop);
    PageStateEnds(s, pos);
    LexFromMatched(s, pos, stack, rule, pos + 1);
    assert |stack| > 1 by {
      assert stack[0] != stack[|stack| - 1];
    }
    assert Transit(stack, Pop) == stack[..|stack| - 1];
    EmitOne(EndPageType, s, pos);
  }

  /** Helper for `EndPageCloses`: a rule that emits yields the one character it matched as one token. */
  lemma EmitOne(t: TokenType, s: String, pos: nat)
    requires pos < |s|
    ensures Emitted(Emit(t), s[pos..pos + 1]) == [Lexeme(t, [s[pos]])]
  {
    assert s[pos..pos + 1] == [s[pos]];
  }

  /** Helper for `EndPageCloses`: on "]" the first page-state rule that matches is the closing one. */
  lemma PageStateEnds(s: String, pos: nat)
    requires pos < |s| && s[pos] == ']'
    ensures FirstMatch(Rules(PageState), s, pos) == Some((Rule(EndPageRe, Emit(EndPageType), Pop), pos + 1))
  {
    var rules := Rules(PageState);
    assert rules[2] == Rule(EndPageRe, Emit(EndPageType), Pop);
    FirstMatchSkip(rules, s, pos, 2);
  }

  /** The file state turns a ")" into a close-file token and stays. */
  lemma FileStateCloses(s: String, pos: nat, stack: seq<LexState>)
    requires pos < |s| && s[pos] == ')'
    requires ValidStack(stack) && stack[|stack| - 1] == FileState
    ensures LexFrom(s, pos, stack) == [Lexeme(CloseFileType, ")")] + LexFrom(s, pos + 1, stack)
  {
    assert FirstMatch(Rules(FileState), s, pos) == Some((Rules(FileState)[0], pos + 1));
    LexFromMatched(s, pos, stack, Rules(FileState)[0], pos + 1);
    assert s[pos..pos + 1] == ")";
  }

  /** On anything else the file state pops without consuming a character. */
  lemma FileStatePops(s: String, pos: nat, stack: seq<LexState>, below: seq<LexState>)
    requires pos <= |s| && !At(s, pos, ')')
    requires ValidStack(stack) && stack == below + [FileState]
    ensures ValidStack(below) && LexFrom(s, pos, stack) == LexFrom(s, pos, below)
  {
    var rules := Rules(FileState);
    FirstMatchSkip(rules, s, pos, 1);
    assert FirstMatch(rules, s, pos) == Some((rules[1], pos));
    LexFromMatched(s, pos, stack, rules[1], pos);
    assert stack[..|stack| - 1] == below;
  }

  /** A page start in the root state, where no error or warning starts, is one start-page token and enters the page state. */
  lemma StartPageEnters(s: String, pos: nat, stack: seq<LexState>, end: nat)
    requires pos <= |s| && ValidStack(stack) && stack[|stack| - 1] == Root
    requires LexMatch(ErrorRe, s, pos).None? && LexMatch(WarningRe, s, pos).None?
    requires LexMatch(StartPageRe, s, pos) == Some(end)
    ensures LexFrom(s, pos, stack) == [Lexeme(StartPageType, s[pos..end])] + LexFrom(s, end, stack + [PageState])
  {
    var rules := Rules(Root);
    FirstMatchSkip(rules, s, pos, 2);
    assert FirstMatch(rules, s, pos) == Some((rules[2], end));
    LexFromMatched(s, pos, stack, rules[2], end);
  }

  /** Root text that no earlier rule takes runs to the end of the line and goes to the callback. */
  lemma RootFallsToText(s: String, pos: nat, stack: seq<LexState>)
    requires pos < |s| && ValidStack(stack) && stack[|stack| - 1] == Root
    requires forall m :: pos <= m < |s| ==> s[m] != '\n'
    requires forall j :: 0 <= j < 7 ==> LexMatch(Rules(Root)[j].pattern, s, pos).None?
    ensures LexFrom(s, pos, stack) == CloseFilesSplit(s[pos..]) + LexFrom(s, |s|, stack)
  {
    var rules := Rules(Root);
    var rule := Rule(AnyRe, TextAndCloseFiles, Stay);
    assert rules[7] == rule;
    SpanEndToLineEnd(s, pos);
    FirstMatchSkip(rules, s, pos, 7);
    assert FirstMatch(rules, s, pos) == Some((rule, |s|));
    LexFromMatched(s, pos, stack, rule, |s|);
    assert s[pos..|s|] == s[pos..];
    assert Emitted(rule.action, s[pos..]) == CloseFilesSplit(s[pos..]);
    assert Transit(stack, Stay) == stack;
  }

  /** A start-page value: "[", at least one digit, and at most one whitespace character. */
  predicate IsPageValue(v: String) {
    |v| >= 2 && v[0] == '[' && IsDigit(v[1])
    && forall i :: 1 <= i < |v| ==> IsDigit(v[i]) || (i == |v| - 1 && IsSpace(v[i]))
  }

  /** An open-file value: "(" and a path. */
  predicate IsOpenFileValue(v: String) {
    |v| >= 1 && v[0] == '(' && IsDotSlashPath(v[1..])
  }

  /** The values `AppState.update` reads have the shape their patterns give them. */
  predicate WellFormed(l: Lexeme) {
    (l.ttype == StartPageType ==> IsPageValue(l.value))
    && (l.ttype == OpenFileType ==> IsOpenFileValue(l.value))
  }

  predicate AllWellFormed(ls: seq<Lexeme>) {
    forall i :: 0 <= i < |ls| ==> WellFormed(ls[i])
  }

  lemma AllWellFormedAppend(a: seq<Lexeme>, b: seq<Lexeme>)
    requires AllWellFormed(a) && AllWellFormed(b)
    ensures AllWellFormed(a + b)
  {
    forall i | 0 <= i < |a + b|
      ensures WellFormed((a + b)[i])
    {
      if i < |a| {
        assert (a + b)[i] == a[i];
      } else {
        assert (a + b)[i] == b[i - |a|];
      }
    }
  }

  /** A start-page match is a page value. */
  lemma StartPageShape(s: String, pos: nat)
    requires pos <= |s| && LexMatch(StartPageRe, s, pos).Some?
    ensures IsPageValue(s[pos..LexMatch(StartPageRe, s, pos).value])
  {
    var e := SpanEnd(s, pos + 1, Digits);
    assert AllIn(s, pos + 1, e, Digits);
  }

  /** An open-file match is "(" and a path. */
  lemma OpenFileShape(s: String, pos: nat)
    requires pos <= |s| && LexMatch(OpenFileRe, s, pos).Some?
    ensures IsOpenFileValue(s[pos..LexMatch(OpenFileRe, s, pos).value])
  {
    var e := LexMatch(OpenFileRe, s, pos).value;
    assert s[pos..e][1..] == s[pos + 1..e];
  }

  /** The callback yields only text and ")" tokens. */
  lemma CloseFilesSplitKinds(text: String)
    ensures forall i :: 0 <= i < |CloseFilesSplit(text)| ==>
      CloseFilesSplit(text)[i].ttype == TextType || CloseFilesSplit(text)[i] == Lexeme(CloseFileType, ")")
  {
  }

  /** What a matched rule yields is well formed. */
  lemma EmittedWellFormed(state: LexState, s: String, pos: nat, rule: Rule, end: nat)
    requires pos <= |s| && rule in Rules(state) && LexMatch(rule.pattern, s, pos) == Some(end)
    ensures AllWellFormed(Emitted(rule.action, s[pos..end]))
  {
    ActionPattern(state, rule);
    EmittedTypesDistinct();
    var text := s[pos..end];
    if rule.pattern == AnyRe {
      CloseFilesSplitKinds(text);
    } else if rule.action.Emit? {
      var l := Lexeme(rule.action.ttype, text);
      if rule.pattern == StartPageRe {
        StartPageShape(s, pos);
      } else if rule.pattern == OpenFileRe {
        OpenFileShape(s, pos);
      }
      assert WellFormed(l);
      SingleWellFormed(l);
    }
  }

  lemma SingleWellFormed(l: Lexeme)
    requires WellFormed(l)
    ensures AllWellFormed([l])
  {
  }

  /** Every page and open-file value the machine yields is well formed. */
  lemma {:induction false} LexFromWellFormed(s: String, pos: nat, stack: seq<LexState>)
    requires pos <= |s| && ValidStack(stack)
    ensures AllWellFormed(LexFrom(s, pos, stack))
    decreases |s| - pos, |stack|
  {
    var state := stack[|stack| - 1];
    match FirstMatch(Rules(state), s, pos)
    case Some((rule, end)) =>
      OnlyDefaultIsEmpty(state, rule);
      var next := Transit(stack, rule.transition);
      LexFromWellFormed(s, end, next);
      EmittedWellFormed(state, s, pos, rule, end);
      AllWellFormedAppend(Emitted(rule.action, s[pos..end]), LexFrom(s, end, next));
    case None =>
      if pos < |s| {
        LexFromWellFormed(s, pos + 1, stack);
        AllWellFormedAppend([Lexeme(FallbackError, [s[pos]])], LexFrom(s, pos + 1, stack));
      }
  }

  lemma ConcatCons(a: String, rest: seq<String>)
    ensures Concat([a] + rest) == a + Concat(rest)
  {
    ConcatAppend([a], rest);
    assert [a][..0] == [];
  }

  /** The sections give back the text they cut: nothing lost, nothing repeated. */
  lemma {:induction false} SectionsConcat(value: String, last: nat, starts: seq<nat>)
    requires CutsFrom(value, last, starts)
    ensures Concat(Sections(value, last, starts)) == value[last..]
    decreases |starts|
  {
    if starts == [] {
      if value[last..] != [] {
        ConcatCons(value[last..], []);
      }
    } else {
      var section := value[last..starts[0]];
      if section != [] {
        SectionsConcat(value, starts[0], starts[1..]);
        ConcatCons(section, Sections(value, starts[0], starts[1..]));
        assert value[last..] == section + value[starts[0]..];
      } else {
        SectionsConcat(value, last, starts[1..]);
      }
    }
  }

  /** No section is empty. */
  lemma {:induction false} SectionsNonEmpty(value: String, last: nat, starts: seq<nat>)
    requires CutsFrom(value, last, starts)
    ensures forall i :: 0 <= i < |Sections(value, last, starts)| ==> Sections(value, last, starts)[i] != []
    decreases |starts|
  {
    if starts != [] {
      SectionsNonEmpty(value, starts[0], starts[1..]);
      SectionsNonEmpty(value, last, starts[1..]);
    }
  }

  /** Where section `i` begins in `value`. */
  function Offset(last: nat, sections: seq<String>, i: nat): nat
    requires i <= |sections|
  {
    last + |Concat(sections[..i])|
  }

  /** Every section after the first begins at one of the cut positions. */
  lemma {:induction false} SectionsStartAtCuts(value: String, last: nat, starts: seq<nat>)
    requires CutsFrom(value, last, starts)
    ensures forall i :: 0 < i < |Sections(value, last, starts)| ==> Offset(last, Sections(value, last, starts), i) in starts
    decreases |starts|
  {
    if starts != [] {
      var section := value[last..starts[0]];
      if section != [] {
        var rest := Sections(value, starts[0], starts[1..]);
        SectionsStartAtCuts(value, starts[0], starts[1..]);
        forall i | 0 < i < |[section] + rest|
          ensures Offset(last, [section] + rest, i) in starts
        {
          assert ([section] + rest)[..i] == [section] + rest[..i - 1];
          ConcatCons(section, rest[..i - 1]);
          assert Offset(last, [section] + rest, i) == Offset(starts[0], rest, i - 1);
        }
      } else {
        SectionsStartAtCuts(value, last, starts[1..]);
      }
    }
  }

  /**
   * `split_on_re` cuts `value` into non-empty sections that concatenate back to it,
   * each after the first beginning at one of the starts `finditer` reports.
   */
  lemma SplitOnSections(pat: LexPattern, value: String)
    requires pat != EmptyRe
    ensures Concat(SplitOn(pat, value)) == value
    ensures forall i :: 0 <= i < |SplitOn(pat, value)| ==> SplitOn(pat, value)[i] != []
    ensures forall i :: 0 < i < |SplitOn(pat, value)| ==> Offset(0, SplitOn(pat, value), i) in MatchStarts(pat, value, 0)
  {
    var starts := MatchStarts(pat, value, 0);
    SectionsConcat(value, 0, starts);
    SectionsNonEmpty(value, 0, starts);
    SectionsStartAtCuts(value, 0, starts);
  }

  lemma {:induction false} SplitEachConcat(sections: seq<String>)
    ensures Concat(SplitEach(sections)) == Concat(sections)
    ensures forall i :: 0 <= i < |SplitEach(sections)| ==> SplitEach(sections)[i] != []
  {
    if sections != [] {
      var init := sections[..|sections| - 1];
      var last := sections[|sections| - 1];
      SplitEachConcat(init);
      SplitOnSections(OpenFileRe, last);
      ConcatAppend(SplitEach(init), SplitOn(OpenFileRe, last));
      ConcatAppend(init, [last]);
      ConcatCons(last, []);
      assert sections == init + [last];
    }
  }

  /** `split` loses nothing and yields no empty section. */
  lemma SplitConcat(line: String)
    ensures Concat(Split(line)) == line
    ensures forall i :: 0 <= i < |Split(line)| ==> Split(line)[i] != []
  {
    SplitOnSections(StartPageRe, line);
    SplitEachConcat(SplitOn(StartPageRe, line));
  }

  /** `\[\d+\s?` matches at `k` exactly when `[` and a digit stand there, and the match covers both. */
  lemma StartPageAt(s: String, k: nat)
    requires k <= |s|
    ensures LexMatch(StartPageRe, s, k).Some? <==> k + 2 <= |s| && s[k] == '[' && IsDigit(s[k + 1])
    ensures LexMatch(StartPageRe, s, k).Some? ==> k + 2 <= LexMatch(StartPageRe, s, k).value
  {
    if k + 2 <= |s| && s[k] == '[' && IsDigit(s[k + 1]) {
      assert SpanEnd(s, k + 1, Digits) == SpanEnd(s, k + 2, Digits);
    }
  }

  /** The characters `\(\.?/[^\s(){}]+` needs at `k`: `(`, the slash (after the dot, when there is one) and one path character. */
  predicate OpenFileHead(s: String, k: nat) {
    k + 3 <= |s| && s[k] == '('
    && if s[k + 1] == '.' then k + 4 <= |s| && s[k + 2] == '/' && IsPathChar(s[k + 3])
       else s[k + 1] == '/' && IsPathChar(s[k + 2])
  }

  /** `\(\.?/[^\s(){}]+` matches at `k` exactly when its head stands there, and the match covers the head. */
  lemma OpenFileAt(s: String, k: nat)
    requires k <= |s|
    ensures LexMatch(OpenFileRe, s, k).Some? <==> OpenFileHead(s, k)
    ensures LexMatch(OpenFileRe, s, k).Some? ==> k + (if s[k + 1] == '.' then 4 else 3) <= LexMatch(OpenFileRe, s, k).value
  {
    if OpenFileHead(s, k) {
      if s[k + 1] == '.' {
        assert SpanEnd(s, k + 3, PathChars) == SpanEnd(s, k + 4, PathChars);
      } else {
        assert SpanEnd(s, k + 2, PathChars) == SpanEnd(s, k + 3, PathChars);
      }
    }
  }

  /** A start-page or file-open match at `k` is still one at the start of any piece from `k` that covers it. */
  lemma MatchInPiece(pat: LexPattern, value: String, k: nat, j: nat)
    requires pat == StartPageRe || pat == OpenFileRe
    requires k <= j <= |value| && LexMatch(pat, value, k).Some? && LexMatch(pat, value, k).value <= j
    ensures LexMatch(pat, value[k..j], 0).Some?
  {
    var t := value[k..j];
    if pat == StartPageRe {
      StartPageAt(value, k);
      StartPageAt(t, 0);
      assert t[0] == value[k] && t[1] == value[k + 1];
    } else {
      OpenFileAt(value, k);
      OpenFileAt(t, 0);
      assert t[0] == value[k] && t[1] == value[k + 1] && t[2] == value[k + 2];
      if value[k + 1] == '.' {
        assert t[3] == value[k + 3];
      }
    }
  }

  /** Each of `sections` begins with a match of `pat`, leaving out the first unless `first`. */
  predicate Led(pat: LexPattern, sections: seq<String>, first: bool) {
    forall i :: 0 <= i < |sections| && (first || i > 0) ==> LexMatch(pat, sections[i], 0).Some?
  }

  /** Helper for `SectionsBeginAtEnd` and `SectionsBeginAtMatch`: a section put in front keeps the others' property. */
  lemma LedCons(pat: LexPattern, section: String, rest: seq<String>, first: bool)
    requires (first ==> LexMatch(pat, section, 0).Some?) && Led(pat, rest, true)
    ensures Led(pat, [section] + rest, first)
  {
    forall i | 0 < i < |[section] + rest|
      ensures LexMatch(pat, ([section] + rest)[i], 0).Some?
    {
      assert ([section] + rest)[i] == rest[i - 1];
    }
  }

  /**
   * The sections cut at the matches from `from` on each begin with a match,
   * all but the first one, and that one too when it starts at a match (`first`).
   */
  lemma {:induction false} SectionsBeginWithMatches(pat: LexPattern, value: String, last: nat, from: nat, first: bool)
    requires pat == StartPageRe || pat == OpenFileRe
    requires last <= from <= |value|
    requires first ==> LexMatch(pat, value, last).Some? && LexMatch(pat, value, last).value <= from
    ensures CutsFrom(value, last, MatchStarts(pat, value, from))
    ensures Led(pat, Sections(value, last, MatchStarts(pat, value, from)), first)
    decreases |value| - from
  {
    if from == |value| {
      SectionsBeginAtEnd(pat, value, last, first);
    } else if LexMatch(pat, value, from).Some? {
      var e := LexMatch(pat, value, from).value;
      SectionsBeginWithMatches(pat, value, from, e, true);
      SectionsBeginAtMatch(pat, value, last, from, e, first);
    } else {
      SectionsBeginWithMatches(pat, value, last, from + 1, first);
      assert MatchStarts(pat, value, from) == MatchStarts(pat, value, from + 1);
    }
  }

  /** With no match left, the one section left is the rest of `value`. */
  lemma SectionsBeginAtEnd(pat: LexPattern, value: String, last: nat, first: bool)
    requires pat == StartPageRe || pat == OpenFileRe
    requires last <= |value|
    requires first ==> LexMatch(pat, value, last).Some?
    ensures CutsFrom(value, last, MatchStarts(pat, value, |value|))
    ensures Led(pat, Sections(value, last, MatchStarts(pat, value, |value|)), first)
  {
    assert MatchStarts(pat, value, |value|) == [];
    if first {
      MatchInPiece(pat, value, last, |value|);
      LedCons(pat, value[last..], [], true);
      assert Sections(value, last, []) == [value[last..]] + [];
    }
  }

  /** A match at `from` ends the section before it, when that is not empty, and starts the next. */
  lemma SectionsBeginAtMatch(pat: LexPattern, value: String, last: nat, from: nat, e: nat, first: bool)
    requires pat == StartPageRe || pat == OpenFileRe
    requires last <= from < |value| && LexMatch(pat, value, from) == Some(e)
    requires first ==> LexMatch(pat, value, last).Some? && LexMatch(pat, value, last).value <= from
    requires CutsFrom(value, from, MatchStarts(pat, value, e))
    requires Led(pat, Sections(value, from, MatchStarts(pat, value, e)), true)
    ensures CutsFrom(value, last, MatchStarts(pat, value, from))
    ensures Led(pat, Sections(value, last, MatchStarts(pat, value, from)), first)
  {
    var starts := MatchStarts(pat, value, from);
    assert starts == [from] + MatchStarts(pat, value, e);
    assert starts[1..] == MatchStarts(pat, value, e);
    var rest := Sections(value, from, MatchStarts(pat, value, e));
    var section := value[last..from];
    if section != [] {
      if first {
        MatchInPiece(pat, value, last, from);
      }
      LedCons(pat, section, rest, first);
      assert Sections(value, last, starts) == [section] + rest;
    } else {
      assert Sections(value, last, starts) == rest;
    }
  }

  /** Every section of `split_on_re` after the first begins with a match of the pattern. */
  lemma SplitOnBegins(pat: LexPattern, value: String)
    requires pat == StartPageRe || pat == OpenFileRe
    ensures forall i :: 0 < i < |SplitOn(pat, value)| ==> LexMatch(pat, SplitOn(pat, value)[i], 0).Some?
  {
    SectionsBeginWithMatches(pat, value, 0, 0, false);
    assert SplitOn(pat, value) == Sections(value, 0, MatchStarts(pat, value, 0));
  }

  /** A page section cut at file openings keeps its page start at the head of its first piece. */
  lemma FirstPieceAfterPage(t: String)
    requires LexMatch(StartPageRe, t, 0).Some?
    ensures SplitOn(OpenFileRe, t) != [] ==> LexMatch(StartPageRe, SplitOn(OpenFileRe, t)[0], 0).Some?
  {
    StartPageAt(t, 0);
    OpenFileAt(t, 0);
    OpenFileAt(t, 1);
    var starts := MatchStarts(OpenFileRe, t, 2);
    assert MatchStarts(OpenFileRe, t, 0) == starts;
    if starts != [] {
      var piece := t[..starts[0]];
      assert SplitOn(OpenFileRe, t)[0] == piece;
      StartPageAt(piece, 0);
      assert piece[0] == t[0] && piece[1] == t[1];
    }
  }

  /** A piece of `split`: it begins with a page start or a file opening. */
  predicate BeginsAtCut(piece: String) {
    LexMatch(StartPageRe, piece, 0).Some? || LexMatch(OpenFileRe, piece, 0).Some?
  }

  lemma {:induction false} SplitEachBegins(sections: seq<String>)
    requires forall j :: 0 < j < |sections| ==> LexMatch(StartPageRe, sections[j], 0).Some?
    ensures forall i :: 0 < i < |SplitEach(sections)| ==> BeginsAtCut(SplitEach(sections)[i])
  {
    if sections != [] {
      var init := sections[..|sections| - 1];
      var last := sections[|sections| - 1];
      assert forall j :: 0 < j < |init| ==> init[j] == sections[j];
      SplitEachBegins(init);
      SplitOnBegins(OpenFileRe, last);
      var done := SplitEach(init);
      var pieces := SplitOn(OpenFileRe, last);
      forall i | 0 < i < |done + pieces|
        ensures BeginsAtCut((done + pieces)[i])
      {
        if i < |done| {
          assert (done + pieces)[i] == done[i];
        } else if i == |done| {
          assert init != [];
          FirstPieceAfterPage(last);
          assert (done + pieces)[i] == pieces[0];
        } else {
          assert (done + pieces)[i] == pieces[i - |done|];
        }
      }
    }
  }

  /** Every section `split` yields after the first begins with a page start or a file opening. */
  lemma SplitPiecesBeginAtCuts(line: String)
    ensures forall i :: 0 < i < |Split(line)| ==> BeginsAtCut(Split(line)[i])
  {
    SplitOnBegins(StartPageRe, line);
    SplitEachBegins(SplitOn(StartPageRe, line));
  }

  lemma {:induction false} LexSectionsValues(sections: seq<String>)
    ensures Values(LexSections(sections)) == Concat(sections)
  {
    if sections != [] {
      var init := sections[..|sections| - 1];
      var last := sections[|sections| - 1];
      LexSectionsValues(init);
      LexFromValues(last, 0, [Root]);
      ValuesAppend(LexSections(init), LexSection(last));
    }
  }

  /** `lex` round-trips: the token values concatenate to the line. */
  lemma LexRoundTrip(line: String)
    requires PlainLine(line)
    ensures Values(Lex(line)) == line
  {
    LexSectionsValues(Split(line));
    SplitConcat(line);
  }

  lemma {:induction false} LexSectionsWellFormed(sections: seq<String>)
    ensures AllWellFormed(LexSections(sections))
  {
    if sections != [] {
      LexSectionsWellFormed(sections[..|sections| - 1]);
      LexFromWellFormed(sections[|sections| - 1], 0, [Root]);
      AllWellFormedAppend(LexSections(sections[..|sections| - 1]), LexSection(sections[|sections| - 1]));
    }
  }

  /** Every start-page value `lex` yields is "[", digits and at most one space; every open-file value is "(" and a path. */
  lemma LexWellFormed(line: String)
    requires PlainLine(line)
    ensures AllWellFormed(Lex(line))
  {
    LexSectionsWellFormed(Split(line));
  }
}
