# QuieTeX, modelled in Dafny

QuieTeX filters the console output of a LaTeX compiler.
- It tells errors, warnings and file messages apart and colours them.
- It tracks which file is being read and which page is being typeset, and keeps a status bar with the two at the bottom of the terminal.
- It checks and splits its own command line.

The repository holds several generations of the tool. This project models each of them separately, in Dafny 4.11. The project verifies as a whole:
`dafny verify *.dfy`.

| generation | source | Dafny modules |
|---|---|---|
| whole-line classifier | filter.py, quietex.py, quietex/__init__.py, quietex/input_output.py | Colorama, Classic, FilterScript, QuietexScript, QuietexPackage, InputOutput, InputOutputProps |
| hand-written token parser | quietex/tokens.py, quietex/parsing.py, quietex/formatting.py | Tokens, Parsing, ParsingProps, Styles, Formatting, FormattingProps |
| rule-table lexer | src/quietex/lexer.py, quietex/status.py, quietex/formatter.py, src/quietex/formatter.py, quietex/frontend.py | Lexer, LexerProps, Status, StatusProps, Formatter, SrcFormatter, Frontend |
| command line | src/quietex/cli.py | Cli |

Each generation is modelled in its own form:
- **Python string builtins.** `PyStr` and `Scan` define the builtins the code relies on, all on `seq<char>`: `lower`, `strip`, `rstrip`, `count`, `splitlines`, `str(n)` and `int()`. They also define greedy character-class runs and the hand-coded regular expressions.
- **Pure code.** Python functions that only compute a value become Dafny functions. Examples are the classifiers, the searches and the token records.
- **Loops.** Python loops become methods with loop invariants: `_parse_partial`, `parse_text`, `split_on_re`, `text_and_close_files`, `contains_error`, `format_unencoded`, `_format_tokens` and `run_command`'s per-line loop. Each method is proved equal to a specification function, and the properties are proved about that function.
- **Objects that update their fields.** These become classes whose methods state their whole new state: `AppState`, `LatexLogFormatter`, `BasicIo`/`TerminalIo` and `BasicFrontend`/`TerminalFrontend`. Output to the terminal is a `written` log of strings, or of styled pieces, that the methods append to.
- **Styles.** blessings styles are abstract tags (`Styles.Tag`). colorama codes are their ANSI strings (`Colorama`).

## Model

| member | source | states |
|---|---|---|
| Tokens.Token.Text | quietex/tokens.py:11-33 | a close-file token's text is ")", a newline token's is "\n"; every other record keeps the text it was built with |
| Tokens.Token.Value | quietex/tokens.py:11-12 | only open-file and page tokens carry a value; every other kind has the default None |
| Tokens.EqualityIsKindTextValue | quietex/tokens.py:7-12 | two tokens are equal iff they have the same class, text and value |
| Parsing.SpaceThen | quietex/parsing.py:14-18 | the optional leading space of the patterns: the match continues one or two characters on, the second case only after a space |
| Parsing.MatchAt | quietex/parsing.py:14-18 | a `match` of the four patterns starts where it is tried and covers at least one character |
| Parsing.MatchShape | quietex/parsing.py:14-18 | a page match is optional space, "[", digits, optional "]" with the digits as group; a file match is optional space, "(" and a path with the path as group; an aux read is bracketed by "{...}", an image read by "<...>" |
| Parsing.Search | quietex/parsing.py:42-45 | `search` returns the leftmost match at or after the position, and None exactly when no position matches |
| Parsing.SearchToken | quietex/parsing.py:34-51 | `_search_for_token` is None iff neither pattern occurs; otherwise it is one of the two first matches and starts no later than either |
| Parsing.ErrorOrWarning | quietex/parsing.py:28-32 | a token is returned iff the text starts with "!" or is a warning; "!" gives an error with exactly that text, otherwise a warning |
| Parsing.PeelCloses | quietex/parsing.py:107-115 | the peeling loop leaves `Peel(msg)`'s text and yields as many close-file tokens as it dropped ")" |
| Parsing.ParsePartial | quietex/parsing.py:53-134 | the `while True` loop returns exactly the tokens and rest of the specification function `Partial` |
| Parsing.ParseTurn | quietex/parsing.py:60-133 | one pass of the loop either leaves it with `Partial`'s result or continues on shorter text with the tokens taken so far prepended |
| Parsing.PartialTakes | quietex/parsing.py:65-97 | open file, close file, aux read, image read and page, tried in that order, each take one token of its match's length off the front |
| Parsing.PartialSkips | quietex/parsing.py:99-118 | unrecognised text before the next file opening or page becomes an `OtherToken` followed by the ")" peeled off it, and parsing resumes at the match |
| Parsing.PartialStops | quietex/parsing.py:120-133 | text with no token left that does not end in ")" is given back as it is, with no tokens |
| Parsing.PartialGivesUp | quietex/parsing.py:120-130 | text with no token left that ends in ")" becomes an `OtherToken` and the surplus close-file tokens, leaving nothing |
| Parsing.ErrorPrefix | quietex/parsing.py:150-153 | the text tried as an error or warning is the prefix before the first page match (the match's optional space excluded), or the whole line |
| Parsing.ParseLine | quietex/parsing.py:136-168 | `parse_line` returns the specification `LineTokens(line)` |
| Parsing.ParseText | quietex/parsing.py:170-176 | `parse_text` returns the tokens of each of `splitlines`' lines, each followed by a newline token |
| ParsingProps.TakeRoundTrip | quietex/parsing.py:65-97 | taking a token that covers the first n characters keeps the concatenated texts equal to the input |
| ParsingProps.PeeledRoundTrip | quietex/parsing.py:107-115 | the `OtherToken` and the close-file tokens peeled off it give back the text they were cut from |
| ParsingProps.TakeStep | quietex/parsing.py:65-97 | a turn that takes one token keeps the round trip of the rest |
| ParsingProps.SkipStep | quietex/parsing.py:99-118 | a turn that skips unrecognised text keeps the round trip of the rest |
| ParsingProps.GiveUpStep | quietex/parsing.py:120-130 | the last turn on text ending in ")" loses no character |
| ParsingProps.PartialRoundTrip | quietex/parsing.py:53-134 | the texts of `_parse_partial`'s tokens followed by the text it gives up on are its input |
| ParsingProps.LineRoundTrip | quietex/parsing.py:136-168 | for every line, the concatenated texts of `parse_line`'s tokens are the line |
| ParsingProps.LineAndNewlineRoundTrip | quietex/parsing.py:174-175 | one line's tokens and its newline token give back the line and "\n" |
| ParsingProps.TextRoundTrip | quietex/parsing.py:170-176 | `parse_text` round-trips text made of "\n"-terminated lines |
| ParsingProps.PeeledOther | quietex/parsing.py:99-130 | the `OtherToken` cut before a match or at the end is never empty when the text does not start with ")" |
| ParsingProps.PartialTokensShape | quietex/parsing.py:53-134 | every token `_parse_partial` takes has its pattern's shape: open-file and page values are the group (path, digits), reads are bracketed, other text is non-empty |
| ParsingProps.RestTokensShape | quietex/parsing.py:160-166 | everything after the error or warning token, including the final `OtherToken`, has those shapes |
| ParsingProps.PartialTokensNotError | quietex/parsing.py:53-134 | `_parse_partial` never yields an error or warning token |
| ParsingProps.ErrorOrWarningFirst | quietex/parsing.py:146-162 | when the prefix before the first page match starts with "!", the first token is an error with exactly that text; otherwise, when the prefix is a warning, a warning; either way the rest of the line is parsed after it |
| ParsingProps.ErrorOrWarningOnlyFirst | quietex/parsing.py:146-166 | only the first token can be an error or a warning, and only when that prefix is one |
| ParsingProps.PlainLineIsOneOther | quietex/parsing.py:160-167 | a non-empty line without any token, error, warning or surplus ")" is exactly one `OtherToken` of the whole line |
| Scan.DotSlashPathEnd | quietex/parsing.py:16 | `\.?/[^\s(){}]+`: the dot is taken when present, then "/" and a non-empty maximal run of path characters |
| Scan.ImageTailEnd | quietex/parsing.py:18 | `(?: \(.*\))?>` after the path run: the group's `.*` runs to the last ")>", otherwise the run backs off to a ">" |
| Scan.Peel | quietex/parsing.py:108-112 | peeling keeps a prefix of the text and drops only ")" characters |
| Scan.PeelWhileCond | quietex/parsing.py:108-112 | every ")" dropped was dropped while the text ended in ")" and ")" outnumbered "(" |
| Scan.PeelKeepsHead | quietex/parsing.py:108-114 | a non-empty text that does not start with ")" stays non-empty |
| Formatting.ApplyVisible | quietex/formatting.py:11-14 | a hidden entry shows nothing; every other entry shows the token's text |
| Formatting.LatexLogFormatter.constructor | quietex/formatting.py:20-43 | the stack is empty, the page None, and the table the quiet or verbose one |
| Formatting.LatexLogFormatter.FormatTokens | quietex/formatting.py:52-57 | `_format_tokens` returns the styled text of each token in order and changes nothing |
| Formatting.LatexLogFormatter.ProcessTokens | quietex/formatting.py:59-71 | the page and stack are those after following the tokens; the result is their formatting |
| FormattingProps.RenderSingle | quietex/formatting.py:56 | one token is styled by its class's entry, or left as it is |
| FormattingProps.RenderAppend | quietex/formatting.py:52-57 | the output is the in-order concatenation of each token's styled text |
| FormattingProps.EmptyTokens | quietex/formatting.py:59-71 | no tokens format to nothing and leave stack and page unchanged |
| FormattingProps.PageWithoutPageTokens | quietex/formatting.py:62-63 | without a page token the page is unchanged |
| FormattingProps.PageIsLastPageValue | quietex/formatting.py:62-63 | otherwise the page is the value of the last page token |
| FormattingProps.StackAfterAppend | quietex/formatting.py:61-70 | following `a + b` is following `a` and then `b` |
| FormattingProps.NestedKeepsBase | quietex/formatting.py:64-70 | tokens that close only what they opened keep the stack below them |
| FormattingProps.BalancedKeepsStack | quietex/formatting.py:64-70 | balanced opens and closes leave the stack unchanged |
| FormattingProps.FileAfterOpen | quietex/formatting.py:45-50 | `file` is the top of the stack: the last file opened and not closed |
| FormattingProps.OpenThenClose | quietex/formatting.py:64-70 | opening a file and closing it restores the stack; a close on an empty stack is ignored |
| FormattingProps.QuietLookup | quietex/formatting.py:25-33 | the entries of the quiet table |
| FormattingProps.VerboseLookup | quietex/formatting.py:34-42 | the entries of the verbose table |
| FormattingProps.QuietTable | quietex/formatting.py:25-43 | quiet mode: file and read tokens vanish, errors bright red, warnings yellow, other, page and newline unchanged |
| FormattingProps.VerboseTable | quietex/formatting.py:34-43 | verbose mode: file and read tokens dimmed, errors and warnings as in quiet mode, the rest unchanged |
| FormattingProps.QuietVisibleToken | quietex/formatting.py:25-43 | what one token shows in quiet mode |
| FormattingProps.VerboseVisibleToken | quietex/formatting.py:34-43 | what one token shows in verbose mode |
| FormattingProps.QuietShowsAllButIO | quietex/formatting.py:52-57 | styles aside, quiet output shows exactly the texts of the tokens that are not file or read messages |
| FormattingProps.VerboseShowsAll | quietex/formatting.py:52-57 | styles aside, verbose output shows every token's text |
| Lexer.Parent | src/quietex/lexer.py:11-13 | a token type's parent is the type with its last name removed; the root has none |
| Lexer.EmittedTypesDistinct | src/quietex/lexer.py:60-81 | the types the table emits besides `State.StartPage` and `IO.OpenFile` are neither of those two |
| Lexer.DotSlashEnd | src/quietex/lexer.py:23 | `\.?/` ends after the slash, the dot being taken when present |
| Lexer.LexMatch | src/quietex/lexer.py:49-82 | each pattern's match ends within the text, consumes at least one character, except `default`, which always matches the empty string |
| Lexer.OnlyDefaultIsEmpty | src/quietex/lexer.py:73-82 | `default("#pop")` is the only rule that matches nothing, the only one without an action, and sits in the file state |
| Lexer.ActionPattern | src/quietex/lexer.py:57-82 | only the page-start rule emits `State.StartPage`, only the open-file rule `IO.OpenFile`, and the catch-all goes to the callback |
| Lexer.FirstMatch | src/quietex/lexer.py:57-82 | the chosen rule is in the state's table and its pattern matches there |
| Lexer.FirstMatchIsFirst | src/quietex/lexer.py:57-82 | rules are tried in order: every earlier rule fails, and None means none matches |
| Lexer.Transit | src/quietex/lexer.py:62-81 | a push adds the state, a pop removes the top but never the root |
| Lexer.TextAndCloseFilesCallback | src/quietex/lexer.py:28-47 | the callback returns the specification `CloseFilesSplit(text)` |
| Lexer.SpacesPart | src/quietex/lexer.py:35-39 | the spaces `rstrip` removed become one text token, or none when there were none |
| Lexer.CloseFilesSplitFront | src/quietex/lexer.py:45-46 | the remaining text goes in front of the spaces and close-files, when it is not empty |
| Lexer.SplitTrailingCloses | src/quietex/lexer.py:42-44 | the loop leaves `Peel`'s text and one close-file token per dropped ")" |
| Lexer.MatchStarts | src/quietex/lexer.py:98 | `finditer`'s match starts are increasing, each is a match, and no match starts between them |
| Lexer.SplitOnRe | src/quietex/lexer.py:95-105 | the loop yields exactly the specification sections of the text at the match starts |
| LexerProps.CloseFilesSplitValues | src/quietex/lexer.py:28-47 | the callback's values concatenate to the matched text |
| LexerProps.CloseFilesSplitBalanced | src/quietex/lexer.py:28-47 | equal "(" and ")" counts give one text token, or nothing for empty text |
| LexerProps.CloseFilesSplitUnbalanced | src/quietex/lexer.py:33-46 | otherwise: the remaining text, one close-file per ")" peeled while surplus, then the trailing spaces |
| LexerProps.CloseFilesSplitKinds | src/quietex/lexer.py:38-46 | the callback yields only text tokens and ")" close-files |
| LexerProps.EmittedValues | src/quietex/lexer.py:49-82 | a rule's tokens give back the text it matched |
| LexerProps.LexFromValues | src/quietex/lexer.py:146-147 | the state machine loses nothing: its values from a position on are the text from there |
| LexerProps.LexFromMatched | src/quietex/lexer.py:57-82 | when a rule matches, its tokens come, and lexing continues after the match in the new state |
| LexerProps.LexFromUnmatched | src/quietex/lexer.py:68-72 | when no rule matches, one character becomes a `Token.Error` and lexing continues after it |
| LexerProps.JoinValues | src/quietex/lexer.py:146-147 | tokens for two adjacent slices concatenate to the tokens for both |
| LexerProps.LexAtEnd | src/quietex/lexer.py:73-82 | at the end of the text nothing more is yielded in any state |
| LexerProps.ErrorSection | src/quietex/lexer.py:60 | a section "!" plus at least one character is one `Generic.Error` token |
| LexerProps.SpanEndToLineEnd | src/quietex/lexer.py:60-61 | without a newline `.*` runs to the end of the text |
| LexerProps.WarningSection | src/quietex/lexer.py:61 | otherwise a section starting Overfull/Underfull or containing Warning, warning or ATTENTION is one `Generic.Warning` token |
| LexerProps.FirstMatchSkip | src/quietex/lexer.py:57-67 | rules whose patterns fail are passed over in order |
| LexerProps.EndPageCloses | src/quietex/lexer.py:71 | in the page state "]" is `State.EndPage` and pops |
| LexerProps.FileStateCloses | src/quietex/lexer.py:80 | in the file state ")" is a close-file and the state stays |
| LexerProps.FileStatePops | src/quietex/lexer.py:81 | on anything else the file state pops without consuming a character |
| LexerProps.StartPageEnters | src/quietex/lexer.py:62 | "[" and digits, with no error or warning there, are one start-page token and enter the page state |
| LexerProps.RootFallsToText | src/quietex/lexer.py:66 | root text that no earlier rule takes runs to the end and goes to the callback |
| LexerProps.StartPageShape | src/quietex/lexer.py:22 | a start-page value is "[", digits and at most one whitespace character |
| LexerProps.OpenFileShape | src/quietex/lexer.py:23 | an open-file value is "(" and a path |
| LexerProps.EmittedWellFormed | src/quietex/lexer.py:57-82 | what a matched rule yields has those shapes |
| LexerProps.LexFromWellFormed | src/quietex/lexer.py:146-147 | every start-page and open-file value the machine yields has those shapes |
| LexerProps.SectionsConcat | src/quietex/lexer.py:95-105 | the sections concatenate back to the text |
| LexerProps.SectionsNonEmpty | src/quietex/lexer.py:100-104 | no section is empty |
| LexerProps.SectionsStartAtCuts | src/quietex/lexer.py:98-102 | every section after the first begins at a match start |
| LexerProps.SplitOnSections | src/quietex/lexer.py:95-105 | `split_on_re` yields non-empty sections that concatenate to the input, each after the first at a match start |
| LexerProps.SplitConcat | src/quietex/lexer.py:117-137 | `split` (pages, then file openings) loses nothing and yields no empty section |
| LexerProps.StartPageAt | src/quietex/lexer.py:22 | `\[\d+\s?` matches at a position iff "[" and a digit stand there, and its match covers both |
| LexerProps.OpenFileAt | src/quietex/lexer.py:23 | `\(\.?/[^\s(){}]+` matches at a position iff "(", the slash (after the dot, when there is one) and a path character stand there, and its match covers them |
| LexerProps.MatchInPiece | src/quietex/lexer.py:22-23 | a page-start or file-open match is still a match at the start of any piece of the text that covers it |
| LexerProps.SectionsBeginWithMatches | src/quietex/lexer.py:95-105 | every section `split_on_re` yields from a position on begins with a match, except possibly the first |
| LexerProps.SplitOnBegins | src/quietex/lexer.py:95-105 | every section of `split_on_re` after the first begins with a match of the pattern |
| LexerProps.FirstPieceAfterPage | src/quietex/lexer.py:126-128 | a section that begins with a page start, split at file openings, still begins with the page start |
| LexerProps.SplitEachBegins | src/quietex/lexer.py:126-128 | when every page section after the first begins with a page start, every piece after the first begins with a page start or a file opening |
| LexerProps.SplitPiecesBeginAtCuts | src/quietex/lexer.py:117-137 | every section `split` yields after the first begins with a page-start or a file-open match |
| LexerProps.LexRoundTrip | src/quietex/lexer.py:140-157 | `lex` round-trips: for every line the values concatenate to the line |
| LexerProps.LexWellFormed | src/quietex/lexer.py:140-157 | every start-page and open-file value `lex` yields has its pattern's shape |
| Status.Top | quietex/status.py:17-22 | `current_file` is None iff the stack is empty, and the top otherwise |
| Status.AppState.constructor | quietex/status.py:11-15 | no page, an empty stack, nothing printed yet, and so clean |
| Status.AppState.SetCurrentFile | quietex/status.py:24-27 | the setter pushes the file, which becomes current; nothing else changes |
| Status.AppState.Update | quietex/status.py:29-40 | the page and stack become those after following the tokens in order; the printed snapshot stays |
| Status.AppState.FormatStatus | quietex/status.py:49-59 | returns the specification status text, records page and file as printed, and leaves the state clean |
| StatusProps.PageValueStrip | quietex/status.py:33 | `value.strip("[] ")` of a lexed page value is its digits, possibly with a trailing whitespace character |
| StatusProps.PageValueParses | quietex/status.py:33 | `int()` reads that as the number its digits spell |
| StatusProps.LexPagesParse | quietex/status.py:31-33 | every line the lexer lexes can be given to `update` without `int()` failing |
| StatusProps.OpenFileValueStrip | quietex/status.py:35 | `value.strip("(")` of a lexed open-file value is its path |
| StatusProps.StartPageSets | quietex/status.py:32-33 | a start-page token sets the page to the number it shows |
| StatusProps.OpenFileMakesCurrent | quietex/status.py:34-35 | an open-file token pushes its path, which becomes the current file |
| StatusProps.CloseFilePops | quietex/status.py:36-40 | a close-file token pops; on an empty stack it changes nothing |
| StatusProps.OpenThenClose | quietex/status.py:34-40 | opening a file and closing it restores the stack |
| StatusProps.UntrackedKeepState | quietex/status.py:31-40 | every other token kind leaves page and stack unchanged |
| StatusProps.AfterAppend | quietex/status.py:31 | following `a + b` is following `a` then `b` |
| StatusProps.PageWithoutStartPage | quietex/status.py:32-33 | without a start-page token the page is unchanged |
| StatusProps.PageIsLastStartPage | quietex/status.py:32-33 | otherwise the page is the one the last start-page token names |
| StatusProps.NestedKeepsBase | quietex/status.py:34-40 | tokens that close only what they opened keep the stack below them |
| StatusProps.BalancedKeepsStatus | quietex/status.py:42-47 | after printing, the state stays clean through tokens with no page that close what they open |
| StatusProps.StripAroundFile | quietex/status.py:54-56 | stripping spaces off " (f)" and "[p] (f)" removes only the leading space |
| StatusProps.StatusTextCases | quietex/status.py:49-56 | "[p]" for a truthy page, "(f)" for a truthy file, joined by one space when both, "" when neither |
| StatusProps.StatusTextExamples | quietex/status.py:49-56 | the status bars the tests expect without a file: "" for no page and for page 0, and "[1]" |
| StatusProps.StatusTextFileExamples | quietex/status.py:49-56 | the status bars the tests expect with a file: "(./test.tex)" and "[1] (./test.tex)" |
| Formatter.FilterBy | quietex/formatter.py:23-27 | a conditional comprehension keeps only accepted tokens and never grows the list |
| Formatter.FilterByAppend | quietex/formatter.py:23-27 | filtering distributes over concatenation, so order is kept |
| Formatter.FilterBySingle | quietex/formatter.py:26 | one token is kept iff its type is accepted |
| Formatter.FilterByAllKept | quietex/formatter.py:23-27 | accepted tokens pass unchanged |
| Formatter.FilterByNoneKept | quietex/formatter.py:23-27 | rejected tokens all go |
| Formatter.FilterByKeepsAccepted | quietex/formatter.py:23-27 | an accepted token appears as often in the output as in the input |
| Formatter.FilterByIdempotent | quietex/formatter.py:23-27 | filtering twice is filtering once |
| Formatter.QuietFilterKeeps | quietex/formatter.py:21-27 | `quiet_filter` keeps, in order, exactly the tokens whose type is neither IO nor a direct child of IO |
| Formatter.QuietFilterKinds | quietex/formatter.py:26 | file and read types are dropped; text, errors, warnings, pages and UI types are kept |
| Formatter.QuietFilterIdempotent | quietex/formatter.py:21-27 | applying `quiet_filter` twice gives the result of applying it once |
| Formatter.ContainsError | quietex/formatter.py:13-18 | `contains_error` is true iff some token has type `Generic.Error` |
| Formatter.FormattedPieces | quietex/formatter.py:55-59 | one piece per token, in order: its value in its type's style, or plain when the table has none |
| Formatter.FormattedShowsValues | quietex/formatter.py:55-59 | styles aside, the output is the values joined |
| Formatter.FormattedSingle | quietex/formatter.py:55-59 | one token writes one piece |
| Formatter.FormattedAppend | quietex/formatter.py:55-59 | formatting distributes over concatenation |
| Formatter.StyleTableEntries | quietex/formatter.py:38-48 | IO types and `UI.Message` dim, error bright red, warning yellow, prompt red, status blue; no other type is styled |
| Formatter.AnsiTerminalFormatter.constructor | quietex/formatter.py:33-48 | the formatter's table is the style table |
| Formatter.AnsiTerminalFormatter.FormatUnencoded | quietex/formatter.py:50-59 | for values without a newline, the loop writes exactly `Formatted(style, tokens)` |
| SrcFormatter.FilterByThen | src/quietex/formatter.py:23-27 | filtering by `p` and then by `q` is filtering by both |
| SrcFormatter.SrcQuietFilterIsQuietWithoutMessages | src/quietex/formatter.py:21-27 | the newer filter is the older one followed by dropping `UI.Message` |
| SrcFormatter.SrcQuietFilterKeeps | src/quietex/formatter.py:21-27 | it keeps, in order, exactly the tokens that are neither IO, a direct child of IO, nor `UI.Message` |
| SrcFormatter.SrcQuietFilterIdempotent | src/quietex/formatter.py:21-27 | applying it twice gives what applying it once gives |
| SrcFormatter.MessageDropped | src/quietex/formatter.py:26 | a `UI.Message` token survives the older filter but not the newer one; text passes both |
| SrcFormatter.PagesPassUnstyled | src/quietex/formatter.py:38-59 | in quiet formatting a page start or end is written as its plain value |
| SrcFormatter.EmptyFormatsToNothing | src/quietex/formatter.py:50-59 | no tokens write nothing |
| Frontend.Repeat | quietex/frontend.py:97-98 | the loop's writes: n copies of the same piece |
| Frontend.BasicFrontend.constructor | quietex/frontend.py:19-24 | a fresh, clean state, status length 0, nothing written |
| Frontend.BasicFrontend.Write | quietex/frontend.py:34-40 | one write is appended to the output |
| Frontend.BasicFrontend.Input | quietex/frontend.py:30-32 | the prompt is written formatted as `UI.Prompt`, and the reply typed is returned |
| Frontend.BasicFrontend.PrintTokens | quietex/frontend.py:42-49 | the state follows all tokens; what survives quiet filtering is written with `end`, and nothing when none does |
| Frontend.BasicFrontend.PrintStatus | quietex/frontend.py:51-55 | the status text is written as a `UI.Status` token, its length recorded, and the state becomes clean |
| Frontend.BasicFrontend.Log | quietex/frontend.py:61-63 | the message is written as a `UI.LogMessage` token on a line of its own; the state is unchanged |
| Frontend.BasicFrontend.Print | quietex/frontend.py:65-70 | the line is lexed and printed, then the status bar is written iff the page or current file differs from the last printed, and the recorded status length is that bar's length then and unchanged otherwise |
| Frontend.TerminalFrontend.constructor | quietex/frontend.py:80-82 | a fresh basic frontend with the status not kept |
| Frontend.TerminalFrontend.ClearStatus | quietex/frontend.py:87-98 | a kept status line is ended with "\n"; otherwise the status is erased line by line; the flag ends false |
| Frontend.TerminalFrontend.Input | quietex/frontend.py:100-107 | clears the status, then writes the prompt |
| Frontend.TerminalFrontend.Log | quietex/frontend.py:109-114 | clears the status, writes the message, and writes the status without a line end |
| Frontend.TerminalFrontend.Print | quietex/frontend.py:116-123 | clears, writes the line, keeps the status iff `end` is "\n" and the state is dirty, then writes the status without a line end and records its length |
| Frontend.UntrackedSingle | quietex/status.py:29-40 | a status or log token changes neither the page nor the file stack |
| Frontend.FilterNoNewlines | quietex/formatter.py:56 | filtering brings in no value with a newline |
| Frontend.ValuesNoNewlines | quietex/formatter.py:56 | tokens whose joined values hold no newline each hold none |
| Frontend.LexPrintable | quietex/frontend.py:44-49 | a line without line breaks lexes into tokens that `update` and `format_unencoded` both accept |
| Frontend.StackStaysPrintable | quietex/status.py:34-35 | following lexer tokens pushes only paths without newlines |
| Frontend.StackAfterLineFiles | quietex/frontend.py:67 | the same for the tokens of one line |
| Frontend.StatusTextNoNewline | quietex/frontend.py:53-55 | the status bar of such files holds no newline, so it can be formatted |
| Frontend.KeptSingle | quietex/frontend.py:45-49 | a token the quiet filter keeps is written the same in both modes, followed by `end` |
| Frontend.StatusLine | quietex/frontend.py:55 | the status bar is written blue in both modes, followed by `end` |
| Frontend.LogLine | quietex/frontend.py:63 | a log message is written plain on a line of its own in both modes |
| Frontend.QuietHidesIO | quietex/frontend.py:45-49 | in quiet mode a line of only file and read tokens writes nothing at all |
| Frontend.LineOutput | quietex/frontend.py:42-49 | styles aside, a line writes itself and "\n" in verbose mode, and the values the quiet filter keeps and "\n" in quiet mode, nothing when none are kept |
| Frontend.ClearOutputLines | quietex/frontend.py:87-98 | without a kept status: one erase, then one cursor-up erase per full terminal width of the last status; with one: a single "\n" |
| Classic.ProbablyWarningIgnoresCase | quietex/__init__.py:23-33 | apart from the Overfull/Underfull prefixes, `probably_warning` ignores case |
| Classic.AsciiLowerIdempotent | quietex/__init__.py:27 | lowering twice is lowering once |
| Classic.LoweredNoBoxPrefix | quietex/__init__.py:25-27 | a lowered line starts with neither "Overfull" nor "Underfull" |
| Classic.LowerSlice | quietex/__init__.py:27-28 | lowering a line lowers each of its slices |
| Classic.MentionedWarning | quietex/__init__.py:28-29 | a line containing "warning" or "missing" in any capitalisation is a probable warning |
| Classic.CapitalisedWarning | quietex/__init__.py:28-29 | lines containing "Warning" or "WARNING" are probable warnings |
| Classic.MatchEnd | quietex/__init__.py:67 | a match of `\[(\d+)[ \]\{]` or `\((\.?/[^\s(){}]+)` spans at least two characters within the line |
| Classic.MatchesDoNotNest | quietex/__init__.py:67-85 | no match of either pattern starts inside another of the same pattern |
| Classic.FindAllEmpty | quietex/__init__.py:72-74 | `findall` from a position is empty iff no match starts there or later |
| Classic.FindAllFindsLast | quietex/__init__.py:72-74 | when `findall` finds something, its last group is that of a match after which no match starts |
| Classic.FindLastIsLastMatch | quietex/__init__.py:70-85 | `find_page_number`/`find_file` are None iff nothing matches, and otherwise the group of the last match |
| Classic.PageGroupDigits | quietex/__init__.py:67 | the page group is a non-empty run of digits |
| Classic.FoundIsTruthy | quietex/__init__.py:92-98 | what the searches find is non-empty, so `if page_number:` holds exactly when one is found |
| Classic.StripLineEndIgnoresEnd | quietex/__init__.py:100 | "\n" or "\r\n" at the end of the raw line makes no difference after `strip("\r\n")` |
| Classic.SuppressedWhen | quietex/__init__.py:101-112 | a line is suppressed iff it starts "(/", "(./" or ")", or (with the page branch) a page match |
| Classic.PageBranchOnlySuppresses | quietex/__init__.py:109-112 | the page branch only ever suppresses more lines |
| Classic.ErrorBeatsWarning | quietex/__init__.py:113-117 | a line starting "!" is an error whatever the warning heuristic says |
| Classic.PageOnlyLine | quietex/__init__.py:109-112 | "[1]" is suppressed with the page branch and plain without it |
| FilterScript.HandleLineCases | filter.py:64-81 | after stripping line ends: file openings and closings print nothing, "!" bright red, probable warnings yellow, the rest plain |
| FilterScript.ErrorMentioningWarning | filter.py:75-79 | "! warning" prints as an error |
| FilterScript.PageLinePrintedPlain | filter.py:64-81 | there is no page branch: "[1]" prints plain |
| FilterScript.LineEndIgnored | filter.py:66 | the raw line's line end does not change what is printed |
| QuietexScript.HandleLineAddsPageBranch | quietex.py:81-102 | `handle_line` is filter.py's except that a line starting with a page match is suppressed |
| QuietexScript.FollowLine | quietex.py:150-168 | one pass: erase the status line, handle the line, update page and file from what was found, rewrite the status |
| QuietexScript.RunLines | quietex.py:136-168 | the loop writes `Run(lines).written` and ends with `Run`'s page and file |
| QuietexScript.ShowsLastFound | quietex.py:155-162 | the page (and file) after the loop is the one found in the last line that had one, or 0 ("") when none did |
| QuietexScript.StatusWrittenLast | quietex.py:113-117 | after each line the last write is the status, "[page]" plus " (file)" when the file is non-empty |
| QuietexScript.NewPageStaysInOutput | quietex.py:165-168 | a line with a page number writes the status, a newline, and the status again |
| QuietexScript.FirstStatus | quietex.py:136-137 | until a page number is seen the status shows page 0 |
| InputOutput.BasicIo.constructor | quietex/input_output.py:14-19 | all fields None, nothing written |
| InputOutput.BasicIo.Write | quietex/input_output.py:31-37 | appends one string and returns its length |
| InputOutput.BasicIo.Input | quietex/input_output.py:25-29 | writes the prompt wrapped in style and reset when a style is given, and returns the reply |
| InputOutput.BasicIo.PrintRaw | quietex/input_output.py:39-51 | writes style, value + end, reset (style and reset only with a style), and returns the sum of their lengths |
| InputOutput.BasicIo.PrintStatus | quietex/input_output.py:53-70 | writes the optionally styled status and `end`; records page and file as last shown |
| InputOutput.BasicIo.Print | quietex/input_output.py:75-81 | writes the value, then the status iff `(end == "\n" and page != last page) or file != last file` |
| InputOutput.TerminalIo.constructor | quietex/input_output.py:90-92 | a fresh `BasicIo`, with the status not kept |
| InputOutput.TerminalIo.ClearStatus | quietex/input_output.py:94-102 | a kept status line is ended with "\n" and the flag cleared; otherwise cursor-to-start and delete-line are written |
| InputOutput.TerminalIo.Input | quietex/input_output.py:104-111 | clears the status first, then shows the prompt |
| InputOutput.TerminalIo.Print | quietex/input_output.py:113-123 | clears, prints the value, sets the flag under `print`'s condition, and always writes the status with end "" |
| InputOutputProps.IoStatusCases | quietex/input_output.py:59-64 | "[page]" if the page is truthy, "(file)" if the file is, joined by one space when both, "" when neither |
| InputOutputProps.IoStatusExamples | quietex/input_output.py:59-64 | the unstyled status lines of the tests |
| InputOutputProps.StyledStatusExample | quietex/input_output.py:65-66 | a status style wraps the whole status as style + status + RESET_ALL |
| InputOutputProps.StatusDuePrecedence | quietex/input_output.py:78 | `and` binds tighter than `or`: a new file always brings the status, a new page only with end "\n" |
| InputOutputProps.StatusDueWithoutLineEnd | quietex/input_output.py:78 | with end "" a new file brings the status and a new page does not |
| InputOutputProps.PageChangeShowsStatus | quietex/input_output.py:75-81 | two prints with a page change between them write the status once, after the second |
| InputOutputProps.StatusStaysAtBottom | quietex/input_output.py:113-123 | a new page leaves the status kept and ends it; an unchanged one erases and rewrites it |
| QuietexPackage.HandleLine | quietex/__init__.py:88-122 | page and file are replaced only by what is found; the line is printed as classified, a suppressed line as `print("", end="")`; returns `print`'s count: the value, the line end, the style and reset codes when styled, and the status line with its newline when it was due |
| QuietexPackage.HandleLineTerminal | quietex/__init__.py:88-122 | the same on a `TerminalIo` |
| QuietexPackage.SuppressedShowsOnlyNewFiles | quietex/__init__.py:121-122 | a suppressed line brings the status only when the file changed |
| QuietexPackage.PrintedShowsAnyChange | quietex/__init__.py:113-119 | a printed line brings the status when page or file changed |
| QuietexPackage.PageFollowsLastNumber | quietex/__init__.py:91-93 | the page is replaced exactly when the line holds a page number, by the last one's digits |
| Cli.FirstNonOption | src/quietex/cli.py:111 | the first argument from a position on that does not start with "-", or None when every one does |
| Cli.SplitArgvSplits | src/quietex/cli.py:103-116 | the invocation is argv[0], or "python -m quietex" iff it contains "__main__"; options and command concatenate to argv[1:], every option starts with "-", and the command is None or starts with a non-option |
| Cli.SplitArgvExamples | src/quietex/cli.py:103-116 | with no command every argument is an option; with one it is split off whole |
| Cli.CheckFlagsAccepts | src/quietex/cli.py:163-174 | accepted iff exactly one of `--latexmkrc` and a command is given and not both `--force` and a command |
| Cli.BothReportedFirst | src/quietex/cli.py:164-167 | asking for both reports that first, even when `--force` is also wrong |
| Cli.LatexmkCommandSuffix | src/quietex/cli.py:185-189 | the invocation, then " --verbose" iff not quiet, then " --no-bell" iff no bell |
| Cli.MainRunsTheCommand | src/quietex/cli.py:182-192 | a command is run only when given, and it is argv from the first non-option on; settings are printed only when no command was given |

## Left out

- Parsing.ErrorPrefix: the error prefix stops where the first page match starts, and that match includes the optional space before "[" (quietex/parsing.py:14, 151-153). So in "! Undefined control sequence. [1]" the error text is "! Undefined control sequence." and the page token is " [1]". A description that keeps the space in the error text does not match the code. The model follows the code.
- Running the compiler is not modelled, because it is I/O on a child process with time-outs: the pexpect spawn, `readline` time-outs, `handle_prompt`, interrupts and exit status. The lines read enter `QuietexScript.RunLines` as a sequence.
- QuietexScript.RunLines: the "QuieTeX enabled" banner and the empty line printed before the loop are not modelled (quietex.py:134-135). The model's output starts at the first line.
- The `print_latexmkrc` templates, `print_usage` and argparse are not modelled. The options that argparse parses enter `Cli.Main` as a `Flags` value. `parse_args`' `sys.exit(1)` becomes the `PrintHelp` action.
- Flushing, and the effect of escape sequences on the screen, are not modelled. Output is the sequence of strings written.
- Classic.PrintLine: a Python `print(x)` writes `x` and then the line end, which is two writes to the stream. The model records them as one entry `x + "\n"` (filter.py and quietex.py's `handle_line`, `QuietexScript.RunLines`). The text that reaches the stream is the same, but the model does not say where the stream could be interrupted or flushed between the two writes.
- PyStr.AsciiLower: lowers ASCII letters only, because Unicode case mapping is outside the model. The words the heuristic looks for are ASCII.
- Scan.SpanEnd: Python's `\d` is modelled as ASCII 0-9. `\s` is the set of characters `str.isspace` accepts.
- PyStr.IntText: `int()` is modelled for ASCII digits with surrounding whitespace, which is all that lexed page values contain (`StatusProps.PageValueParses`).
- The pygments driver is not part of this model. The rule table is modelled directly, and these parts of what pygments does are fixed choices of the model:
  - A character that no rule of the page state accepts becomes a one-character `Token.Error` token.
  - Inputs with "\r", "\n" or a leading byte-order mark are excluded with `PlainLine` instead of being preprocessed.
- Frontend.BasicFrontend.Print: requires that every file on the stack holds no newline (`FilesPrintable`). `format_unencoded` asserts that no value does (quietex/formatter.py:56), and the status text shows the current file. Lexed paths never hold one (`Frontend.StackStaysPrintable`).
- Frontend.TerminalFrontend.Print: the same precondition. The terminal width enters as a positive parameter in place of `shutil.get_terminal_size`.
- src/quietex/frontend.py is not part of this model. It depends on a `src/quietex/status.py` that is not part of this model either.
- The inheritance `TerminalIo(BasicIo)` and `TerminalFrontend(BasicFrontend)` is modelled by composition: the terminal class holds the basic one in a `basic` field.
- quietex/formatter.py and src/quietex/formatter.py share the same `contains_error`, style table and `format_unencoded`. These are modelled once, in `Formatter`. `SrcFormatter` adds the newer `quiet_filter`.
- quietex/status.py, quietex/formatter.py and quietex/frontend.py import their token types from a quietex/lexer.py that is not part of this model. The model takes them from src/quietex/lexer.py.
