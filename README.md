# powerprompt in Dafny

A model of `code.cpp` from powerprompt, a program that prints a coloured
shell prompt. The model covers three parts.

- The `Git` namespace reads the output of `git status --porcelain=2 -b` into a
  `Status` record. The record holds:
  - whether the working tree is clean or modified;
  - whether an upstream branch is set;
  - the number of commits ahead of and behind that upstream.
- `areThereUncommittedFiles` scans the output of `git status --porcelain` for a
  change to tracked files.
- The colour and transition helpers build 24-bit ANSI escapes. `program()` uses
  them to compose its two banners before the `$ ` cue:
  - the branch bubble, with a gift medallion inside it when there are
    uncommitted files;
  - the breadcrumb of the working directory.

Modules:

- `Text` (text.dfy) covers byte strings, splitting on a delimiter, and decimal
  spelling.
- `Stream` (stream.dfy) covers one `std::getline` call on a stream, modelled as
  a text and a read position.
- `Git` (git.dfy) is the porcelain-v2 reader. `getStatus` and
  `getBranchRelativeHistory` keep their loops. Each is proved against a
  function that states the result.
- `GitExamples` (git_examples.dfy) holds the inputs of the "git status" unit
  test and the status each one parses to.
- `Terminal` (terminal.dfy) covers `setTerminalColor` and the transition
  helpers. It also defines a drawing-piece view of what they emit (`Piece`,
  `Render`) and a `Pen` that tracks the terminal's current foreground and
  background colours.
- `Prompt` (prompt.dfy) covers `areThereUncommittedFiles`, the palette and
  symbols, and `program()`:
  - `program()` becomes methods that build the printed text, one method per
    banner;
  - each method is proved equal to `Render` of a piece sequence;
  - lemmas about the piece sequences state what the prompt shows and in which
    colours.

Behaviour of the code that the model keeps:

- Both read loops run `std::getline` while the stream converts to `true`.
  After an unterminated last line only eofbit is set, so the loop runs once
  more; that read extracts nothing, sets failbit and yields an empty line.
  `getStatus` then drops it with its `pop_back`.
- The counts of a `# branch.ab` line are read even when there is no
  `# branch.upstream` line. See `GitExamples.CountsWithoutUpstream`.
- Only the final empty line of the output is dropped. An empty line inside the
  output counts as a change, so the tree is Modified. See
  `GitExamples.BlankInteriorLineIsModified`.
- The branch banner draws one medallion, a gift, when `git status
  --porcelain` reports a change. The branch name comes from `git branch
  --show-current`.
- Colour channels are `int` in the code, not 8-bit values.

## Model

| member | source | states |
|---|---|---|
| Git.StatusEquals | code.cpp:35-40 | `operator==` holds exactly when the two records are equal in all four fields |
| Git.GetWorkingDirectoryStatus | code.cpp:51-56 | Clean exactly when every line starts with `#` or `?`, Modified otherwise |
| Git.GetUpstreamState | code.cpp:58-63 | Set exactly when some line starts with `# branch.upstream` |
| Git.MatchAheadBehind | code.cpp:67-70 | a whole-line match yields two non-empty digit runs, and the line is rebuilt from them around the pattern's fixed text (its unescaped `.` matching any character but a line terminator) |
| Git.MatchAheadBehindComplete | code.cpp:67-70 | every line of the pattern's form matches and captures exactly its two digit runs |
| Git.ToUnsigned | code.cpp:72-73 | `static_cast<unsigned int>(stoul(..))` gives the decimal value whenever it fits in 32 bits |
| Git.GetBranchRelativeHistory | code.cpp:65-78 | the loop with its early return gives the counts of the first matching line, or (0, 0) |
| Git.BranchRelativeHistoryFirstMatch | code.cpp:68-75 | the counts come from the first matching line, whatever follows it |
| Git.BranchRelativeHistoryNoMatch | code.cpp:77 | with no matching line, the counts are (0, 0) |
| Git.BranchRelativeHistoryIgnores | code.cpp:68-76 | inserting a non-matching line anywhere leaves the counts unchanged |
| Git.AheadBehindRoundTrip | code.cpp:65-78 | counts printed in decimal in a `# branch.ab` line are read back unchanged |
| Git.StatusLines | code.cpp:82-91 | the lines are the newline-separated pieces of the text, minus the last piece exactly when it is empty |
| Git.PopBackOfReadLines | code.cpp:83-91 | the lines the read loop collects, after the `pop_back` of a trailing empty line, are exactly `StatusLines`: the extra empty line read after unterminated output is the one removed |
| Git.GetStatus | code.cpp:80-103 | the read loop, the `pop_back` and the three extractors give `ParseStatus(StatusLines(text))` |
| Git.StatusLinesOfTerminated | code.cpp:82-91 | newline-terminated output gives back exactly its lines, including empty interior lines |
| Git.EmptyOutputIsDefault | code.cpp:80-103 | empty output gives no lines and the default record (Clean, Unset, 0, 0) |
| Git.ParseStatusWithChange | code.cpp:51-63 | one change line anywhere makes the tree Modified and leaves upstream and counts unchanged |
| Git.ParseStatusWithUntracked | code.cpp:51-63 | an untracked `?` line anywhere changes nothing in the record |
| GitExamples.StatusOfClean | tests.cpp:74 | the clean example parses to (Clean, Set, 0, 0) |
| GitExamples.StatusOfLocallyModified | tests.cpp:75 | the locally modified example parses to (Modified, Set, 0, 0) |
| GitExamples.StatusOfWithoutUpstream | tests.cpp:76 | the example without upstream parses to (Clean, Unset, 0, 0) |
| GitExamples.StatusOfEqualToOrigin | tests.cpp:77 | the equal-to-origin example parses to (Clean, Set, 0, 0) |
| GitExamples.StatusOfAhead | tests.cpp:78 | the ahead example parses to (Clean, Set, 1, 0) |
| GitExamples.OneAheadNoneBehind | tests.cpp:48 | the line `# branch.ab +1 -0` is read as 1 ahead, 0 behind |
| GitExamples.StatusOfBehind | tests.cpp:79 | the behind example parses to (Clean, Set, 0, 1) |
| GitExamples.StatusOfAheadAndBehind | tests.cpp:80 | the ahead-and-behind example parses to (Clean, Set, 2, 13) |
| GitExamples.TwoAheadThirteenBehind | tests.cpp:64 | the line `# branch.ab +2 -13` is read as 2 ahead, 13 behind |
| GitExamples.BlankInteriorLineIsModified | code.cpp:89-91 | only the trailing empty line is dropped, so an empty interior line makes the tree Modified |
| GitExamples.CountsWithoutUpstream | code.cpp:65-78 | the counts are read even when no upstream line is present |
| Stream.GetLine | code.cpp:85 | `getline` takes the text up to the next newline and consumes that newline; the stream turns false exactly when the call starts with the text used up, and then the line is empty; the lines read in turn are the newline pieces, plus one empty line after unterminated text |
| Stream.ReadLinesAfterNewline | code.cpp:85 | a line ended by a newline is read as itself, and reading continues after the newline |
| Stream.ReadLinesOfLastLine | code.cpp:85 | an unterminated last line is read as itself, then the failing read gives one empty line |
| Terminal.SetTerminalColor | code.cpp:153-159 | the escape is `ESC[`, then the plane code (`38` for text, `48` for background), then `2`, red, green and blue in decimal, these five fields separated by `;`, then `m`; `SetTerminalColorRoundTrip` decodes every such escape back to its colour and plane |
| Terminal.EscapeFields | code.cpp:153-159 | the escape is `ESC [`, five `;`-separated fields (where code, `2`, red, green, blue) and a final `m` |
| Terminal.SetTerminalColorRoundTrip | code.cpp:153-159 | every escape decodes to the colour and plane it came from, so different colours or planes give different escapes |
| Terminal.TextColor | code.cpp:161-163 | the foreground escape for the colour, which decodes back to (colour, fore) |
| Terminal.BackColor | code.cpp:165-167 | the background escape for the colour, which decodes back to (colour, back) |
| Terminal.SetColors | code.cpp:169-171 | the foreground escape followed by the background escape |
| Terminal.ResetColors | code.cpp:173-175 | the reset-all escape |
| Terminal.TransitionIn | code.cpp:177-179 | draws: the new background `back` as the text colour, the symbol, then the new text and background colours |
| Terminal.TransitionOutOnto | code.cpp:181-183 | draws: the old background over the new background, the symbol, then the new text colour |
| Terminal.TransitionOut | code.cpp:185-187 | draws: reset, the old background as the text colour, the symbol, reset |
| Terminal.TransitionInDraws | code.cpp:177-179 | the symbol is drawn in the bubble's colour `back` on the previous background; afterwards the pen is the new text on the new background |
| Terminal.TransitionOutOntoDraws | code.cpp:181-183 | the symbol is drawn in the old background colour on the new background; afterwards the pen is the new text on the new background |
| Terminal.TransitionOutDraws | code.cpp:185-187 | the symbol is drawn in the old background colour on the terminal's own background; afterwards the terminal's defaults are restored |
| Prompt.ReadLinesHaveSameChanges | code.cpp:131-135 | the extra empty line read after unterminated output is never a change, so the lines the loop reads hold a change exactly when the output's lines do |
| Prompt.AreThereUncommittedFiles | code.cpp:130-137 | true exactly when some line of the output is non-empty and does not start with `?` |
| Prompt.UncommittedAgreesWithGit | code.cpp:130-137 | for output with no empty lines and no `#` headers, it reports uncommitted files exactly when `getWorkingDirectoryStatus` says Modified |
| Prompt.BrightFore | code.cpp:190 | the bright text escape carries 38, 211, 215, 207 |
| Prompt.BranchFore | code.cpp:192 | the branch text escape carries 38, 6, 152, 154 |
| Prompt.BranchBack | code.cpp:192 | the branch background escape carries 48, 6, 152, 154 |
| Prompt.WorkingDirectoryFore | code.cpp:193 | the working-directory text escape carries 38, 78, 154, 6 |
| Prompt.WorkingDirectoryBack | code.cpp:193 | the working-directory background escape carries 48, 78, 154, 6 |
| Prompt.Crumbs | code.cpp:232-247 | a chain of n directories gives 4n - 3 pieces: the directories with a separator between each pair |
| Prompt.CrumbsLayout | code.cpp:232-247 | every fourth piece is the next directory, in chain order, and the pieces between are `" " CHEVRON_RIGHT_LINE " "` |
| Prompt.CrumbsDirectories | code.cpp:232-247 | directory i is piece 4i of the breadcrumb |
| Prompt.WorkingDirectoryOpens | code.cpp:231-232 | the working-directory banner switches to bright text on the working-directory colour |
| Prompt.DirectoriesDrawn | code.cpp:230-251 | each directory of the chain is drawn, in order, in bright text on the working-directory colour |
| Prompt.WorkingDirectoryCloses | code.cpp:249-250 | the banner ends with the full chevron in the working-directory colour on the terminal background, then restores the terminal's defaults |
| Prompt.BranchOpens | code.cpp:214-215 | the branch name is drawn in bright text on the branch colour |
| Prompt.GiftDrawn | code.cpp:218-219 | after the notification bubble opens, the gift is drawn in bright text on the notification colour |
| Prompt.MedallionDraws | code.cpp:218-221 | the gift is drawn bright on the notification colour, and the medallion returns the pen to bright on the branch colour from any starting pen |
| Prompt.BranchDraws | code.cpp:213-226 | in the branch banner: the name is bright on the branch colour; with uncommitted files, the gift is bright on the notification colour and the branch colours come back after it; the banner ends on the terminal's defaults |
| Prompt.BranchCloses | code.cpp:224-225 | from any pen, closing the branch bubble and the newline restore the terminal's defaults |
| Prompt.PromptRestoresColors | code.cpp:207-257 | after the prompt, the terminal is on its own colours whenever a banner was drawn, and untouched otherwise |
| Prompt.GiftShownIff | code.cpp:213-222 | the gift appears exactly when there is a branch and uncommitted files |
| Prompt.EmptyPromptIsCue | code.cpp:252-254 | with no branch and no directory, the output is just the cue `\n$ ` |
| Prompt.PromptEndsWithCue | code.cpp:254 | the output always ends with the cue `\n$ ` |
| Prompt.DirSeparator | code.cpp:235 | the separator is a space, the thin chevron and a space |
| Prompt.GiftMedallion | code.cpp:218-221 | the medallion text is: opening notification bubble, space, gift, space, closing bubble onto the branch colour, space |
| Prompt.BranchBanner | code.cpp:213-226 | the branch banner text, with the medallion exactly when the porcelain output has an uncommitted change |
| Prompt.Breadcrumb | code.cpp:232-247 | the first directory, then each middle directory and the separator (the `for_each` loop), then the last directory spell out `Crumbs` |
| Prompt.WorkingDirectoryBanner | code.cpp:230-251 | colours, space, breadcrumb, space, then the full chevron out of the banner |
| Prompt.Program | code.cpp:207-257 | everything `program()` prints: the branch banner if the branch name is non-empty, the working-directory banner if the chain is non-empty, then the cue |

## Left out

- `getGitBranch`, the subprocess overload `areThereUncommittedFiles()`, and
  `getWorkingDirectoryChain` run `git` or read `$PWD`. Their results are
  parameters of `Prompt.Program`: the branch name, the `git status
  --porcelain` text, and the directory chain.
- `std::cout` is modelled as returned strings. Each banner is built whole,
  then appended.
- `Prompt.Program` is split into one method per banner plus the medallion.
  The printed text is the same.
- `operator<<` for `Status` is debug printing and is not part of this model.
- Git.ToUnsigned: the `std::out_of_range` that `stoul` throws for a value
  above `ULONG_MAX` is not modelled. Every digit run is reduced modulo 2^32.
- Colour channels are unbounded integers. `int` overflow cannot occur with
  the palette.
- The test lemmas apply `ParseStatus` to the test's lines.
  `Git.StatusLinesOfTerminated` and `Git.GetStatus` connect those lines to
  the newline-terminated text the test passes in. That connection is not
  instantiated for each literal.
- main.cpp is not part of this model. The only thing taken from it is the
  comparison of palette escapes, which it spells out by hand.
- VariantStream.hpp is not part of this model.
