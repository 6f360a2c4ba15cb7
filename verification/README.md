# sysmon dashboard layout, modelled in Dafny

sysmon is a terminal system monitor written in Go on top of bubbletea and lipgloss.
Every three seconds it collects CPU, memory, GPU and process statistics, and it renders
them as one text frame:

- two headline rows of progress bars (CPU/GPU usage and memory/GPU memory), with the
  label and the percentage written over each bar;
- a grid of per-core bars, four to a line;
- a process table whose COMMAND column is truncated from the left to fit.

This project models the pure part of that program as functions over immutable data:

- `Cells` holds the colour band of a percentage (green below 50, yellow below 80, red
  from 80 on) and the clamp to [0, 100]. It also defines a rendered line as a sequence of
  `Cell`s: a code point plus an abstract style (`Unstyled`, `Plain(look)`,
  `Inverted(look)`, `Header`). The lipgloss escape sequences are not modelled.
- `Truncate` holds `truncateLeft`.
- `Bars` holds `createBarWithText` and `createSimpleBar`.
- `Layout` holds the width, grid and line-budget arithmetic of `View`. It models Go's
  truncating integer division as `GoDiv`.
- `Dashboard` holds the `model` state, the `Update` message handler and the `View`
  frame. `View` produces a sequence of lines joined with newline cells.
- `ViewFacts` holds what `Update` and `View` promise about frames: line counts, where
  the process rows sit, the labels every frame shows, and the two rendering tests of
  the repository.
- `ColonValue` holds `extractValueAfterLastColon`, with the `strings.TrimSpace` and
  `strings.LastIndex` it relies on.
- `AnsiStrip` holds the `stripAnsiCodes` byte scanner from the test file. It is given
  both as a recursive definition and as the index-walking loops of main_test.go, and
  the two are proved equal.

The printf conversions (`%5.1f%%`, `%3.0f%%`, `%4.1f%%`, `%5.1f`, `CPU%02d`, `%-10d`)
are passed into `View` as a `Formats` value whose fields are functions. Lemmas that
depend on the length of a formatted text take that length as a hypothesis.

## Model

| member | source | states |
|---|---|---|
| Cells.BandOf | main.go:148-155 | green exactly below 50, yellow exactly on [50, 80), red exactly from 80 on |
| Cells.BandMonotone | main.go:148-155 | a larger percentage never gets a less severe band |
| Cells.Clamp | main.go:353-357 | the clamped value lies in [0, 100], equals the input inside that range, and is 0 below it and 100 above it |
| Cells.BandOfClamp | main.go:148-155 | clamping does not change the band, and clamping twice is clamping once |
| Truncate.TruncateLeft | main.go:297-320 | the result has min(\|s\|, max(w, 0)) code points; it is s when s is kept whole, and otherwise dots followed by a suffix of s; it is "" for w <= 0 and s when s fits |
| Truncate.TruncateLeftUnique | main.go:297-320 | that description is met by TruncateLeft's result and by no other string (both directions) |
| Truncate.TruncateLeftIdempotent | main.go:297-320 | truncating a truncated command again changes nothing |
| Truncate.TruncateLeftKeepsTail | main.go:317-318 | for widths above 3, the last w-3 code points of s end the result |
| Truncate.TruncateLeftDropsPrefix | main.go:309-319 | a string more than three code points longer than the kept tail becomes "..." followed by that tail |
| Truncate.TruncateLeftShortVectors | main_test.go:15-62 | "/usr/bin/test" at widths 20, 13, 5, 3, 2 and 0 gives the expected strings |
| Truncate.TruncateLeftLongVector | main_test.go:27-32 | "/very/long/path/to/executable" at width 20 gives "...ath/to/executable" |
| Truncate.TruncateLeftLongerVector | main_test.go:33-38 | the 39-code-point path at width 25 gives "...y/long/executable/name" |
| Truncate.TruncateLeftUnicodeVector | main_test.go:63-68 | truncation keeps whole CJK code points |
| Bars.Filled | main.go:333 | the filled count lies in [0, width]; it is the floor of clamp(p)/100 * width; it equals width exactly when p >= 100 |
| Bars.BarWithText | main.go:348-416 | width <= 0 gives the unstyled "label percent" text; text that does not fit gives the same text in the caller's style; otherwise exactly width cells |
| Bars.BarWithTextLayout | main.go:379-413 | on the normal path the characters are the label, spaces, then the right-aligned percentage; the first Filled cells are inverted and the rest are plain |
| Bars.BarStartsWithLabel | main.go:349-350 | on every path the bar's text starts with its label |
| Bars.BarWithTextClamps | main.go:353-357 | out-of-range (non-NaN) percentages draw the same bar as 0 or 100 |
| Bars.BarWithTextExtremes | main.go:384-413 | at 100% or more every cell is inverted; at 0% or less none is |
| Bars.SimpleBar | main.go:322-345 | no cells for width <= 0; otherwise width cells, each a styled full block exactly when its index is below Filled, else an unstyled light shade |
| Bars.SimpleBarAgreesWithTextBar | main.go:322-345 | a simple-bar column is a full block exactly where the text bar is inverted |
| Layout.GoDiv | main.go:161 | truncating division: quotient and remainder bounds for both signs of the numerator |
| Layout.GoDivVersusEuclidean | main.go:161 | for every numerator and positive divisor, Go's quotient equals the Euclidean one when the numerator is non-negative or the division is exact, and is one more otherwise |
| Layout.HeadlineBarWidth | main.go:159-164 | at least 20; exactly 20 below width 44; from 44 on, two bars and the gap fit in width-2 columns with less than 2 wasted |
| Layout.HeadlineRowSpan | main.go:159-164 | from width 44 on a headline row is width-2 cells for even widths and width-3 for odd ones; below 44 it is 42 cells, wider than width-2 |
| Layout.ClampedCoreBarWidth | main.go:199-208 | the core bar width is at least 15 |
| Layout.Degrade | main.go:210-216 | a grid whose bars are at least 15 wide, or that has at most two bars per line, is left alone; otherwise it becomes two bars per line of width max(GoDiv(availableWidth-2, 2), 15) |
| Layout.CoreLayout | main.go:196-216 | always four bars per line, each at least 15 wide; from width 68 on a full line fits in width-2 with less than 4 wasted; below 68 every bar is 15 wide |
| Layout.DegradationUnreachable | main.go:206-216 | the fallback to two bars per line never fires at any width |
| Layout.CoreRowOverflows | main.go:202-208 | below width 68 a full core line (66 cells) is wider than width-2 |
| Layout.WidthsAgreeWithEuclideanDivision | main.go:159-164 | both clamped widths equal max(Euclidean quotient, minimum), so the two divisions agree here |
| Layout.Chunks | main.go:218-220 | the core lines are non-empty and at most perLine long; all but the last are full; every index is a valid core |
| Layout.ChunksPartition | main.go:218-222 | read line by line, the core lines list the cores 0..n-1 in order, each once |
| Layout.CoreLines | main.go:244 | the ceiling division: c lines hold the n cores and c-1 lines do not, (c-1)*perLine < n <= c*perLine |
| Layout.ChunksCount | main.go:244 | the number of core lines is the ceiling division the budget uses |
| Layout.CoreLinesSteps | main.go:244 | the ceiling division gives 0 lines for no cores, 1 for up to perLine cores, and one more for every further perLine |
| Layout.LinesUsed | main.go:245 | definition only: two headline rows, a blank, the core lines, a blank and the header; its properties are ViewFacts.FrameLineCount and ViewFacts.FrameProcessRows |
| Layout.PlannedHeight | main.go:249-252 | an unknown height (0) is planned as 24 lines and any other height is used as given |
| Layout.AvailableLines | main.go:254-257 | at least 1, and equal to height - linesUsed - 1 whenever that is at least 1 |
| Layout.ProcessRowCount | main.go:260-263 | the minimum of the available lines and the number of processes |
| Layout.CommandWidth | main.go:272-275 | at least 10; equal to width-25 from width 35 on; 10 below |
| Dashboard.Update | main.go:109-133 | Quit exactly for q, Q, ctrl+c and esc; a new tick and collection exactly for a tick; the stats change only on a snapshot; the size changes only on a resize |
| Dashboard.HeaderText | main.go:267 | the header is 32 code points: PID left-aligned in 10 columns, a space, CPU% and MEM% right-aligned in 5 columns after two spaces, then two spaces and COMMAND |
| Dashboard.ProcessRow | main.go:277-289 | a process row is as long as the PID text, the two value texts, the command cut to the column width and the five separating spaces together |
| Dashboard.CoreRowFrom | main.go:218-238 | definition only; its properties are ViewFacts.CoreRowLength and ViewFacts.CoreRowsFit |
| Dashboard.CoreRows | main.go:218-238 | definition only; its properties are Layout.ChunksCount, ViewFacts.CoreRowLength and ViewFacts.CoreRowsFit |
| Dashboard.FrameLines | main.go:157-290 | definition only; its properties are ViewFacts.FrameLineCount, ViewFacts.FrameProcessRows, ViewFacts.FrameFitsHeight, ViewFacts.UsageRowLength, ViewFacts.MemoryRowLength and ViewFacts.ViewShowsLabels |
| Dashboard.View | main.go:135-293 | definition only; its properties are ViewFacts.ViewLoadingIff, ViewFacts.ResizeThenView and ViewFacts.ViewShowsLabels |
| ViewFacts.UpdateKeepsFrame | main.go:116-131 | keys, ticks and other messages leave the state and the rendered frame unchanged |
| ViewFacts.UpdateKeys | main.go:116-121 | a quit key returns Quit with the state unchanged; any other key returns no command and the same state |
| ViewFacts.ResizeThenView | main.go:111-114 | after a resize the view is "Loading..." exactly when the new width is 0 |
| ViewFacts.ViewLoadingIff | main.go:135-138 | the view is "Loading..." exactly when the width is 0; otherwise the frame has at least five newlines |
| ViewFacts.FrameLineCount | main.go:242-245 | the frame has linesUsed lines plus one per shown process, so the budget counts exactly the lines written |
| ViewFacts.FrameProcessRows | main.go:265-290 | the header follows the reserved lines, and row i after it renders process i with the COMMAND column width |
| ViewFacts.FrameFitsHeight | main.go:254-263 | the shown processes are min(processes, available lines); when there is room the frame and the bottom margin fit in the planned height |
| ViewFacts.CoreRowLength | main.go:218-237 | when every core's label and percentage text fit in its bar, a full core line is perLine bars with a gap between each pair; a short last line has a gap after every bar, its last included |
| ViewFacts.CoreRowsFit | main.go:199-237 | when every core's label and percentage text fit in its bar, from width 68 on every core line fits in width-2 cells |
| ViewFacts.UsageRowLength | main.go:159-177 | when both percentage texts fit in their bars, the first frame line is exactly as wide as Layout.HeadlineRowWidth says for every width |
| ViewFacts.MemoryRowLength | main.go:179-190 | the same for the second frame line, the memory and GPU memory bars |
| ViewFacts.HeadlineRowsSpan | main.go:157-190 | for even widths >= 44 both headline rows of the frame are exactly width-2 cells (the even case of the two lemmas above) |
| ViewFacts.ViewShowsLabels | main.go:166-190 | every frame shows "CPU Usage", "GPU Usage", "Memory", "GPU Memory", "PID" and "COMMAND" |
| ViewFacts.HeaderShowsColumns | main.go:265-267 | the table header contains "PID" and "COMMAND" |
| ViewFacts.ContainsLowered | main_test.go:198-201 | a substring remains a substring after both strings are lower-cased |
| ViewFacts.RenderScenario | main_test.go:169-204 | at 80x24 with four cores and one process the frame has seven lines and at least five newlines, and its lower-cased text contains every expected word |
| ViewFacts.ProcessRowLayout | main.go:277-289 | a process row is PID, CPU, MEM and the truncated command; only CPU and MEM are coloured, each in its own band and without underline |
| ViewFacts.WidestLineScenario | main_test.go:100-139 | with the test's statistics at widths 80, 100 and 120 the frame has eight lines, none wider than width-2, and the first is exactly width-2 |
| ViewFacts.ScenarioShape | main.go:177-290 | with eight cores and one process on 24 lines the frame is two headline rows, a blank line, two core lines, a blank line, the header and the one process row |
| ViewFacts.ScenarioProcessRow | main.go:283-289 | the test's process row is 38 cells wide when the COMMAND column has room for its command |
| ColonValue.TrimSpace | main.go:523 | the result is a slice of the input framed only by white space, and it neither starts nor ends with white space |
| ColonValue.TrimSpaceIdempotent | main.go:523 | trimming twice is trimming once |
| ColonValue.LeadingSpace | main.go:523 | the count of leading white space: all of it is white space and the next code point is not |
| ColonValue.TrailingSpace | main.go:523 | the count of trailing white space: all of it is white space and the code point before it is not |
| ColonValue.LastIndexOf | main.go:519 | -1 exactly when the character is absent; otherwise a position holding it with none after it |
| ColonValue.ExtractValueAfterLastColon | main.go:518-524 | not found exactly when the line has no colon, and then the value is ""; when found, the value is the trimmed text after a colon that has no colon after it |
| ColonValue.ExtractAfterSplit | main.go:518-524 | for any prefix and colon-free suffix, the result is the trimmed suffix and true |
| ColonValue.ExtractRocmLine | main.go:500-506 | the rocm-smi line "GPU[0]\t\t: GPU use (%): 25" yields "25" |
| ColonValue.ExtractEmptyValue | main.go:518-524 | a trailing colon yields "" and true |
| AnsiStrip.AfterM | main_test.go:156-160 | what the escape-body scan leaves is a suffix of its input, strictly shorter unless empty, and empty when there is no 'm' |
| AnsiStrip.Strip | main_test.go:149-167 | the stripped text is never longer than the input, and is the input itself when it has the same length |
| AnsiStrip.StripAnsiCodes | main_test.go:149-167 | the index-walking scanner computes Strip: a subsequence of the input, and the input itself when it has no ESC |
| AnsiStrip.ScanBytes | main_test.go:151-166 | the outer loop: the bytes copied so far followed by the strip of the unread input always make the strip of the whole input, so the loop ends with Strip(s) |
| AnsiStrip.ScanStep | main_test.go:154-164 | one pass of the outer loop advances the index and, on both the skip and the copy branch, leaves the output so far followed by the strip of the unread input unchanged |
| AnsiStrip.SkipEscapeBody | main_test.go:155-160 | the inner loop resumes just after the first 'm', or past the end of the input |
| AnsiStrip.StripIsSubsequence | main_test.go:149-167 | the output is obtained from the input by deleting bytes only |
| AnsiStrip.StripWithoutEscape | main_test.go:149-167 | input without ESC comes back unchanged |
| AnsiStrip.StripDropsSequence | main_test.go:154-160 | ESC '[' ... 'm' disappears and scanning resumes after the 'm' |
| AnsiStrip.StripUnterminated | main_test.go:157-160 | an escape sequence that never closes drops the rest of the input |
| AnsiStrip.StripKeepsLoneEscape | main_test.go:161-163 | an ESC not followed by '[' is kept |
| AnsiStrip.StripSkipsCode | main_test.go:154-160 | any complete code ESC '[' ... 'm' at the front of the input disappears |
| AnsiStrip.StripReset | main_test.go:154-160 | the reset sequence "\x1b[0m" strips to nothing |
| AnsiStrip.StripPlainPrefix | main_test.go:161-163 | text before the first ESC passes through unchanged |
| AnsiStrip.StripColouredWord | main_test.go:149-167 | any text without ESC between "\x1b[31m" and "\x1b[0m" strips to that text |
| AnsiStrip.StripColouredHi | main_test.go:149-167 | "\x1b[31mhi\x1b[0m" strips to "hi" |

## Left out

- Statistics collection (`collectStats`, `getTopProcesses`, the GPU vendor detection and the `getGPU*` readers) is left out. It is operating-system and subprocess I/O through gopsutil, `nvidia-smi` and `rocm-smi`, plus `strconv.ParseFloat`. Statistics enter the model as a `Stats` value in a snapshot message. Only `extractValueAfterLastColon` is modelled from the GPU readers.
- `main`, `Init`, `tick` and `updateStats` are left out. They are bubbletea runtime plumbing and timers. Commands are the tokens `NoCmd`, `Quit` and `TickAndCollect`.
- Colours and text attributes are abstract. lipgloss output and ANSI escape bytes are not modelled, so a cell's style is one of four tokens. `AnsiStrip` works on bytes and is not connected to the cell model.
- printf formatting is opaque. The percentage, PID and core-label texts come from the `Formats` functions. Lemmas that need a text's length assume it.
- Bars.Filled: floats are modelled as exact reals, so `int(p/100*width)` is the floor of the exact product. Go's float64 rounding can make the count differ by one in either direction: 29% of 100 gives 28 in Go, and the double nearest 2.4 at width 125 gives 3 in Go where the exact product of that double is just below 3. `Memory` is a float32 in main.go and a real here.
- Bars.BarWithTextClamps: reals have no NaN. A NaN percentage passes both comparisons of the clamp at main.go:327-331 and main.go:353-357 unchanged, and `int(NaN*width)` is implementation-defined in Go, so the clamp lemmas hold for non-NaN percentages only.
- Go's `int` is unbounded here. Widths and heights near the 64-bit limits would overflow in Go.
- Strings are sequences of code points. Go strings are UTF-8 bytes, and invalid UTF-8 (which `[]rune` replaces with U+FFFD) is not modelled.
- ViewFacts.ContainsLowered: `strings.ToLower` is modelled on ASCII letters only. The labels the test looks for are ASCII.
- The test assertion at main_test.go:136 is not proved, because the code contradicts it. main.go:160 and main.go:199 subtract 2, so the widest line at widths 80, 100 and 120 is width-2, not width-1 or more. ViewFacts.WidestLineScenario proves the width-2 value.
- The fallback to two bars per line (main.go:210-216) is modelled as written, in `Layout.Degrade`. The code clamps the width to 15 first, so the fallback never runs, and the model follows the code.
