/** Properties of the dashboard's Update and View: what a message changes, how many
    lines a frame has and where its parts sit, and what text it always shows. */
module ViewFacts {
  import opened Cells
  import opened Truncate
  import opened Bars
  import opened Layout
  import opened Dashboard

  // ---------------------------------------------------------------- Update

  /** A message that is neither a resize nor a snapshot leaves the rendered frame as
      it was, whatever command it produces. */
  lemma UpdateKeepsFrame(m: Model, msg: Msg, f: Formats)
    requires !msg.WindowSize? && !msg.StatsUpdate?
    ensures Update(m, msg).0 == m
    ensures View(Update(m, msg).0, f) == View(m, f)
  {
  }

  /** A quit key quits and changes nothing else; any other key does nothing at all. */
  lemma UpdateKeys(m: Model, name: string)
    ensures IsQuitKey(name) ==> Update(m, Key(name)) == (m, Quit)
    ensures !IsQuitKey(name) ==> Update(m, Key(name)) == (m, NoCmd)
  {
  }

  /** After a resize the dashboard shows "Loading..." exactly when the new width is 0. */
  lemma ResizeThenView(m: Model, w: int, h: int, f: Formats)
    ensures View(Update(m, WindowSize(w, h)).0, f) == Text(LoadingText) <==> w == 0
  {
    ViewLoadingIff(Update(m, WindowSize(w, h)).0, f);
  }

  // ---------------------------------------------------------------- frame shape

  lemma {:induction false} NewlineCountConcat(a: seq<Cell>, b: seq<Cell>)
    ensures NewlineCount(a + b) == NewlineCount(a) + NewlineCount(b)
    decreases |a|
  {
    if a != [] {
      assert (a + b)[1..] == a[1..] + b;
      NewlineCountConcat(a[1..], b);
    } else {
      assert a + b == b;
    }
  }

  /** Joining lines writes at least one newline per line. */
  lemma {:induction false} JoinNewlines(lines: seq<seq<Cell>>)
    ensures NewlineCount(Join(lines)) >= |lines|
    decreases |lines|
  {
    if lines != [] {
      JoinNewlines(lines[1..]);
      NewlineCountConcat(lines[0] + [Newline], Join(lines[1..]));
      NewlineCountConcat(lines[0], [Newline]);
    }
  }

  lemma LoadingHasNoNewline()
    ensures NewlineCount(Text(LoadingText)) == 0
  {
    var t := Text(LoadingText);
    assert forall i :: 0 <= i < |t| ==> t[i] != Newline;
    NoNewlineCount(t);
  }

  lemma {:induction false} NoNewlineCount(cells: seq<Cell>)
    requires forall i :: 0 <= i < |cells| ==> cells[i] != Newline
    ensures NewlineCount(cells) == 0
    decreases |cells|
  {
    if cells != [] {
      NoNewlineCount(cells[1..]);
    }
  }

  /** The frame has the lines View accounts for: the LinesUsed reserved lines (the
      budget counts exactly the core lines written) and then the shown processes. */
  lemma FrameLineCount(m: Model, f: Formats)
    ensures |FrameLines(m, f)| == FrameLinesUsed(m) + ShownProcesses(m)
    ensures |FrameLines(m, f)| >= 5
  {
    var grid := CoreLayout(m.width);
    ChunksCount(|m.stats.cpuCores|, grid.perLine, 0);
  }

  /** The dashboard shows "Loading..." exactly while the width is unknown; any other
      width yields a frame of at least five newline-terminated lines. */
  lemma ViewLoadingIff(m: Model, f: Formats)
    ensures View(m, f) == Text(LoadingText) <==> m.width == 0
    ensures m.width != 0 ==> NewlineCount(View(m, f)) >= 5
  {
    LoadingHasNoNewline();
    if m.width != 0 {
      FrameLineCount(m, f);
      JoinNewlines(FrameLines(m, f));
    }
  }

  /** The table header sits right after the reserved lines above it, and the process
      rows that follow are the first ShownProcesses(m) processes, in order, each with
      its command truncated to the COMMAND column width. */
  lemma FrameProcessRows(m: Model, f: Formats)
    ensures |FrameLines(m, f)| == FrameLinesUsed(m) + ShownProcesses(m) && FrameLinesUsed(m) >= 5
    ensures FrameLines(m, f)[FrameLinesUsed(m) - 1] == Paint(HeaderText(), Header)
    ensures forall i :: 0 <= i < ShownProcesses(m) ==>
      FrameLines(m, f)[FrameLinesUsed(m) + i] == ProcessRow(m.stats.processes[i], f, CommandWidth(m.width))
  {
    var top := FrameTop(m, f);
    ProcessTable(FrameLines(m, f), FrameLinesUsed(m), top, Paint(HeaderText(), Header),
      m.stats.processes, ShownProcesses(m), f, CommandWidth(m.width));
  }

  /** The lines above the table's blank line and header: the two headline rows, a
      blank line and the core rows, FrameLinesUsed(m) - 2 of them. */
  lemma FrameTop(m: Model, f: Formats) returns (top: seq<seq<Cell>>)
    ensures |top| + 2 == FrameLinesUsed(m)
    ensures FrameLines(m, f) == top + [[], Paint(HeaderText(), Header)]
      + ProcessRows(m.stats.processes[..ShownProcesses(m)], f, CommandWidth(m.width))
  {
    var st := m.stats;
    var barWidth := HeadlineBarWidth(m.width);
    var grid := CoreLayout(m.width);
    top := [UsageRow(st, f, barWidth), MemoryRow(st, f, barWidth), []] + CoreRows(st.cpuCores, f, grid);
    ChunksCount(|st.cpuCores|, grid.perLine, 0);
  }

  /** Lines made of `top`, a blank line, a header and the rows of the first n processes:
      the header is the last of the `used` lines before the first row, and the row of
      process i sits i lines after it. */
  lemma ProcessTable(lines: seq<seq<Cell>>, used: int, top: seq<seq<Cell>>, header: seq<Cell>,
                     procs: seq<Process>, n: int, f: Formats, commandWidth: int)
    requires 0 <= n <= |procs|
    requires lines == top + [[], header] + ProcessRows(procs[..n], f, commandWidth)
    requires used == |top| + 2
    ensures |lines| == used + n && lines[used - 1] == header
    ensures forall i :: 0 <= i < n ==> lines[used + i] == ProcessRow(procs[i], f, commandWidth)
  {
    var rows := ProcessRows(procs[..n], f, commandWidth);
    TableLines(lines, used, top, [], header, rows);
    forall i | 0 <= i < n
      ensures lines[used + i] == ProcessRow(procs[i], f, commandWidth)
    {
      ShownRow(procs, n, f, commandWidth, i);
    }
  }

  /** Where the header and each row sit in `top`, a blank line, a header and the rows. */
  lemma TableLines<T>(lines: seq<T>, used: int, top: seq<T>, blank: T, header: T, rows: seq<T>)
    requires lines == top + [blank, header] + rows
    requires used == |top| + 2
    ensures |lines| == used + |rows| && lines[used - 1] == header
    ensures forall i :: 0 <= i < |rows| ==> lines[used + i] == rows[i]
  {
  }

  /** Row i of the first n processes' rows is the row of process i. */
  lemma ShownRow(procs: seq<Process>, n: int, f: Formats, commandWidth: int, i: int)
    requires 0 <= i < n <= |procs|
    ensures ProcessRows(procs[..n], f, commandWidth)[i] == ProcessRow(procs[i], f, commandWidth)
  {
    assert procs[..n][i] == procs[i];
  }

  /** Shown processes: all of them when they fit, otherwise as many as there are
      available lines; when the planned height leaves room for at least one process,
      the frame (with its bottom margin) fits in the planned height. */
  lemma FrameFitsHeight(m: Model, f: Formats)
    ensures ShownProcesses(m) == Min(|m.stats.processes|, AvailableLines(m.height, FrameLinesUsed(m)))
    ensures PlannedHeight(m.height) - FrameLinesUsed(m) - BottomMargin >= 1 ==>
      |FrameLines(m, f)| + BottomMargin <= PlannedHeight(m.height)
  {
    FrameLineCount(m, f);
  }

  // ---------------------------------------------------------------- core lines

  /** Cell count of a core line whose bars all have room for their texts: a full line
      is perLine bars with a gap between neighbours; a shorter last line has a gap
      after every bar, including its last. */
  lemma {:induction false} CoreRowLength(cores: seq<real>, f: Formats, row: seq<nat>, grid: CoreGrid, j: nat)
    requires forall t :: 0 <= t < |row| ==> row[t] < |cores|
    requires j <= |row| <= grid.perLine
    requires forall t :: 0 <= t < |row| ==>
      |f.coreLabel(row[t])| + |f.percent41(cores[row[t]])| < grid.barWidth
    ensures |CoreRowFrom(cores, f, row, grid, j)|
         == (|row| - j) * (grid.barWidth + BarSpacing) - (if |row| == grid.perLine && j < |row| then BarSpacing else 0)
    decreases |row| - j
  {
    if j < |row| {
      CoreRowStep(cores, f, row, grid, j);
      CoreRowLength(cores, f, row, grid, j + 1);
      MulStep(|row| - j, grid.barWidth + BarSpacing);
    }
  }

  /** One bar of a core line: its bar, then the gap unless it ends a full line. */
  lemma CoreRowStep(cores: seq<real>, f: Formats, row: seq<nat>, grid: CoreGrid, j: nat)
    requires forall t :: 0 <= t < |row| ==> row[t] < |cores|
    requires j < |row|
    requires |f.coreLabel(row[j])| + |f.percent41(cores[row[j]])| < grid.barWidth
    ensures |CoreRowFrom(cores, f, row, grid, j)|
         == grid.barWidth + (if j < grid.perLine - 1 then BarSpacing else 0) + |CoreRowFrom(cores, f, row, grid, j + 1)|
  {
  }

  /** Peeling one factor off a product. */
  lemma MulStep(k: int, w: int)
    ensures k * w == (k - 1) * w + w
  {
  }

  // ---------------------------------------------------------------- shown text

  predicate OccursAt(hay: string, needle: string, i: int)
  {
    0 <= i && i + |needle| <= |hay| && hay[i..i + |needle|] == needle
  }

  /** `needle` appears somewhere in `hay` (strings.Contains). */
  ghost predicate Contains(hay: string, needle: string)
  {
    exists i :: OccursAt(hay, needle, i)
  }

  lemma ContainsInside(a: string, b: string, c: string, needle: string)
    requires Contains(b, needle)
    ensures Contains(a + b + c, needle)
  {
    var i :| OccursAt(b, needle, i);
    assert (a + b + c)[|a| + i..|a| + i + |needle|] == b[i..i + |needle|];
    assert OccursAt(a + b + c, needle, |a| + i);
  }

  lemma ContainsPrefix(s: string, needle: string)
    requires |needle| <= |s| && s[..|needle|] == needle
    ensures Contains(s, needle)
  {
    assert OccursAt(s, needle, 0);
  }

  lemma {:induction false} JoinSplit(lines: seq<seq<Cell>>, k: nat)
    requires k < |lines|
    ensures Join(lines) == Join(lines[..k]) + lines[k] + ([Newline] + Join(lines[k + 1..]))
    decreases k
  {
    if k > 0 {
      JoinSplit(lines[1..], k - 1);
      assert Join(lines) == lines[0] + [Newline] + Join(lines[1..]);
      assert lines[1..][..k - 1] == lines[1..k];
      assert lines[1..][k - 1] == lines[k];
      assert lines[1..][k..] == lines[k + 1..];
      assert Join(lines[..k]) == lines[0] + [Newline] + Join(lines[1..k]) by {
        assert lines[..k][1..] == lines[1..k];
      }
    } else {
      assert lines[..0] == [];
    }
  }

  /** Text shown by some cells is shown by any run of cells around them. */
  lemma CellsInside(a: seq<Cell>, b: seq<Cell>, c: seq<Cell>, needle: string)
    requires Contains(Chars(b), needle)
    ensures Contains(Chars(a + b + c), needle)
  {
    CharsConcat(a + b, c);
    CharsConcat(a, b);
    ContainsInside(Chars(a), Chars(b), Chars(c), needle);
  }

  /** Text shown on one line is shown by the joined frame. */
  lemma LineInJoin(lines: seq<seq<Cell>>, k: nat, needle: string)
    requires k < |lines|
    requires Contains(Chars(lines[k]), needle)
    ensures Contains(Chars(Join(lines)), needle)
  {
    JoinSplit(lines, k);
    var before := Join(lines[..k]);
    var after := [Newline] + Join(lines[k + 1..]);
    CellsInside(before, lines[k], after, needle);
  }

  /** A headline row shows the labels of both of its bars. */
  lemma RowShowsLabels(left: seq<Cell>, right: seq<Cell>, leftName: string, rightName: string)
    requires |leftName| <= |left| && Chars(left)[..|leftName|] == leftName
    requires |rightName| <= |right| && Chars(right)[..|rightName|] == rightName
    ensures Contains(Chars(left + Gap() + right), leftName)
    ensures Contains(Chars(left + Gap() + right), rightName)
  {
    var l, g, r := Chars(left), Chars(Gap()), Chars(right);
    assert "" + l + (g + r) == l + g + r;
    assert l + g + r + "" == l + g + r;
    CharsConcat(left + Gap(), right);
    CharsConcat(left, Gap());
    PrefixShows("", l, g + r, leftName);
    PrefixShows(l + g, r, "", rightName);
  }

  /** A text that starts a middle part shows in the whole. */
  lemma PrefixShows(a: string, b: string, c: string, needle: string)
    requires |needle| <= |b| && b[..|needle|] == needle
    ensures Contains(a + b + c, needle)
  {
    ContainsPrefix(b, needle);
    ContainsInside(a, b, c, needle);
  }

  lemma HeaderShowsColumns()
    ensures Contains(HeaderText(), "PID")
    ensures Contains(HeaderText(), "COMMAND")
  {
    var h := HeaderText();
    assert h[..3] == h[..10][..3];
    assert h[25..32] == h[23..][2..];
    PidColumnStarts();
    CommandColumnEnds();
    assert OccursAt(h, "PID", 0);
    assert OccursAt(h, "COMMAND", 25);
  }

  lemma PidColumnStarts()
    ensures "PID       "[..3] == "PID"
  {
  }

  lemma CommandColumnEnds()
    ensures "  COMMAND"[2..] == "COMMAND"
  {
  }

  /** Every frame shows the four headline labels and the PID and COMMAND column names,
      whatever the size, the statistics and the number formats. */
  lemma ViewShowsLabels(m: Model, f: Formats)
    requires m.width != 0
    ensures Contains(Chars(View(m, f)), "CPU Usage")
    ensures Contains(Chars(View(m, f)), "GPU Usage")
    ensures Contains(Chars(View(m, f)), "Memory")
    ensures Contains(Chars(View(m, f)), "GPU Memory")
    ensures Contains(Chars(View(m, f)), "PID")
    ensures Contains(Chars(View(m, f)), "COMMAND")
  {
    var st := m.stats;
    var w := HeadlineBarWidth(m.width);
    var lines := FrameLines(m, f);
    FrameProcessRows(m, f);
    FrameLineCount(m, f);
    var cpu := HeadlineBar("CPU Usage", f.percent51(st.cpuUsage), st.cpuUsage, w);
    var gpu := HeadlineBar("GPU Usage", f.percent30(st.gpuUsage), st.gpuUsage, w);
    var mem := HeadlineBar("Memory", f.percent51(st.memoryUsage), st.memoryUsage, w);
    var gmem := HeadlineBar("GPU Memory", f.percent41(st.gpuMemory), st.gpuMemory, w);
    BarStartsWithLabel("CPU Usage", f.percent51(st.cpuUsage), st.cpuUsage, w, Look(BandOf(st.cpuUsage), true));
    BarStartsWithLabel("GPU Usage", f.percent30(st.gpuUsage), st.gpuUsage, w, Look(BandOf(st.gpuUsage), true));
    BarStartsWithLabel("Memory", f.percent51(st.memoryUsage), st.memoryUsage, w, Look(BandOf(st.memoryUsage), true));
    BarStartsWithLabel("GPU Memory", f.percent41(st.gpuMemory), st.gpuMemory, w, Look(BandOf(st.gpuMemory), true));
    RowShowsLabels(cpu, gpu, "CPU Usage", "GPU Usage");
    RowShowsLabels(mem, gmem, "Memory", "GPU Memory");
    assert lines[0] == cpu + Gap() + gpu;
    assert lines[1] == mem + Gap() + gmem;
    LineInJoin(lines, 0, "CPU Usage");
    LineInJoin(lines, 0, "GPU Usage");
    LineInJoin(lines, 1, "Memory");
    LineInJoin(lines, 1, "GPU Memory");
    HeaderShowsColumns();
    CharsPaint(HeaderText(), Header);
    LineInJoin(lines, FrameLinesUsed(m) - 1, "PID");
    LineInJoin(lines, FrameLinesUsed(m) - 1, "COMMAND");
  }

  // ---------------------------------------------------------------- case folding

  /** Lower-casing of ASCII letters; every other code point is left alone. */
  function AsciiLower(c: char): char
  {
    if 'A' <= c <= 'Z' then (c as int + 32) as char else c
  }

  function LowerAll(s: string): (r: string)
    ensures |r| == |s|
    ensures forall i :: 0 <= i < |s| ==> r[i] == AsciiLower(s[i])
  {
    seq(|s|, i requires 0 <= i < |s| => AsciiLower(s[i]))
  }

  /** Containment survives case folding of both sides. */
  lemma ContainsLowered(hay: string, needle: string)
    requires Contains(hay, needle)
    ensures Contains(LowerAll(hay), LowerAll(needle))
  {
    var i :| OccursAt(hay, needle, i);
    var lh := LowerAll(hay);
    forall t | 0 <= t < |needle|
      ensures lh[i..i + |needle|][t] == LowerAll(needle)[t]
    {
      assert hay[i..i + |needle|][t] == needle[t];
    }
    assert OccursAt(lh, LowerAll(needle), i);
  }

  /** The rendering check of the repository's tests: at 80 x 24 with four cores and one
      process the frame has seven lines (so splitting the text at newlines gives at
      least five pieces), and its lower-cased text contains "cpu usage", "memory",
      "gpu usage", "pid" and "command". */
  lemma RenderScenario(st: Stats, f: Formats)
    requires |st.cpuCores| == 4 && |st.processes| == 1
    ensures |FrameLines(Model(st, 80, 24), f)| == 7
    ensures NewlineCount(View(Model(st, 80, 24), f)) >= 5
    ensures Contains(LowerAll(Chars(View(Model(st, 80, 24), f))), "cpu usage")
    ensures Contains(LowerAll(Chars(View(Model(st, 80, 24), f))), "memory")
    ensures Contains(LowerAll(Chars(View(Model(st, 80, 24), f))), "gpu usage")
    ensures Contains(LowerAll(Chars(View(Model(st, 80, 24), f))), "pid")
    ensures Contains(LowerAll(Chars(View(Model(st, 80, 24), f))), "command")
  {
    var m := Model(st, 80, 24);
    FrameLineCount(m, f);
    ViewLoadingIff(m, f);
    ViewShowsLabels(m, f);
    var text := Chars(View(m, f));
    LowerLabels();
    ContainsLowered(text, "CPU Usage");
    ContainsLowered(text, "Memory");
    ContainsLowered(text, "GPU Usage");
    ContainsLowered(text, "PID");
    ContainsLowered(text, "COMMAND");
  }

  lemma LowerLabels()
    ensures LowerAll("CPU Usage") == "cpu usage"
    ensures LowerAll("Memory") == "memory"
    ensures LowerAll("GPU Usage") == "gpu usage"
    ensures LowerAll("PID") == "pid"
    ensures LowerAll("COMMAND") == "command"
  {
  }

  // ---------------------------------------------------------------- widths

  /** When both bars of the first headline row have room for their texts, the row is
      two bars and the gap between them, HeadlineRowWidth cells, at every width. */
  lemma UsageRowLength(m: Model, f: Formats)
    requires 9 + |f.percent51(m.stats.cpuUsage)| < HeadlineBarWidth(m.width)
    requires 9 + |f.percent30(m.stats.gpuUsage)| < HeadlineBarWidth(m.width)
    ensures |FrameLines(m, f)[0]| == HeadlineRowWidth(m.width)
  {
  }

  /** The same for the second headline row. */
  lemma MemoryRowLength(m: Model, f: Formats)
    requires 6 + |f.percent51(m.stats.memoryUsage)| < HeadlineBarWidth(m.width)
    requires 10 + |f.percent41(m.stats.gpuMemory)| < HeadlineBarWidth(m.width)
    ensures |FrameLines(m, f)[1]| == HeadlineRowWidth(m.width)
  {
  }

  /** For an even width of at least 44, when each headline bar has room for its texts,
      both headline rows are exactly width-2 cells wide. */
  lemma HeadlineRowsSpan(m: Model, f: Formats)
    requires m.width >= 44 && m.width % 2 == 0
    requires 9 + |f.percent51(m.stats.cpuUsage)| < HeadlineBarWidth(m.width)
    requires 9 + |f.percent30(m.stats.gpuUsage)| < HeadlineBarWidth(m.width)
    requires 6 + |f.percent51(m.stats.memoryUsage)| < HeadlineBarWidth(m.width)
    requires 10 + |f.percent41(m.stats.gpuMemory)| < HeadlineBarWidth(m.width)
    ensures |FrameLines(m, f)[0]| == m.width - 2
    ensures |FrameLines(m, f)[1]| == m.width - 2
  {
    UsageRowLength(m, f);
    MemoryRowLength(m, f);
    HeadlineRowSpan(m.width);
  }

  /** From a width of 68 on, a full core line whose bars have room for their texts
      fits in width-2 cells. */
  lemma CoreRowsFit(m: Model, f: Formats, r: nat)
    requires m.width >= 68
    requires r < |Chunks(|m.stats.cpuCores|, CoresPerLine, 0)|
    requires forall k :: 0 <= k < |m.stats.cpuCores| ==>
      |f.coreLabel(k)| + |f.percent41(m.stats.cpuCores[k])| < CoreLayout(m.width).barWidth
    ensures |CoreRows(m.stats.cpuCores, f, CoreLayout(m.width))[r]| <= m.width - 2
  {
    var grid := CoreLayout(m.width);
    var row := Chunks(|m.stats.cpuCores|, CoresPerLine, 0)[r];
    assert CoreRows(m.stats.cpuCores, f, grid)[r] == CoreRowFrom(m.stats.cpuCores, f, row, grid, 0);
    CoreRowLength(m.stats.cpuCores, f, row, grid, 0);
    CoreLineWithin(grid, |row|, m.width - Margin);
  }

  /** k bars of a four-bar grid, with a gap after each except the last of a full line,
      take no more room than a full line. */
  lemma CoreLineWithin(grid: CoreGrid, k: int, room: int)
    requires grid.perLine == CoresPerLine && grid.barWidth >= 0 && 0 < k <= grid.perLine
    requires CoreRowWidth(grid) <= room
    ensures k * (grid.barWidth + BarSpacing) - (if k == grid.perLine then BarSpacing else 0) <= room
  {
    if k < CoresPerLine {
      assert k * (grid.barWidth + BarSpacing) <= 3 * (grid.barWidth + BarSpacing);
    }
  }

  // ---------------------------------------------------------------- process rows

  /** A process row reads PID column, a space, the CPU column, two spaces, the memory
      column, two spaces and the truncated command; only the CPU and memory columns
      are coloured, each in the band of its own value and not underlined. */
  lemma ProcessRowLayout(p: Process, f: Formats, commandWidth: int)
    ensures Chars(ProcessRow(p, f, commandWidth))
         == f.pidColumn(p.pid) + " " + f.fixed51(p.cpu) + "  " + f.fixed51(p.memory) + "  " + TruncateLeft(p.command, commandWidth)
    ensures Styles(ProcessRow(p, f, commandWidth))
         == Repeat(Unstyled, |f.pidColumn(p.pid)| + 1)
          + Repeat(Plain(Look(BandOf(p.cpu), false)), |f.fixed51(p.cpu)|)
          + Repeat(Unstyled, 2)
          + Repeat(Plain(Look(BandOf(p.memory), false)), |f.fixed51(p.memory)|)
          + Repeat(Unstyled, 2 + |TruncateLeft(p.command, commandWidth)|)
  {
    var a := Text(f.pidColumn(p.pid) + " ");
    var b := Paint(f.fixed51(p.cpu), Plain(Look(BandOf(p.cpu), false)));
    var c := Text("  ");
    var d := Paint(f.fixed51(p.memory), Plain(Look(BandOf(p.memory), false)));
    var e := Text("  " + TruncateLeft(p.command, commandWidth));
    assert ProcessRow(p, f, commandWidth) == a + b + c + d + e;
    CharsConcat(a + b + c + d, e);
    CharsConcat(a + b + c, d);
    CharsConcat(a + b, c);
    CharsConcat(a, b);
    CharsPaint(f.pidColumn(p.pid) + " ", Unstyled);
    CharsPaint(f.fixed51(p.cpu), Plain(Look(BandOf(p.cpu), false)));
    CharsPaint("  ", Unstyled);
    CharsPaint(f.fixed51(p.memory), Plain(Look(BandOf(p.memory), false)));
    CharsPaint("  " + TruncateLeft(p.command, commandWidth), Unstyled);
    StylesConcat(a + b + c + d, e);
    StylesConcat(a + b + c, d);
    StylesConcat(a + b, c);
    StylesConcat(a, b);
    StylesPaint(f.pidColumn(p.pid) + " ", Unstyled);
    StylesPaint(f.fixed51(p.cpu), Plain(Look(BandOf(p.cpu), false)));
    StylesPaint("  ", Unstyled);
    StylesPaint(f.fixed51(p.memory), Plain(Look(BandOf(p.memory), false)));
    StylesPaint("  " + TruncateLeft(p.command, commandWidth), Unstyled);
  }

  /** The progress-bar width check of the repository's tests, with the texts fmt
      produces for its statistics (percent texts of at most 7 characters, core labels
      of 5, a 10-column PID and 5-column CPU and memory values): at widths 80, 100
      and 120 the frame has eight lines, none wider than width-2 cells, and the first
      is exactly width-2 wide. The widest line is therefore width-2, one short of the
      width-1 that test demands. */
  lemma WidestLineScenario(st: Stats, f: Formats, w: int)
    requires w == 80 || w == 100 || w == 120
    requires |st.cpuCores| == 8
    requires st.processes == [Process(1234, 10.5, 5.2, "/usr/bin/test")]
    requires |f.percent51(st.cpuUsage)| <= 7 && |f.percent30(st.gpuUsage)| <= 7
    requires |f.percent51(st.memoryUsage)| <= 7 && |f.percent41(st.gpuMemory)| <= 7
    requires forall k :: 0 <= k < |st.cpuCores| ==> |f.coreLabel(k)| == 5 && |f.percent41(st.cpuCores[k])| <= 7
    requires |f.pidColumn(1234)| == 10 && |f.fixed51(10.5)| == 5 && |f.fixed51(5.2)| == 5
    ensures |FrameLines(Model(st, w, 24), f)| == 8
    ensures |FrameLines(Model(st, w, 24), f)[0]| == w - 2
    ensures forall i :: 0 <= i < 8 ==> |FrameLines(Model(st, w, 24), f)[i]| <= w - 2
  {
    var m := Model(st, w, 24);
    ScenarioShape(st, f, w);
    HeadlineRowsSpan(m, f);
    CoreRowsFit(m, f, 0);
    CoreRowsFit(m, f, 1);
    ScenarioProcessRow(f, CommandWidth(w));
    assert |HeaderText()| == 32;
    EightLinesWithin(FrameLines(m, f), w - 2);
  }

  /** Eight lines each checked against the bound are all within it. */
  lemma EightLinesWithin(lines: seq<seq<Cell>>, bound: int)
    requires |lines| == 8
    requires |lines[0]| <= bound && |lines[1]| <= bound && |lines[2]| <= bound && |lines[3]| <= bound
    requires |lines[4]| <= bound && |lines[5]| <= bound && |lines[6]| <= bound && |lines[7]| <= bound
    ensures forall i :: 0 <= i < 8 ==> |lines[i]| <= bound
  {
  }

  /** The line structure of a frame with eight cores and one process on 24 lines. */
  lemma ScenarioShape(st: Stats, f: Formats, w: int)
    requires |st.cpuCores| == 8 && |st.processes| == 1
    ensures |Chunks(8, CoresPerLine, 0)| == 2
    ensures |FrameLines(Model(st, w, 24), f)| == 8
    ensures FrameLines(Model(st, w, 24), f)[2] == [] && FrameLines(Model(st, w, 24), f)[5] == []
    ensures FrameLines(Model(st, w, 24), f)[3] == CoreRows(st.cpuCores, f, CoreLayout(w))[0]
    ensures FrameLines(Model(st, w, 24), f)[4] == CoreRows(st.cpuCores, f, CoreLayout(w))[1]
    ensures FrameLines(Model(st, w, 24), f)[6] == Paint(HeaderText(), Header)
    ensures FrameLines(Model(st, w, 24), f)[7] == ProcessRow(st.processes[0], f, CommandWidth(w))
  {
    var m := Model(st, w, 24);
    ChunksCount(8, CoresPerLine, 0);
    assert CoreLines(8, CoresPerLine) == 2;
    FrameProcessRows(m, f);
    assert ShownProcesses(m) == 1;
  }

  /** The test's process row, "/usr/bin/test" with a 10-column PID and 5-column values,
      is 38 cells wide whenever the COMMAND column has room for the command. */
  lemma ScenarioProcessRow(f: Formats, commandWidth: int)
    requires commandWidth >= 13
    requires |f.pidColumn(1234)| == 10 && |f.fixed51(10.5)| == 5 && |f.fixed51(5.2)| == 5
    ensures |ProcessRow(Process(1234, 10.5, 5.2, "/usr/bin/test"), f, commandWidth)| == 38
  {
    var p := Process(1234, 10.5, 5.2, "/usr/bin/test");
    ProcessRowLayout(p, f, commandWidth);
    assert TruncateLeft(p.command, commandWidth) == p.command;
  }
}
