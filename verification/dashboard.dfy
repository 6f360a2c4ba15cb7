/** The dashboard model of main.go: the state it keeps, its message handler
    (model.Update) and the frame it renders (model.View), as rows of styled cells. */
module Dashboard {
  import opened Cells
  import opened Truncate
  import opened Bars
  import opened Layout

  /** One row of the process table (ProcessInfo). */
  datatype Process = Process(pid: int, cpu: real, memory: real, command: string)

  /** One snapshot of the machine (SystemStats). */
  datatype Stats = Stats(
    cpuUsage: real,
    gpuUsage: real,
    memoryUsage: real,
    gpuMemory: real,
    cpuCores: seq<real>,
    processes: seq<Process>)

  /** The UI state (model): the latest snapshot and the terminal size, 0 x 0 until known. */
  datatype Model = Model(stats: Stats, width: int, height: int)

  /** The messages Update distinguishes. */
  datatype Msg =
    | WindowSize(newWidth: int, newHeight: int)
    | Key(name: string)
    | Tick
    | StatsUpdate(snapshot: Stats)
    | OtherMsg

  /** The commands Update hands back to the runtime: none, quit, or the batch that
      schedules the next tick and a fresh collection of statistics. */
  datatype Cmd = NoCmd | Quit | TickAndCollect

  predicate IsQuitKey(name: string)
  {
    name == "q" || name == "Q" || name == "ctrl+c" || name == "esc"
  }

  /** model.Update: a resize stores the new size, a quit key asks to quit, a tick asks
      for the next tick and a new snapshot, a snapshot replaces the statistics, and
      nothing else has any effect. */
  function Update(m: Model, msg: Msg): (r: (Model, Cmd))
    ensures r.1 == Quit <==> msg.Key? && IsQuitKey(msg.name)
    ensures r.1 == TickAndCollect <==> msg.Tick?
    ensures r.0.stats == (if msg.StatsUpdate? then msg.snapshot else m.stats)
    ensures r.0.width == (if msg.WindowSize? then msg.newWidth else m.width)
    ensures r.0.height == (if msg.WindowSize? then msg.newHeight else m.height)
  {
    match msg
    case WindowSize(w, h) => (m.(width := w, height := h), NoCmd)
    case Key(name) => if IsQuitKey(name) then (m, Quit) else (m, NoCmd)
    case Tick => (m, TickAndCollect)
    case StatsUpdate(s) => (m.(stats := s), NoCmd)
    case OtherMsg => (m, NoCmd)
  }

  /** The printf conversions of View, left abstract: each maps a number to its text. */
  datatype Formats = Formats(
    percent51: real -> string,   // "%5.1f%%"
    percent30: real -> string,   // "%3.0f%%"
    percent41: real -> string,   // "%4.1f%%"
    fixed51: real -> string,     // "%5.1f"
    coreLabel: nat -> string,    // "CPU%02d"
    pidColumn: int -> string)    // "%-10d"

  const Newline: Cell := Cell('\n', Unstyled)

  /** Plain text with no styling. */
  function Text(s: string): seq<Cell>
  {
    Paint(s, Unstyled)
  }

  /** The two spaces written between bars. */
  function Gap(): seq<Cell>
  {
    Text("  ")
  }

  /** fmt's "%-Ns" and "%Ns" on strings: pad with spaces on the right or on the left. */
  function PadRight(s: string, n: nat): (r: string)
    ensures |r| == Max(|s|, n) && r[..|s|] == s
  {
    if |s| >= n then s else s + Repeat(' ', n - |s|)
  }

  function PadLeft(s: string, n: nat): (r: string)
    ensures |r| == Max(|s|, n) && r[|r| - |s|..] == s
  {
    if |s| >= n then s else Repeat(' ', n - |s|) + s
  }

  /** The process table header, "%-10s %5s  %5s  %s" applied to the column names: PID
      left-aligned in 10 columns, CPU% and MEM% right-aligned in 5, then COMMAND. */
  function HeaderText(): (h: string)
    ensures |h| == 32
    ensures h[..10] == "PID       " && h[10..16] == "  CPU%" && h[16..23] == "   MEM%" && h[23..] == "  COMMAND"
  {
    var pid := PadRight("PID", 10);
    var cpu := " " + PadLeft("CPU%", 5);
    var mem := "  " + PadLeft("MEM%", 5);
    var command := "  " + "COMMAND";
    assert pid == "PID       " && cpu == "  CPU%" && mem == "   MEM%" && command == "  COMMAND";
    FourColumns(pid, cpu, mem, command);
    pid + cpu + mem + command
  }

  /** Each of four concatenated columns can be sliced back out at its offset. */
  lemma FourColumns(a: string, b: string, c: string, d: string)
    ensures var h := a + b + c + d;
      && h[..|a|] == a && h[|a|..|a| + |b|] == b
      && h[|a| + |b|..|a| + |b| + |c|] == c && h[|a| + |b| + |c|..] == d
  {
  }

  /** A headline bar: band colour of the raw value, underlined. */
  function HeadlineBar(name: string, percentText: string, percent: real, barWidth: int): seq<Cell>
  {
    BarWithText(name, percentText, percent, barWidth, Look(BandOf(percent), true))
  }

  /** The first headline row: CPU usage, two spaces, GPU usage. */
  function UsageRow(st: Stats, f: Formats, barWidth: int): seq<Cell>
  {
    HeadlineBar("CPU Usage", f.percent51(st.cpuUsage), st.cpuUsage, barWidth) + Gap()
      + HeadlineBar("GPU Usage", f.percent30(st.gpuUsage), st.gpuUsage, barWidth)
  }

  /** The second headline row: memory, two spaces, GPU memory. */
  function MemoryRow(st: Stats, f: Formats, barWidth: int): seq<Cell>
  {
    HeadlineBar("Memory", f.percent51(st.memoryUsage), st.memoryUsage, barWidth) + Gap()
      + HeadlineBar("GPU Memory", f.percent41(st.gpuMemory), st.gpuMemory, barWidth)
  }

  /** The bar of core `k`: band colour of its value, underlined. */
  function CoreBar(cores: seq<real>, f: Formats, k: nat, barWidth: int): seq<Cell>
    requires k < |cores|
  {
    BarWithText(f.coreLabel(k), f.percent41(cores[k]), cores[k], barWidth, Look(BandOf(cores[k]), true))
  }

  /** The bars of one core line from position `j` of the line on; every bar except the
      one in the last position of a full line (j == perLine-1) is followed by two spaces,
      so a short last line ends in two spaces. */
  function CoreRowFrom(cores: seq<real>, f: Formats, row: seq<nat>, grid: CoreGrid, j: nat): seq<Cell>
    requires forall t :: 0 <= t < |row| ==> row[t] < |cores|
    requires j <= |row|
    decreases |row| - j
  {
    if j == |row| then []
    else
      CoreBar(cores, f, row[j], grid.barWidth) + (if j < grid.perLine - 1 then Gap() else [])
        + CoreRowFrom(cores, f, row, grid, j + 1)
  }

  /** The core lines of the frame, one per row of the grid. */
  function CoreRows(cores: seq<real>, f: Formats, grid: CoreGrid): (lines: seq<seq<Cell>>)
    requires grid.perLine > 0
  {
    var rows := Chunks(|cores|, grid.perLine, 0);
    seq(|rows|, r requires 0 <= r < |rows| => CoreRowFrom(cores, f, rows[r], grid, 0))
  }

  /** One process row, "%-10d %s  %s  %s": the PID column, the CPU and memory columns in
      their band colours (not underlined), and the command truncated from the left. */
  function ProcessRow(p: Process, f: Formats, commandWidth: int): (row: seq<Cell>)
    ensures |row| == |f.pidColumn(p.pid)| + 1 + |f.fixed51(p.cpu)| + 2 + |f.fixed51(p.memory)| + 2
                     + Min(|p.command|, Max(commandWidth, 0))
  {
    Text(f.pidColumn(p.pid) + " ")
      + Paint(f.fixed51(p.cpu), Plain(Look(BandOf(p.cpu), false)))
      + Text("  ")
      + Paint(f.fixed51(p.memory), Plain(Look(BandOf(p.memory), false)))
      + Text("  " + TruncateLeft(p.command, commandWidth))
  }

  function ProcessRows(procs: seq<Process>, f: Formats, commandWidth: int): (lines: seq<seq<Cell>>)
    ensures |lines| == |procs|
  {
    seq(|procs|, i requires 0 <= i < |procs| => ProcessRow(procs[i], f, commandWidth))
  }

  /** The number of lines View reserves above the process rows. */
  function FrameLinesUsed(m: Model): int
  {
    LinesUsed(CoreLines(|m.stats.cpuCores|, CoreLayout(m.width).perLine))
  }

  /** Number of processes View lists. */
  function ShownProcesses(m: Model): nat
  {
    ProcessRowCount(AvailableLines(m.height, FrameLinesUsed(m)), |m.stats.processes|)
  }

  /** The lines of a frame, each written with a trailing newline: two headline rows, a
      blank line, the core lines, a blank line, the table header and the process rows. */
  function FrameLines(m: Model, f: Formats): seq<seq<Cell>>
  {
    var st := m.stats;
    var barWidth := HeadlineBarWidth(m.width);
    var grid := CoreLayout(m.width);
    [UsageRow(st, f, barWidth), MemoryRow(st, f, barWidth), []]
      + CoreRows(st.cpuCores, f, grid)
      + [[], Paint(HeaderText(), Header)]
      + ProcessRows(st.processes[..ShownProcesses(m)], f, CommandWidth(m.width))
  }

  /** Lines joined, each followed by a newline cell. */
  function Join(lines: seq<seq<Cell>>): seq<Cell>
  {
    if lines == [] then [] else lines[0] + [Newline] + Join(lines[1..])
  }

  /** Number of newline cells in a run of cells. */
  function NewlineCount(cells: seq<Cell>): (n: nat)
    ensures n <= |cells|
  {
    if cells == [] then 0 else (if cells[0] == Newline then 1 else 0) + NewlineCount(cells[1..])
  }

  const LoadingText := "Loading..."

  /** model.View: "Loading..." while the width is unknown, otherwise the frame. */
  function View(m: Model, f: Formats): seq<Cell>
  {
    if m.width == 0 then Text(LoadingText) else Join(FrameLines(m, f))
  }
}
