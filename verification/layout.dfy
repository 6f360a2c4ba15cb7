/** The layout arithmetic of View in main.go: the width of the headline bars, the
    width and grouping of the per-core bars, the vertical budget for the process
    table and the width of its COMMAND column. */
module Layout {
  import opened Cells

  /** Go's integer division, which truncates toward zero (Dafny's `/` is Euclidean). */
  function GoDiv(a: int, b: int): (q: int)
    requires b > 0
    ensures 0 <= a ==> 0 <= q && q * b <= a < q * b + b
    ensures a < 0 ==> q <= 0 && q * b - b < a <= q * b
  {
    if a >= 0 then
      NonNegDiv(a, b);
      a / b
    else
      NonNegDiv(-a, b);
      -((-a) / b)
  }

  /** Euclidean division of a non-negative numerator: a non-negative quotient whose
      multiple lies within one divisor below the numerator. */
  lemma NonNegDiv(a: int, b: int)
    requires a >= 0 && b > 0
    ensures 0 <= a / b && (a / b) * b <= a < (a / b) * b + b
  {
    var q, r := a / b, a % b;
    assert a == q * b + r && 0 <= r < b;
    if q < 0 {
      MulMono(-q, b);
      assert false;
    }
  }

  /** Go's and Dafny's divisions agree on non-negative numerators and on exact
      multiples; on any other negative numerator Go's quotient is one larger. */
  lemma GoDivVersusEuclidean(a: int, b: int)
    requires b > 0
    ensures a >= 0 || a % b == 0 ==> GoDiv(a, b) == a / b
    ensures a < 0 && a % b != 0 ==> GoDiv(a, b) == a / b + 1
  {
    if a < 0 {
      var q := a / b;
      var r := a % b;
      assert a == q * b + r && 0 <= r < b;
      if r == 0 {
        assert -a == (-q) * b + 0;
        DivUnique(-a, b, -q, 0);
      } else {
        assert -a == (-q - 1) * b + (b - r);
        DivUnique(-a, b, -q - 1, b - r);
      }
    }
  }

  const Margin := 2          // availableWidth = width - 2
  const BarSpacing := 2      // columns between two bars of a row
  const MinHeadlineBarWidth := 20
  const CoresPerLine := 4
  const MinCoreBarWidth := 15
  const FixedColumnsWidth := 25
  const MinCommandWidth := 10
  const DefaultHeight := 24
  const BottomMargin := 1

  /** Width of each of the two headline bars of a row (CPU/GPU, Memory/GPU memory):
      at least 20, and from a terminal width of 44 on, the widest pair of bars plus
      the gap between them that fits in width-2 columns, wasting less than 2. */
  function HeadlineBarWidth(width: int): (w: int)
    ensures w >= MinHeadlineBarWidth
    ensures width < 44 ==> w == MinHeadlineBarWidth
    ensures width >= 44 ==> 2 * w + BarSpacing <= width - Margin < 2 * w + BarSpacing + 2
  {
    var availableWidth := width - Margin;
    var barWidth := GoDiv(availableWidth - BarSpacing, 2);
    if barWidth < MinHeadlineBarWidth then MinHeadlineBarWidth else barWidth
  }

  /** Number of cells of a headline row when both bars take their full width. */
  function HeadlineRowWidth(width: int): int
  {
    2 * HeadlineBarWidth(width) + BarSpacing
  }

  /** The width of a headline row: exactly width-2 for an even terminal width of at
      least 44 and width-3 for an odd one, so the widest line falls two or three
      columns short of the terminal width; below 44 it is 42 cells, wider than width-2. */
  lemma HeadlineRowSpan(width: int)
    ensures width >= 44 && width % 2 == 0 ==> HeadlineRowWidth(width) == width - 2
    ensures width >= 44 && width % 2 == 1 ==> HeadlineRowWidth(width) == width - 3
    ensures width < 44 ==> HeadlineRowWidth(width) == 42 > width - Margin
  {
  }

  /** The per-core grid: width of each core bar and number of bars per line. */
  datatype CoreGrid = CoreGrid(barWidth: int, perLine: int)

  /** The core bar width before the degradation step: four bars and three gaps in
      width-2 columns, raised to at least 15. */
  function ClampedCoreBarWidth(width: int): (w: int)
    ensures w >= MinCoreBarWidth
  {
    var availableWidth := width - Margin;
    var barWidth := GoDiv(availableWidth - (CoresPerLine - 1) * BarSpacing, CoresPerLine);
    if barWidth < MinCoreBarWidth then MinCoreBarWidth else barWidth
  }

  /** The degradation step of View: when the bars are narrower than 15 and more than
      two are on a line, fall back to two per line, recompute the width and raise it
      to at least 15. */
  function Degrade(grid: CoreGrid, availableWidth: int): (g: CoreGrid)
    ensures grid.barWidth >= MinCoreBarWidth || grid.perLine <= 2 ==> g == grid
    ensures grid.barWidth < MinCoreBarWidth && grid.perLine > 2 ==>
      g == CoreGrid(Max(GoDiv(availableWidth - BarSpacing, 2), MinCoreBarWidth), 2)
    ensures grid.barWidth < MinCoreBarWidth && grid.perLine > 2 ==> g.perLine == 2 && g.barWidth >= MinCoreBarWidth
  {
    if grid.barWidth < MinCoreBarWidth && grid.perLine > 2 then
      var barWidth := GoDiv(availableWidth - (2 - 1) * BarSpacing, 2);
      CoreGrid(if barWidth < MinCoreBarWidth then MinCoreBarWidth else barWidth, 2)
    else grid
  }

  /** The core grid of View: the clamped width fed to the degradation step. The step
      never fires, so there are always four bars per line; from a terminal width of 68
      on, the four bars and three gaps fit in width-2 columns, wasting less than 4, and
      below that every bar is 15 wide. */
  function CoreLayout(width: int): (g: CoreGrid)
    ensures g.perLine == CoresPerLine
    ensures g.barWidth >= MinCoreBarWidth
    ensures width >= 68 ==> CoreRowWidth(g) <= width - Margin < CoreRowWidth(g) + 4
    ensures width < 68 ==> g.barWidth == MinCoreBarWidth
  {
    Degrade(CoreGrid(ClampedCoreBarWidth(width), CoresPerLine), width - Margin)
  }

  /** Number of cells of a full core line. */
  function CoreRowWidth(g: CoreGrid): int
  {
    g.perLine * g.barWidth + (g.perLine - 1) * BarSpacing
  }

  /** The degradation step is dead code: on every width it leaves the grid as it is. */
  lemma DegradationUnreachable(width: int)
    ensures !(ClampedCoreBarWidth(width) < MinCoreBarWidth && CoresPerLine > 2)
    ensures Degrade(CoreGrid(ClampedCoreBarWidth(width), CoresPerLine), width - Margin)
         == CoreGrid(ClampedCoreBarWidth(width), CoresPerLine)
  {
  }

  /** Below a width of 68 a full core line is wider than the available width: at a
      terminal width of 40 it needs 66 of 38 columns. */
  lemma CoreRowOverflows(width: int)
    requires width < 68
    ensures CoreRowWidth(CoreLayout(width)) == 66 > width - Margin
  {
  }

  /** Go's truncating division and Dafny's Euclidean one give the same widths, because
      wherever they differ (a negative numerator) the result is raised to the minimum. */
  lemma WidthsAgreeWithEuclideanDivision(width: int)
    ensures HeadlineBarWidth(width) == Max((width - Margin - BarSpacing) / 2, MinHeadlineBarWidth)
    ensures ClampedCoreBarWidth(width) == Max((width - Margin - 3 * BarSpacing) / CoresPerLine, MinCoreBarWidth)
  {
  }

  /** The indices lo, lo+1, ..., hi-1. */
  function Range(lo: nat, hi: nat): (r: seq<nat>)
    requires lo <= hi
    ensures |r| == hi - lo
    ensures forall j :: 0 <= j < |r| ==> r[j] == lo + j
  {
    seq(hi - lo, j requires 0 <= j < hi - lo => lo + j)
  }

  /** The rows of the core grid from core `i` on: consecutive runs of `perLine` core
      indices, the last possibly shorter (the outer loop of View stepping by perLine). */
  function Chunks(n: nat, perLine: nat, i: nat): (rows: seq<seq<nat>>)
    requires perLine > 0 && i <= n
    ensures forall r :: 0 <= r < |rows| ==> 0 < |rows[r]| <= perLine
    ensures forall r :: 0 <= r < |rows| - 1 ==> |rows[r]| == perLine
    ensures forall r, t :: 0 <= r < |rows| && 0 <= t < |rows[r]| ==> i <= rows[r][t] < n
    decreases n - i
  {
    if i == n then []
    else [Range(i, Min(i + perLine, n))] + Chunks(n, perLine, Min(i + perLine, n))
  }

  function Flatten(rows: seq<seq<nat>>): seq<nat>
  {
    if rows == [] then [] else rows[0] + Flatten(rows[1..])
  }

  /** The rows partition the core indices in order: read row by row they are exactly
      i, i+1, ..., n-1. */
  lemma {:induction false} ChunksPartition(n: nat, perLine: nat, i: nat)
    requires perLine > 0 && i <= n
    ensures Flatten(Chunks(n, perLine, i)) == Range(i, n)
    decreases n - i
  {
    if i < n {
      var next := Min(i + perLine, n);
      ChunksPartition(n, perLine, next);
      var rows := Chunks(n, perLine, i);
      assert rows[1..] == Chunks(n, perLine, next);
      assert Flatten(rows) == Range(i, next) + Range(next, n);
    }
  }

  /** Number of core lines as View computes it: ceiling division by perLine, the
      fewest lines of perLine bars that hold n bars. */
  function CoreLines(n: nat, perLine: nat): (c: int)
    requires perLine > 0
    ensures c >= 0
    ensures (c - 1) * perLine < n <= c * perLine
  {
    GoDiv(n + perLine - 1, perLine)
  }

  /** The grid has exactly CoreLines(...) rows, so the line budget counts the core
      lines View actually writes. */
  lemma {:induction false} ChunksCount(n: nat, perLine: nat, i: nat)
    requires perLine > 0 && i <= n
    ensures |Chunks(n, perLine, i)| == CoreLines(n - i, perLine)
    decreases n - i
  {
    if i == n {
      CoreLinesSteps(0, perLine);
    } else if i + perLine <= n {
      ChunksStep(n, perLine, i);
      ChunksCount(n, perLine, i + perLine);
      CoreLinesSteps(n - i, perLine);
    } else {
      ChunksStep(n, perLine, i);
      CoreLinesSteps(n - i, perLine);
    }
  }

  /** One row of the grid is cut off from core `i` on. */
  lemma ChunksStep(n: nat, perLine: nat, i: nat)
    requires perLine > 0 && i < n
    ensures i + perLine <= n ==> |Chunks(n, perLine, i)| == 1 + |Chunks(n, perLine, i + perLine)|
    ensures i + perLine > n ==> |Chunks(n, perLine, i)| == 1
  {
  }

  /** The ceiling division counts one line for up to perLine cores and one more for
      every further perLine. */
  lemma CoreLinesSteps(m: nat, perLine: nat)
    requires perLine > 0
    ensures m == 0 ==> CoreLines(m, perLine) == 0
    ensures 0 < m <= perLine ==> CoreLines(m, perLine) == 1
    ensures m >= perLine ==> CoreLines(m, perLine) == 1 + CoreLines(m - perLine, perLine)
  {
    if m == 0 {
      DivUnique(perLine - 1, perLine, 0, perLine - 1);
    }
    if 0 < m <= perLine {
      DivOne(m + perLine - 1, perLine);
    }
    if m >= perLine {
      DivShift(m - 1, perLine);
    }
  }

  lemma DivShift(x: int, b: int)
    requires b > 0 && x >= 0
    ensures (x + b) / b == x / b + 1
  {
    var q := x / b;
    var r := x % b;
    assert x == q * b + r && 0 <= r < b;
    assert x + b == (q + 1) * b + r;
    DivUnique(x + b, b, q + 1, r);
  }

  lemma MulMono(d: int, b: int)
    requires d >= 1 && b > 0
    ensures d * b >= b
  {
  }

  /** Euclidean division is determined by quotient and remainder. */
  lemma DivUnique(a: int, b: int, q: int, r: int)
    requires b > 0 && a == q * b + r && 0 <= r < b
    ensures a / b == q
  {
    var q' := a / b;
    var r' := a % b;
    assert a == q' * b + r';
    if q' < q {
      MulMono(q - q', b);
      assert false;
    } else if q' > q {
      MulMono(q' - q, b);
      assert false;
    }
  }

  lemma DivOne(a: int, b: int)
    requires b > 0 && b <= a < 2 * b
    ensures a / b == 1
  {
    DivUnique(a, b, 1, a - b);
  }

  /** Lines written before the first process row: two headline rows, a blank line,
      the core lines, a blank line and the table header. */
  function LinesUsed(coreLines: int): int
  {
    2 + 1 + coreLines + 1 + 1
  }

  /** The terminal height View plans with: 24 while the height is still unknown (0). */
  function PlannedHeight(height: int): (h: int)
    ensures height == 0 ==> h == DefaultHeight
    ensures height != 0 ==> h == height
  {
    if height == 0 then DefaultHeight else height
  }

  /** Lines left for process rows, keeping one line free at the bottom; never below 1. */
  function AvailableLines(height: int, linesUsed: int): (a: int)
    ensures a >= 1
    ensures a >= PlannedHeight(height) - linesUsed - BottomMargin
    ensures a == 1 || a == PlannedHeight(height) - linesUsed - BottomMargin
  {
    var available := PlannedHeight(height) - linesUsed - BottomMargin;
    if available < 1 then 1 else available
  }

  /** Number of process rows shown: the available lines, but no more than there are processes. */
  function ProcessRowCount(available: int, total: nat): (k: nat)
    requires available >= 1
    ensures k <= total && k <= available
    ensures k == total || k == available
  {
    if available > total then total else available
  }

  /** Width of the COMMAND column: what the 25 fixed columns leave of the terminal
      width, but at least 10. */
  function CommandWidth(width: int): (c: int)
    ensures c >= MinCommandWidth
    ensures width >= FixedColumnsWidth + MinCommandWidth ==> FixedColumnsWidth + c == width
    ensures width < FixedColumnsWidth + MinCommandWidth ==> c == MinCommandWidth
  {
    var commandWidth := width - FixedColumnsWidth;
    if commandWidth < MinCommandWidth then MinCommandWidth else commandWidth
  }
}
