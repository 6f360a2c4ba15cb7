/** Terminal cells: a character together with an abstract style, the colour
    bands the dashboard paints with, and the percentage clamp shared by every bar.
    Styles stand for the lipgloss styles of main.go; no ANSI bytes are produced. */
module Cells {

  /** The three colour bands of the dashboard (green, yellow and red foregrounds). */
  datatype Band = Green | Yellow | Red

  /** Severity order of the bands, for monotonicity statements. */
  function Severity(b: Band): nat
  {
    match b
    case Green => 0
    case Yellow => 1
    case Red => 2
  }

  /** The colour band chosen for a percentage: below 50 green, below 80 yellow, otherwise red. */
  function BandOf(percent: real): (b: Band)
    ensures b == Green <==> percent < 50.0
    ensures b == Yellow <==> 50.0 <= percent < 80.0
    ensures b == Red <==> 80.0 <= percent
  {
    if percent < 50.0 then Green
    else if percent < 80.0 then Yellow
    else Red
  }

  /** A higher percentage never gets a milder band. */
  lemma BandMonotone(p: real, q: real)
    requires p <= q
    ensures Severity(BandOf(p)) <= Severity(BandOf(q))
  {
  }

  /** Clamping a percentage into [0, 100], as the bar renderers do before computing the fill. */
  function Clamp(percent: real): (r: real)
    ensures 0.0 <= r <= 100.0
    ensures 0.0 <= percent <= 100.0 ==> r == percent
    ensures percent < 0.0 ==> r == 0.0
    ensures 100.0 < percent ==> r == 100.0
  {
    if percent < 0.0 then 0.0
    else if percent > 100.0 then 100.0
    else percent
  }

  /** The band of a raw percentage equals the band of its clamped value, so the caller
      choosing a colour from the unclamped value agrees with the renderer's clamp. */
  lemma BandOfClamp(percent: real)
    ensures BandOf(Clamp(percent)) == BandOf(percent)
    ensures Clamp(Clamp(percent)) == Clamp(percent)
  {
  }

  /** A foreground colour style: the band's colour, optionally underlined. */
  datatype Look = Look(band: Band, underline: bool)

  /** How one cell is painted:
      - Unstyled: no escape sequences at all;
      - Plain: the band colour as foreground (the caller's style);
      - Inverted: black text on the band colour as background, keeping the underline;
      - Header: bold and underlined, no colour. */
  datatype Style = Unstyled | Plain(look: Look) | Inverted(look: Look) | Header

  /** One terminal column. */
  datatype Cell = Cell(ch: char, style: Style)

  /** The text `s` painted in one style, one cell per code point. */
  function Paint(s: string, style: Style): (r: seq<Cell>)
    ensures |r| == |s|
    ensures forall i :: 0 <= i < |r| ==> r[i] == Cell(s[i], style)
  {
    seq(|s|, i requires 0 <= i < |s| => Cell(s[i], style))
  }

  /** The characters of a run of cells, with the styling stripped. */
  function Chars(cells: seq<Cell>): (s: string)
    ensures |s| == |cells|
    ensures forall i :: 0 <= i < |s| ==> s[i] == cells[i].ch
  {
    seq(|cells|, i requires 0 <= i < |cells| => cells[i].ch)
  }

  /** The styles of a run of cells, with the characters stripped. */
  function Styles(cells: seq<Cell>): (s: seq<Style>)
    ensures |s| == |cells|
    ensures forall i :: 0 <= i < |s| ==> s[i] == cells[i].style
  {
    seq(|cells|, i requires 0 <= i < |cells| => cells[i].style)
  }

  lemma CharsPaint(s: string, style: Style)
    ensures Chars(Paint(s, style)) == s
  {
  }

  lemma CharsConcat(a: seq<Cell>, b: seq<Cell>)
    ensures Chars(a + b) == Chars(a) + Chars(b)
  {
  }

  lemma StylesPaint(s: string, style: Style)
    ensures Styles(Paint(s, style)) == Repeat(style, |s|)
  {
  }

  lemma StylesConcat(a: seq<Cell>, b: seq<Cell>)
    ensures Styles(a + b) == Styles(a) + Styles(b)
  {
  }

  /** `n` copies of `x`. */
  function Repeat<T>(x: T, n: nat): (r: seq<T>)
    ensures |r| == n
    ensures forall i :: 0 <= i < n ==> r[i] == x
  {
    seq(n, _ => x)
  }

  function Min(a: int, b: int): int { if a <= b then a else b }
  function Max(a: int, b: int): int { if a >= b then a else b }
}
