/** The progress bars of main.go: createBarWithText, the bar with its label and
    percentage drawn over it, and createSimpleBar, the plain block bar. */
module Bars {
  import opened Cells

  /** Number of leftmost columns that count as filled: the clamped percentage of
      `width`, rounded down (main.go converts a non-negative float to int). */
  function Filled(percent: real, width: int): (f: int)
    requires width > 0
    ensures 0 <= f <= width
    ensures f as real <= Clamp(percent) / 100.0 * width as real < f as real + 1.0
    ensures f == width <==> percent >= 100.0
  {
    var p := Clamp(percent);
    ScaledFloor(p, width);
    (p / 100.0 * width as real).Floor
  }

  /** The floor of p percent of `width`: a column count in [0, width] that is `width`
      exactly at 100 percent. */
  lemma ScaledFloor(p: real, width: int)
    requires 0.0 <= p <= 100.0 && width > 0
    ensures var x := p / 100.0 * width as real;
      && 0 <= x.Floor <= width
      && x.Floor as real <= x < x.Floor as real + 1.0
      && (x.Floor == width <==> p == 100.0)
  {
    var x := p / 100.0 * width as real;
    FractionBounds(p, width);
    FloorBelow(x, width);
  }

  /** The floor of a real in [0, n] lies in [0, n] and is n exactly when the real is n. */
  lemma FloorBelow(x: real, n: int)
    requires 0.0 <= x <= n as real
    ensures 0 <= x.Floor <= n
    ensures x.Floor as real <= x < x.Floor as real + 1.0
    ensures x.Floor == n <==> x == n as real
  {
  }

  lemma FractionBounds(p: real, width: int)
    requires 0.0 <= p <= 100.0
    requires width > 0
    ensures 0.0 <= p / 100.0 * width as real <= width as real
    ensures p / 100.0 * width as real == width as real <==> p == 100.0
    ensures p < 100.0 ==> p / 100.0 * width as real < width as real
  {
    var w := width as real;
    var q := p / 100.0;
    assert 0.0 <= q <= 1.0;
    assert q * w <= 1.0 * w;
    if p < 100.0 {
      assert q < 1.0;
      assert q * w < 1.0 * w;
    }
  }

  /** The fallback text used when there is no room for a bar. */
  function FallbackText(labelText: string, percentText: string): string
  {
    labelText + " " + percentText
  }

  /** The character of column `i` on the normal path: the label at the left,
      the percentage text right-aligned, spaces between. */
  function OverlayChar(labelText: string, percentText: string, width: int, i: int): char
    requires |labelText| + |percentText| < width
    requires 0 <= i < width
  {
    if i < |labelText| then labelText[i]
    else if i < width - |percentText| then ' '
    else percentText[i - (width - |percentText|)]
  }

  /** createBarWithText: for a non-positive width the unstyled fallback text; when the
      label and percentage together need at least `width` columns, the fallback text in
      the caller's style; otherwise exactly `width` cells whose first Filled(...) cells
      are inverted (black on the band colour) and the rest in the caller's style. */
  function BarWithText(labelText: string, percentText: string, percent: real, width: int, look: Look): (r: seq<Cell>)
    ensures width <= 0 ==> r == Paint(FallbackText(labelText, percentText), Unstyled)
    ensures 0 < width <= |labelText| + |percentText| ==> r == Paint(FallbackText(labelText, percentText), Plain(look))
    ensures |labelText| + |percentText| < width ==> |r| == width
  {
    if width <= 0 then Paint(FallbackText(labelText, percentText), Unstyled)
    else
      var filled := Filled(percent, width);
      if |labelText| + |percentText| >= width then Paint(FallbackText(labelText, percentText), Plain(look))
      else
        seq(width, i requires 0 <= i < width =>
          Cell(OverlayChar(labelText, percentText, width, i),
               if i < filled then Inverted(look) else Plain(look)))
  }

  /** On the normal path the bar reads as the label, the padding spaces and the
      percentage text, and its styles are `filled` inverted cells followed by plain ones. */
  lemma BarWithTextLayout(labelText: string, percentText: string, percent: real, width: int, look: Look)
    requires |labelText| + |percentText| < width
    ensures Chars(BarWithText(labelText, percentText, percent, width, look))
         == labelText + Repeat(' ', width - |labelText| - |percentText|) + percentText
    ensures Styles(BarWithText(labelText, percentText, percent, width, look))
         == Repeat(Inverted(look), Filled(percent, width)) + Repeat(Plain(look), width - Filled(percent, width))
  {
    var r := BarWithText(labelText, percentText, percent, width, look);
    var text := labelText + Repeat(' ', width - |labelText| - |percentText|) + percentText;
    forall i | 0 <= i < width
      ensures Chars(r)[i] == text[i]
    {
      if i >= width - |percentText| {
        assert text[i] == percentText[i - (width - |percentText|)];
      }
    }
  }

  /** Every bar, on every path, starts with its label. */
  lemma BarStartsWithLabel(labelText: string, percentText: string, percent: real, width: int, look: Look)
    ensures |labelText| <= |BarWithText(labelText, percentText, percent, width, look)|
    ensures Chars(BarWithText(labelText, percentText, percent, width, look))[..|labelText|] == labelText
  {
  }

  /** The renderer behaves as if the percentage were clamped first: out-of-range
      values draw exactly what 0 or 100 draw. A real is never NaN, so this says
      nothing about the NaN float64 that main.go's comparisons let through. */
  lemma BarWithTextClamps(labelText: string, percentText: string, percent: real, width: int, look: Look)
    ensures BarWithText(labelText, percentText, percent, width, look)
         == BarWithText(labelText, percentText, Clamp(percent), width, look)
  {
    if width > 0 {
      assert Filled(percent, width) == Filled(Clamp(percent), width);
    }
  }

  /** A bar at (or above) 100% is inverted over its whole width; at (or below) 0%
      none of it is. */
  lemma BarWithTextExtremes(labelText: string, percentText: string, percent: real, width: int, look: Look)
    requires |labelText| + |percentText| < width
    ensures percent >= 100.0 ==>
      forall i :: 0 <= i < width ==> BarWithText(labelText, percentText, percent, width, look)[i].style == Inverted(look)
    ensures percent <= 0.0 ==>
      forall i :: 0 <= i < width ==> BarWithText(labelText, percentText, percent, width, look)[i].style == Plain(look)
  {
  }

  const FullBlock: char := '█'
  const LightShade: char := '░'

  /** createSimpleBar: nothing for a non-positive width, otherwise `width` cells of
      which the first Filled(...) are full blocks in the caller's style and the rest
      unstyled light-shade blocks. */
  function SimpleBar(percent: real, width: int, look: Look): (r: seq<Cell>)
    ensures width <= 0 ==> r == []
    ensures width > 0 ==> |r| == width
    ensures width > 0 ==> forall i :: 0 <= i < |r| ==>
      (r[i] == Cell(FullBlock, Plain(look)) <==> i < Filled(percent, width))
    ensures forall i :: 0 <= i < |r| ==>
      r[i] == Cell(FullBlock, Plain(look)) || r[i] == Cell(LightShade, Unstyled)
  {
    if width <= 0 then []
    else
      var filled := Filled(percent, width);
      seq(width, i requires 0 <= i < width =>
        if i < filled then Cell(FullBlock, Plain(look)) else Cell(LightShade, Unstyled))
  }

  /** The simple bar and the text bar share the clamp and the fill rule: wherever the
      text bar has room, a column is a full block exactly where the text bar is inverted. */
  lemma SimpleBarAgreesWithTextBar(labelText: string, percentText: string, percent: real, width: int, look: Look)
    requires |labelText| + |percentText| < width
    ensures forall i :: 0 <= i < width ==>
      (SimpleBar(percent, width, look)[i].ch == FullBlock <==>
       BarWithText(labelText, percentText, percent, width, look)[i].style.Inverted?)
  {
  }
}
